/**
 The recorder itself: the trace writer it drives, and the loop over VM states
 with the recorder's own tracking variables.
 */
module Tracer {
  import opened Common
  import opened Ancestry
  import opened Text
  import opened CallInference
  import opened StepAutomaton
  import opened WrittenSlots
  import opened SourceMaps
  import opened TraceModel
  import opened TraceTheorems
  import opened LogContents
  import opened LogLocals

  /** The part of the trace writer the recorder uses, as a log. */
  class TraceWriter {
    var log: seq<Event>
    var functions: seq<Function>
    var paths: seq<(string, nat)>

    constructor ()
      ensures log == [] && functions == [] && paths == []
    {
      log, functions, paths := [], [], [];
    }

    /** The writer refuses a step past the last line stated for its path. */
    ghost predicate Admits(path: string, line: nat)
      reads `paths
    {
      exists i :: 0 <= i < |paths| && paths[i].0 == path && 1 <= line <= paths[i].1
    }

    method RegisterPathWithLineCount(path: string, count: nat)
      modifies this`paths
      ensures paths == old(paths) + [(path, count)]
    {
      paths := paths + [(path, count)];
    }

    /** Ids are interned on name and line together. */
    method EnsureFunctionId(name: string, line: nat) returns (id: nat)
      modifies this`functions
      ensures id < |functions| && functions[id] == Function(name, line)
      ensures functions == if Function(name, line) in old(functions) then old(functions) else old(functions) + [Function(name, line)]
      ensures Function(name, line) !in old(functions) ==> id == |old(functions)|
    {
      for i := 0 to |functions|
        invariant functions == old(functions)
        invariant Function(name, line) !in functions[..i]
      {
        if functions[i] == Function(name, line) {
          return i;
        }
      }
      assert functions[..|functions|] == functions;
      functions := functions + [Function(name, line)];
      return |functions| - 1;
    }

    method StageArg(index: nat, value: int)
      modifies this`log
      ensures log == old(log) + [Event.Arg(index, value)]
    {
      log := log + [Event.Arg(index, value)];
    }

    method RegisterCall(fn: nat)
      requires fn < |functions|
      modifies this`log
      ensures log == old(log) + [CallFn(fn)]
    {
      log := log + [CallFn(fn)];
    }

    method RegisterReturn(value: Option<int>)
      modifies this`log
      ensures log == old(log) + [ReturnFn(value)]
    {
      log := log + [ReturnFn(value)];
    }

    method RegisterStep(path: string, line: nat)
      requires Admits(path, line)
      modifies this`log
      ensures log == old(log) + [Step(line)]
    {
      log := log + [Step(line)];
    }

    method RegisterVariable(variable: Variable)
      modifies this`log
      ensures log == old(log) + [Var(variable)]
    {
      log := log + [Var(variable)];
    }

    /** The special-event channel: an advice read, or a VM error. */
    method RegisterSpecialEvent(event: Event)
      requires event.Read? || event.VmError?
      modifies this`log
      ensures log == old(log) + [event]
    {
      log := log + [event];
    }
  }

  /** The paths already registered on a line-counted writer. */
  class LineCountedPaths {
    var registered: set<string>

    constructor ()
      ensures registered == {}
    {
      registered := {};
    }

    /** Every path on the writer was registered through here, exactly once. */
    ghost predicate Valid(writer: TraceWriter)
      reads this, writer
    {
      && (forall path :: path in registered <==> exists i :: 0 <= i < |writer.paths| && writer.paths[i].0 == path)
      && (forall i, j :: 0 <= i < j < |writer.paths| ==> writer.paths[i].0 != writer.paths[j].0)
    }

    /** A path is registered once, with the line count of the text it was first registered with. */
    method Register(writer: TraceWriter, path: string, source: seq<byte>)
      requires Valid(writer)
      modifies this, writer`paths
      ensures Valid(writer)
      ensures registered == old(registered) + {path}
      ensures writer.paths == if path in old(registered) then old(writer.paths)
                              else old(writer.paths) + [(path, SourceLineCount(source))]
    {
      if path in registered {
        return;
      }
      ghost var before := writer.paths;
      writer.RegisterPathWithLineCount(path, SourceLineCount(source));
      registered := registered + {path};
      forall p ensures p in registered <==> exists i :: 0 <= i < |writer.paths| && writer.paths[i].0 == p {
        if p == path {
          assert writer.paths[|before|].0 == p;
        } else if p in registered {
          var i :| 0 <= i < |before| && before[i].0 == p;
          assert writer.paths[i].0 == p;
        }
      }
    }
  }

  /** The slot sets a lazily grown `callerLocals` stands for: a missing entry is the empty set. */
  function SlotsOf(depth: nat, callerLocals: seq<set<nat>>, activeLocals: set<nat>): (slots: SlotStack)
    ensures |slots| == depth + 1 && Last(slots) == activeLocals
  {
    seq(depth + 1, i requires 0 <= i <= depth =>
      if i == depth then activeLocals else if i < |callerLocals| then callerLocals[i] else {})
  }

  class MidenTracer {
    const writer: TraceWriter
    const sourcePath: string
    const sourceMap: SourceMap
    const callGraph: CallGraph
    const parentMap: map<string, Option<string>>
    const procLocals: map<string, nat>

    var functionIds: map<string, nat>
    var prevLine: Option<nat>
    var prevContextName: Option<string>
    var stepFirstOp: Option<string>
    var stepMovedPastFirst: bool
    var activeLocals: set<nat>
    var callerLocals: seq<set<nat>>
    var contextStack: seq<string>
    var currentNumLocals: nat
    var synthesisedMainCall: bool
    var synthesisedChainLeaf: bool
    var pendingWord: Option<seq<int>>
    var pendingAdviceRead: Option<AdviceRead>
    var lastStackTop: Option<int>

    ghost function Known(): Program {
      Program(callGraph, parentMap)
    }

    ghost function ProgramEnv(): Env {
      Env(sourceMap.source, Known(), procLocals)
    }

    ghost function ShadowState(): Shadow
      reads `contextStack, `prevContextName, `synthesisedMainCall, `synthesisedChainLeaf
    {
      Shadow(contextStack, prevContextName, synthesisedMainCall, synthesisedChainLeaf)
    }

    ghost function Slots(): SlotStack
      reads `contextStack, `callerLocals, `activeLocals
    {
      SlotsOf(|contextStack|, callerLocals, activeLocals)
    }

    /** What the tracking variables and the writer stand for. */
    ghost function Abs(): State
      reads this, writer
    {
      State(ShadowState(), Slots(), StepState(prevLine, stepFirstOp, stepMovedPastFirst),
            pendingWord, pendingAdviceRead, lastStackTop, writer.functions, writer.log)
    }

    /** The program file was registered with its line count. */
    ghost predicate PathStated()
      reads writer`paths
    {
      exists i :: 0 <= i < |writer.paths| && writer.paths[i] == (sourcePath, SourceLineCount(sourceMap.source))
    }

    ghost predicate Tables() {
      sourceMap.Valid() && Mappable(sourceMap.source)
    }

    ghost predicate Valid()
      reads `contextStack, `prevContextName, `synthesisedMainCall, `synthesisedChainLeaf,
            `callerLocals, `functionIds, `currentNumLocals, writer`functions, writer`paths
    {
      && PathStated()
      && Consistent(ShadowState())
      && |callerLocals| <= |contextStack|
      && functionIds == Ids(writer.functions)
      && currentNumLocals == NumLocals(ProgramEnv(), prevContextName)
    }

    constructor (writer: TraceWriter, sourceMap: SourceMap, callGraph: CallGraph, procLocals: map<string, nat>)
      requires sourceMap.Valid() && Mappable(sourceMap.source)
      requires exists i :: 0 <= i < |writer.paths| && writer.paths[i] == (sourceMap.path, SourceLineCount(sourceMap.source))
      requires writer.log == [] && writer.functions == []
      ensures Valid() && Tables() && this.writer == writer
      ensures ProgramEnv() == Env(sourceMap.source, Program(callGraph, parentMap), procLocals)
      ensures IsParentMap(callGraph, parentMap)
      ensures Abs() == Start([])
    {
      this.writer, this.sourceMap, this.sourcePath := writer, sourceMap, sourceMap.path;
      this.callGraph, this.procLocals := callGraph, procLocals;
      var parents := BuildParentMap(callGraph);
      parentMap := parents;
      functionIds := map[];
      prevLine, prevContextName, stepFirstOp, stepMovedPastFirst := None, None, None, false;
      activeLocals, callerLocals, contextStack, currentNumLocals := {}, [], [], 0;
      synthesisedMainCall, synthesisedChainLeaf := false, false;
      pendingWord, pendingAdviceRead, lastStackTop := None, None, None;
    }

    // ----- Functions -----

    /** The cached id of a procedure, or a fresh one registered at `line`. */
    method ResolveFunction(name: string, line: nat) returns (id: nat)
      requires functionIds == Ids(writer.functions)
      modifies this`functionIds, writer`functions
      ensures functionIds == Ids(writer.functions)
      ensures writer.functions == WithFunction(old(writer.functions), name, line)
      ensures name in functionIds && id == IdOf(writer.functions, name) && id < |writer.functions|
    {
      if name in functionIds {
        id := functionIds[name];
        KnownFunction(writer.functions, name, line);
      } else {
        FreshFunction(writer.functions, name, line);
        id := writer.EnsureFunctionId(name, line);
        functionIds := functionIds[name := id];
      }
    }

    /** Give every declared procedure an id before the run, in hash order. */
    method PreRegister()
      requires Valid() && Abs() == Start([])
      modifies this`functionIds, writer`functions
      ensures Valid() && IsPreRegistration(ProgramEnv(), writer.functions)
      ensures Abs() == Start(writer.functions)
    {
      hide WithFunction, RuntimeName, NumLocals, Consistent;
      var remaining := procLocals.Keys;
      ghost var done: set<string> := {};
      while remaining != {}
        invariant remaining <= procLocals.Keys && done == procLocals.Keys - remaining
        invariant functionIds == Ids(writer.functions)
        invariant RegisteredAtOne(done, writer.functions)
        decreases remaining
      {
        var procName :| procName in remaining;
        RegisterOne(done, procName, writer.functions);
        ghost var before := writer.functions;
        var prefixed := RuntimeName(procName);
        assert forall f :: f in before ==> f.name != prefixed;
        var fid := ResolveFunction(prefixed, 1);
        remaining := remaining - {procName};
        done := done + {procName};
      }
      assert done == procLocals.Keys;
      PreRegistered(ProgramEnv(), done, writer.functions);
    }

    // ----- Local slots -----

    /** Report one slot, read from the state's memory. */
    method EmitSlot(slot: nat, vm: VmState)
      modifies writer`log
      ensures writer.log == old(writer.log) + SlotReport(currentNumLocals, vm, slot)
      ensures currentNumLocals < 0x1_0000 && slot < 0x1_0000_0000 ==>
                && (forall v :: CellHolds(vm, currentNumLocals, slot, v) ==> writer.log == old(writer.log) + [Var(Local(slot, v))])
                && ((forall v :: !CellHolds(vm, currentNumLocals, slot, v)) ==> writer.log == old(writer.log))
    {
      CellOfSlot(vm, currentNumLocals, slot);
      hide CellHolds;
      var offset := (currentNumLocals - slot) % U64_RANGE;
      if vm.fmp < offset {
        return;
      }
      var found := Lookup(vm.memory, (vm.fmp - offset) % U32_RANGE);
      if found.Some? {
        writer.RegisterVariable(Local(slot, AsI64(found.value)));
      }
    }

    /** Report `local[N]` for every written slot of the current frame. */
    method EmitActiveLocals(vm: VmState)
      requires currentNumLocals == NumLocals(ProgramEnv(), prevContextName)
      modifies writer`log
      ensures writer.log == old(writer.log) + LocalEvents(ProgramEnv(), prevContextName, activeLocals, vm)
    {
      if activeLocals == {} || currentNumLocals == 0 {
        return;
      }
      var remaining := activeLocals;
      while remaining != {}
        invariant writer.log + SlotEvents(currentNumLocals, vm, remaining) ==
                  old(writer.log) + SlotEvents(currentNumLocals, vm, activeLocals)
        decreases remaining
      {
        LeastExists(remaining);
        var slot :| slot in remaining && forall other :: other in remaining ==> slot <= other;
        assert slot == Least(remaining);
        ghost var before, rest := writer.log, SlotEvents(currentNumLocals, vm, remaining - {slot});
        EmitSlot(slot, vm);
        assert before + (SlotReport(currentNumLocals, vm, slot) + rest) == writer.log + rest;
        remaining := remaining - {slot};
      }
    }

    /** Mark the slot of a completed `loc_store` and report the frame's slots. */
    method StoreLocal(op: string, vm: VmState)
      requires currentNumLocals == NumLocals(ProgramEnv(), prevContextName)
      modifies this`activeLocals, writer`log
      ensures Slots() == StoredSlots(old(Slots()), op)
      ensures writer.log == old(writer.log) + StoreEvents(ProgramEnv(), prevContextName, old(Slots()), op, vm)
    {
      var slot := LocStore(op);
      if slot.Some? {
        activeLocals := activeLocals + {slot.value};
        EmitActiveLocals(vm);
      }
    }

    // ----- Pending values -----

    method HarvestPending(a: AsmOp, stack: seq<Felt>)
      modifies this`pendingWord, this`pendingAdviceRead
      ensures pendingWord == if HarvestedWord(a, stack).Some? then HarvestedWord(a, stack) else old(pendingWord)
      ensures pendingAdviceRead == if HarvestedRead(a, stack).Some? then HarvestedRead(a, stack) else old(pendingAdviceRead)
      ensures forall w :: LoadsWord(a, stack, w) ==> pendingWord == Some(w)
      ensures (forall w :: !LoadsWord(a, stack, w)) ==> pendingWord == old(pendingWord)
      ensures forall r :: LiftsAdvice(a, stack, r) ==> pendingAdviceRead == Some(r)
      ensures (forall r :: !LiftsAdvice(a, stack, r)) ==> pendingAdviceRead == old(pendingAdviceRead)
    {
      HarvestsMean(a, stack);
      hide LoadsWord, LiftsAdvice;
      if a.cycle == a.cycles && IsWordLoad(a.op) && |stack| >= 4 {
        pendingWord := Some(Top(stack, 4));
      }
      if a.cycle == a.cycles {
        var count := AdvPushCount(a.op);
        if count.Some? {
          if |stack| >= count.value {
            pendingAdviceRead := Some(AdvPush(count.value, Top(stack, count.value)));
          }
        } else if a.op == "adv_loadw" && |stack| >= 4 {
          pendingAdviceRead := Some(AdvLoadw(Top(stack, 4)));
        }
      }
    }

    method EmitWord(a: AsmOp, stack: seq<Felt>)
      modifies this`pendingWord, writer`log
      ensures pendingWord == None
      ensures writer.log == old(writer.log) + WordEvents(WordToEmit(old(pendingWord), a, stack))
    {
      var wordToEmit: Option<seq<int>> := None;
      if pendingWord.Some? {
        wordToEmit := pendingWord;
        pendingWord := None;
      } else if IsWordLoad(a.op) && a.cycles == 1 && |stack| >= 4 {
        wordToEmit := Some(Top(stack, 4));
      }
      if wordToEmit.Some? {
        writer.RegisterVariable(Word(wordToEmit.value));
      }
    }

    method EmitRead()
      modifies this`pendingAdviceRead, writer`log
      ensures pendingAdviceRead == None
      ensures writer.log == old(writer.log) + ReadEvents(old(pendingAdviceRead))
    {
      if pendingAdviceRead.Some? {
        writer.RegisterSpecialEvent(Read(pendingAdviceRead.value));
        pendingAdviceRead := None;
      }
    }

    // ----- Calls and returns -----

    method StageArgs(stack: seq<Felt>)
      modifies writer`log
      ensures writer.log == old(writer.log) + ArgEvents(stack, Visible(stack))
    {
      for i := 0 to Visible(stack)
        invariant writer.log == old(writer.log) + ArgEvents(stack, i)
      {
        writer.StageArg(i, AsI64(stack[i]));
      }
    }

    /** Pop the whole context stack, closing one frame per entry. */
    method CloseCallers()
      modifies this`contextStack, writer`log
      ensures contextStack == []
      ensures writer.log == old(writer.log) + FrameEvents(writer.functions, Leaves(|old(contextStack)|), [], None)
    {
      ghost var closed := 0;
      while contextStack != []
        invariant closed + |contextStack| == |old(contextStack)|
        invariant writer.log == old(writer.log) + FrameEvents(writer.functions, Leaves(closed), [], None)
      {
        contextStack := Front(contextStack);
        LeaveEvent(writer.functions, Leaves(closed));
        writer.RegisterReturn(None);
        closed := closed + 1;
      }
    }

    /** Open a frame for one more inlined caller; `names` are open already. */
    method OpenAncestor(ancestor: string, line: nat, ghost table: seq<Function>, ghost names: seq<string>, ghost before: seq<Event>)
      requires functionIds == Ids(writer.functions) && contextStack == names
      requires Inlined(table, line, names, writer.functions, before, writer.log)
      modifies this`contextStack, this`functionIds, writer`functions, writer`log
      ensures functionIds == Ids(writer.functions) && contextStack == names + [RuntimeName(ancestor)]
      ensures Inlined(table, line, contextStack, writer.functions, before, writer.log)
    {
      var prefixed := RuntimeName(ancestor);
      ghost var table0, log := writer.functions, writer.log;
      var fid := ResolveFunction(prefixed, line);
      writer.RegisterCall(fid);
      contextStack := contextStack + [prefixed];
      InlinedStep(table, line, names, prefixed, table0, writer.functions, before, log, writer.log);
    }

    /** Open a frame for every inlined caller between `#main` and the observed leaf. */
    method OpenInlined(ancestors: seq<string>, line: nat)
      requires functionIds == Ids(writer.functions) && contextStack == []
      modifies this`contextStack, this`functionIds, writer`functions, writer`log
      ensures functionIds == Ids(writer.functions) && contextStack == Prefixed(ancestors)
      ensures Inlined(old(writer.functions), line, contextStack, writer.functions, old(writer.log), writer.log)
    {
      ghost var table, before := writer.functions, writer.log;
      assert before + [] == before;
      for i := 0 to |ancestors|
        invariant functionIds == Ids(writer.functions)
        invariant contextStack == Prefixed(ancestors[..i])
        invariant Inlined(table, line, contextStack, writer.functions, before, writer.log)
      {
        assert Front(ancestors[..i + 1]) == ancestors[..i];
        OpenAncestor(ancestors[i], line, table, contextStack, before);
      }
      assert ancestors[..|ancestors|] == ancestors;
    }

    /** The procedures strictly between `#main` and `bare` on its chain, if it has one. */
    method FindInlined(bare: string) returns (ancestors: seq<string>)
      ensures Prefixed(ancestors) == InlinedCallers(MainChain(parentMap, bare))
    {
      var chain := ChainFromMain(parentMap, bare);
      MainChainIsChain(parentMap, bare);
      ChainUnique(parentMap, bare, chain, MainChain(parentMap, bare));
      ancestors := if chain.Some? && |chain.value| > 2 then chain.value[1..|chain.value| - 1] else [];
    }

    /** The first observed context, given its inlined callers below `#main`. */
    method ObserveFirst(context: string, ancestors: seq<string>, line: nat) returns (ghost marks: seq<Mark>)
      requires functionIds == Ids(writer.functions) && ShadowState() == UNOBSERVED
      modifies this`contextStack, this`functionIds, this`synthesisedMainCall, this`synthesisedChainLeaf, writer`functions, writer`log
      ensures functionIds == Ids(writer.functions)
      ensures FirstObservation(Prefixed(ancestors), context) == (ShadowState().(current := Some(context)), marks)
      ensures writer.functions == WithFunctions(WithFunction(old(writer.functions), context, line), contextStack, line)
      ensures writer.log == old(writer.log) + FrameEvents(writer.functions, marks, [], None)
    {
      var newFnId := ResolveFunction(context, line);
      PrefixedLength(ancestors);
      if BareName(context) == MAIN {
        OpenMain(context, newFnId);
        marks := [Enter(context, false)];
      } else if ancestors != [] {
        OpenChain(ancestors, context, newFnId, line);
        marks := Enters(contextStack) + [Enter(context, false)];
      } else {
        marks := [];
        assert writer.log + FrameEvents(writer.functions, marks, [], None) == writer.log;
      }
    }

    method OpenMain(context: string, newFnId: nat)
      requires newFnId == IdOf(writer.functions, context) && newFnId < |writer.functions|
      modifies this`synthesisedMainCall, writer`log
      ensures synthesisedMainCall
      ensures writer.log == old(writer.log) + FrameEvents(writer.functions, [Enter(context, false)], [], None)
    {
      writer.RegisterCall(newFnId);
      synthesisedMainCall := true;
      OneEnter(writer.functions, [], context);
      assert [] + [Enter(context, false)] == [Enter(context, false)];
    }

    /** Open the inlined callers, then the leaf. */
    method OpenChain(ancestors: seq<string>, context: string, newFnId: nat, line: nat)
      requires functionIds == Ids(writer.functions) && contextStack == []
      requires context in functionIds && newFnId == IdOf(writer.functions, context) && newFnId < |writer.functions|
      modifies this`contextStack, this`functionIds, this`synthesisedChainLeaf, writer`functions, writer`log
      ensures functionIds == Ids(writer.functions)
      ensures contextStack == Prefixed(ancestors) && synthesisedChainLeaf
      ensures writer.functions == WithFunctions(old(writer.functions), contextStack, line)
      ensures writer.log == old(writer.log) +
                            FrameEvents(writer.functions, Enters(contextStack) + [Enter(context, false)], [], None)
    {
      hide WithFunctions, Ids, Enters, FrameEvents, Prefixed;
      ghost var before := writer.functions;
      OpenInlined(ancestors, line);
      WithFunctionsFacts(before, contextStack, line);
      IdOfExtends(before, writer.functions, context);
      OneEnter(writer.functions, Enters(contextStack), context);
      writer.RegisterCall(newFnId);
      synthesisedChainLeaf := true;
    }

    method ReturnToCaller(stack: seq<Felt>)
      requires contextStack != []
      modifies this`contextStack, writer`log
      ensures contextStack == Front(old(contextStack))
      ensures writer.log == old(writer.log) + FrameEvents(writer.functions, [Leave(true)], stack, lastStackTop)
    {
      contextStack := Front(contextStack);
      writer.RegisterReturn(lastStackTop);
      OneFrameEvent(writer.functions, stack, lastStackTop);
    }

    /** The begin block surfaces after an inlined chain: close the whole chain. */
    method DrainChain(stack: seq<Felt>)
      modifies this`contextStack, this`synthesisedChainLeaf, writer`log
      ensures contextStack == [] && !synthesisedChainLeaf
      ensures writer.log == old(writer.log) + FrameEvents(writer.functions, Leaves(|old(contextStack)| + 1), stack, lastStackTop)
    {
      ghost var n := |contextStack|;
      CloseCallers();
      LeaveEvent(writer.functions, Leaves(n));
      writer.RegisterReturn(None);
      synthesisedChainLeaf := false;
      LeavesIgnoreStack(writer.functions, n + 1, stack, lastStackTop);
    }

    method ReplaceSibling(context: string, newFnId: nat, stack: seq<Felt>)
      requires newFnId == IdOf(writer.functions, context) && newFnId < |writer.functions|
      modifies writer`log
      ensures writer.log == old(writer.log) +
                            FrameEvents(writer.functions, [Leave(false), Enter(context, true)], stack, lastStackTop)
    {
      writer.RegisterReturn(None);
      StageArgs(stack);
      writer.RegisterCall(newFnId);
      SiblingEvents(writer.functions, context, stack, lastStackTop);
    }

    method EnterDeeper(prevCtx: string, context: string, newFnId: nat, stack: seq<Felt>)
      requires newFnId == IdOf(writer.functions, context) && newFnId < |writer.functions|
      modifies this`contextStack, writer`log
      ensures contextStack == old(contextStack) + [prevCtx]
      ensures writer.log == old(writer.log) + FrameEvents(writer.functions, [Enter(context, true)], stack, lastStackTop)
    {
      contextStack := contextStack + [prevCtx];
      StageArgs(stack);
      writer.RegisterCall(newFnId);
      CallEvents(writer.functions, context, stack, lastStackTop);
    }

    /** A change from the known context `prevCtx` to `context`. */
    method ChangeContext(prevCtx: string, context: string, newFnId: nat, stack: seq<Felt>)
      requires prevContextName == Some(prevCtx)
      requires newFnId == IdOf(writer.functions, context) && newFnId < |writer.functions|
      modifies this`contextStack, this`synthesisedChainLeaf, writer`log
      ensures CallInference.ContextChange(Known(), old(ShadowState()), prevCtx, context).0 == ShadowState().(current := Some(context))
      ensures writer.log == old(writer.log) +
                            FrameEvents(writer.functions,
                                        CallInference.ContextChange(Known(), old(ShadowState()), prevCtx, context).1,
                                        stack, lastStackTop)
    {
      if contextStack != [] && Last(contextStack) == context {
        ReturnToCaller(stack);
      } else if synthesisedChainLeaf && BareName(context) == MAIN && (forall c :: c in contextStack ==> BareName(c) != MAIN) {
        DrainChain(stack);
      } else {
        var callerInvokesBoth := CallerInvokesBoth(callGraph, contextStack, prevCtx, context);
        var prevInvokesCtx := Invokes(callGraph, BareName(prevCtx), BareName(context));
        if callerInvokesBoth && !prevInvokesCtx {
          ReplaceSibling(context, newFnId, stack);
        } else {
          EnterDeeper(prevCtx, context, newFnId, stack);
        }
      }
    }

    /** Save the left frame's slots and restore the entered frame's. */
    method SwitchLocals(depthBefore: nat)
      requires |callerLocals| <= depthBefore
      modifies this`activeLocals, this`callerLocals
      ensures Slots() == Resized(SlotsOf(depthBefore, old(callerLocals), old(activeLocals)), |contextStack|)
      ensures |callerLocals| <= |contextStack|
    {
      var depthAfter := |contextStack|;
      if |callerLocals| <= depthBefore {
        callerLocals := callerLocals + Empties(depthBefore + 1 - |callerLocals|);
      }
      callerLocals := callerLocals[depthBefore := activeLocals];
      activeLocals := {};
      if depthAfter < depthBefore {
        activeLocals := callerLocals[depthAfter];
        callerLocals := callerLocals[depthAfter := {}];
      }
      if depthAfter < |callerLocals| {
        callerLocals := callerLocals[..depthAfter];
      }
    }

    /** The context stack, flags, function table and call trace once `context` has been entered. */
    ghost predicate Entered(s: Shadow, functions: seq<Function>, log: seq<Event>, context: string, line: nat, stack: seq<Felt>)
      reads this, writer
    {
      && Observe(Known(), s, context).0 == ShadowState().(current := Some(context))
      && writer.functions == NextFunctions(Known(), s, functions, context, line)
      && writer.log == log + ContextEvents(Known(), s, context, writer.functions, stack, lastStackTop)
    }

    /** Entering the first observed context. */
    method EnterFirst(context: string, line: nat, stack: seq<Felt>)
      requires functionIds == Ids(writer.functions) && Consistent(ShadowState())
      requires prevContextName.None?
      modifies this`contextStack, this`functionIds, this`synthesisedMainCall, this`synthesisedChainLeaf, writer`functions, writer`log
      ensures functionIds == Ids(writer.functions)
      ensures Entered(old(ShadowState()), old(writer.functions), old(writer.log), context, line, stack)
    {
      ghost var table := writer.functions;
      var ancestors := FindInlined(BareName(context));
      ghost var marks := ObserveFirst(context, ancestors, line);
      FirstContext(Known(), Prefixed(ancestors), context, line, table, writer.functions, stack, lastStackTop);
    }

    /** Changing from one context to another. */
    method EnterChanged(prevCtx: string, context: string, line: nat, stack: seq<Felt>)
      requires functionIds == Ids(writer.functions) && Consistent(ShadowState())
      requires prevContextName == Some(prevCtx) && prevCtx != context
      modifies this`contextStack, this`functionIds, this`synthesisedMainCall, this`synthesisedChainLeaf, writer`functions, writer`log
      ensures functionIds == Ids(writer.functions)
      ensures Entered(old(ShadowState()), old(writer.functions), old(writer.log), context, line, stack)
    {
      ghost var table, s := writer.functions, ShadowState();
      var newFnId := ResolveFunction(context, line);
      ChangeContext(prevCtx, context, newFnId, stack);
      ChangedContext(Known(), s, prevCtx, context, line, table, writer.functions, stack, lastStackTop);
    }

    method EnterContext(context: string, line: nat, stack: seq<Felt>)
      requires functionIds == Ids(writer.functions) && Consistent(ShadowState())
      requires prevContextName != Some(context)
      modifies this`contextStack, this`functionIds, this`synthesisedMainCall, this`synthesisedChainLeaf, writer`functions, writer`log
      ensures functionIds == Ids(writer.functions)
      ensures Entered(old(ShadowState()), old(writer.functions), old(writer.log), context, line, stack)
    {
      if prevContextName.None? {
        EnterFirst(context, line, stack);
      } else {
        EnterChanged(prevContextName.value, context, line, stack);
      }
    }

    /** Everything a context change updates. */
    method SwitchContext(context: string, line: nat, stack: seq<Felt>)
      requires Valid() && prevContextName != Some(context)
      modifies this`contextStack, this`functionIds, this`synthesisedMainCall, this`synthesisedChainLeaf,
               this`activeLocals, this`callerLocals, this`currentNumLocals, this`prevContextName,
               writer`functions, writer`log
      ensures Valid() && prevContextName == Some(context)
      ensures Slots() == Resized(old(Slots()), |contextStack|)
      ensures Entered(old(ShadowState()), old(writer.functions), old(writer.log), context, line, stack)
    {
      hide Observe, NextFunctions, ContextEvents, Ids, Resized, NumLocals;
      var depthBefore := |contextStack|;
      EnterContext(context, line, stack);
      ObserveKeepsConsistent(Known(), old(ShadowState()), context);
      SettleInto(context, depthBefore);
    }

    /** Call and return detection for one processed operation. */
    method ObserveContext(context: string, line: nat, stack: seq<Felt>)
      requires Valid()
      modifies this`contextStack, this`functionIds, this`synthesisedMainCall, this`synthesisedChainLeaf,
               this`activeLocals, this`callerLocals, this`currentNumLocals, this`prevContextName,
               writer`functions, writer`log
      ensures Valid() && prevContextName == Some(context)
      ensures Slots() == ContextSlots(Known(), old(ShadowState()), old(Slots()), context)
      ensures Entered(old(ShadowState()), old(writer.functions), old(writer.log), context, line, stack)
    {
      if prevContextName == Some(context) {
        SameContext(Known(), ShadowState(), context, line, writer.functions, stack, lastStackTop);
      } else {
        SwitchContext(context, line, stack);
      }
    }

    /** Look up the entered context's locals and make it the current one. */
    method SettleInto(context: string, depthBefore: nat)
      requires |callerLocals| <= depthBefore
      modifies this`activeLocals, this`callerLocals, this`currentNumLocals, this`prevContextName
      ensures Slots() == Resized(SlotsOf(depthBefore, old(callerLocals), old(activeLocals)), |contextStack|)
      ensures |callerLocals| <= |contextStack|
      ensures prevContextName == Some(context) && currentNumLocals == NumLocals(ProgramEnv(), prevContextName)
    {
      currentNumLocals :=
        if context in procLocals then procLocals[context]
        else if BareName(context) in procLocals then procLocals[BareName(context)]
        else 0;
      SwitchLocals(depthBefore);
      prevContextName := Some(context);
    }

    // ----- Steps and stack values -----

    method TakeStep(line: nat, op: string)
      requires writer.Admits(sourcePath, line)
      modifies this`prevLine, this`stepFirstOp, this`stepMovedPastFirst, writer`log
      ensures var before := old(StepState(prevLine, stepFirstOp, stepMovedPastFirst));
              && StepState(prevLine, stepFirstOp, stepMovedPastFirst) == NextStep(before, Located(line, op))
              && writer.log == old(writer.log) + StepEvents(before, Located(line, op))
    {
      var lineChanged := prevLine != Some(line);
      var iterationWrap := !lineChanged && stepMovedPastFirst && stepFirstOp == Some(op);
      if lineChanged || iterationWrap {
        writer.RegisterStep(sourcePath, line);
        prevLine, stepFirstOp, stepMovedPastFirst := Some(line), Some(op), false;
      } else if stepFirstOp != Some(op) {
        stepMovedPastFirst := true;
      }
    }

    method EmitStackTop(stack: seq<Felt>)
      modifies this`lastStackTop, writer`log
      ensures lastStackTop == if stack == [] then None else Some(AsI64(stack[0]))
      ensures writer.log == old(writer.log) + TopEvents(stack, Visible(stack))
    {
      for i := 0 to Visible(stack)
        invariant writer.log == old(writer.log) + TopEvents(stack, i)
      {
        writer.RegisterVariable(StackSlot(i, AsI64(stack[i])));
      }
      lastStackTop := if |stack| > 0 then Some(AsI64(stack[0])) else None;
    }

    // ----- The loop -----

    /** The slots of the current frame, and again after a one-cycle store. */
    method ReportLocals(a: AsmOp, vm: VmState)
      requires currentNumLocals == NumLocals(ProgramEnv(), prevContextName)
      modifies this`activeLocals, writer`log
      ensures Slots() == if a.cycles == 1 then StoredSlots(old(Slots()), a.op) else old(Slots())
      ensures writer.log == old(writer.log)
                            + (LocalEvents(ProgramEnv(), prevContextName, old(activeLocals), vm)
                               + (if a.cycles == 1 then StoreEvents(ProgramEnv(), prevContextName, old(Slots()), a.op, vm) else []))
    {
      ghost var before := writer.log;
      EmitActiveLocals(vm);
      ghost var reported := LocalEvents(ProgramEnv(), prevContextName, activeLocals, vm);
      if a.cycles == 1 {
        ghost var stored := StoreEvents(ProgramEnv(), prevContextName, Slots(), a.op, vm);
        StoreLocal(a.op, vm);
        assert writer.log == (before + reported) + stored == before + (reported + stored);
      } else {
        assert reported + [] == reported;
      }
    }

    /** Everything a processed operation reports after its context and step. */
    method ReportState(a: AsmOp, vm: VmState)
      requires currentNumLocals == NumLocals(ProgramEnv(), prevContextName)
      modifies this`pendingWord, this`pendingAdviceRead, this`lastStackTop, this`activeLocals, writer`log
      ensures pendingWord == None && pendingAdviceRead == None
      ensures lastStackTop == if vm.stack == [] then None else Some(AsI64(vm.stack[0]))
      ensures Slots() == if a.cycles == 1 then StoredSlots(old(Slots()), a.op) else old(Slots())
      ensures writer.log == old(writer.log) + TopEvents(vm.stack, Visible(vm.stack))
                            + WordEvents(WordToEmit(old(pendingWord), a, vm.stack))
                            + ReadEvents(old(pendingAdviceRead))
                            + (LocalEvents(ProgramEnv(), prevContextName, Last(old(Slots())), vm)
                               + (if a.cycles == 1 then StoreEvents(ProgramEnv(), prevContextName, old(Slots()), a.op, vm) else []))
    {
      EmitStackTop(vm.stack);
      EmitWord(a, vm.stack);
      EmitRead();
      ReportLocals(a, vm);
    }

    /** The line of a byte offset, which the writer's path table admits. */
    method ResolveLine(startByte: nat) returns (line: nat)
      requires Tables() && PathStated()
      ensures line == LineAt(sourceMap.source, startByte)
      ensures writer.Admits(sourcePath, line)
    {
      line := ByteToLine(sourceMap, startByte);
      EveryLineIsCounted(sourceMap.source, startByte);
    }

    /** Step, then report, for a processed operation whose context is settled. */
    method StepAndReport(a: AsmOp, line: nat, vm: VmState)
      requires currentNumLocals == NumLocals(ProgramEnv(), prevContextName)
      requires writer.Admits(sourcePath, line)
      modifies this`prevLine, this`stepFirstOp, this`stepMovedPastFirst,
               this`pendingWord, this`pendingAdviceRead, this`lastStackTop, this`activeLocals, writer`log
      ensures pendingWord == None && pendingAdviceRead == None
      ensures lastStackTop == if vm.stack == [] then None else Some(AsI64(vm.stack[0]))
      ensures Slots() == if a.cycles == 1 then StoredSlots(old(Slots()), a.op) else old(Slots())
      ensures StepState(prevLine, stepFirstOp, stepMovedPastFirst) ==
              NextStep(old(StepState(prevLine, stepFirstOp, stepMovedPastFirst)), Located(line, a.op))
      ensures writer.log == old(writer.log)
                            + StepEvents(old(StepState(prevLine, stepFirstOp, stepMovedPastFirst)), Located(line, a.op))
                            + TopEvents(vm.stack, Visible(vm.stack))
                            + WordEvents(WordToEmit(old(pendingWord), a, vm.stack))
                            + ReadEvents(old(pendingAdviceRead))
                            + (LocalEvents(ProgramEnv(), prevContextName, Last(old(Slots())), vm)
                               + (if a.cycles == 1 then StoreEvents(ProgramEnv(), prevContextName, old(Slots()), a.op, vm) else []))
    {
      TakeStep(line, a.op);
      ReportState(a, vm);
    }

    /** A located first cycle, after the harvest. */
    method ProcessState(vm: VmState, ghost before: State)
      requires Valid() && Tables() && Processed(vm)
      requires Abs() == before.(word := HeldWord(before, vm.asmop.value, vm.stack), read := HeldRead(before, vm.asmop.value, vm.stack))
      modifies this, writer`functions, writer`log
      ensures Valid() && Abs() == Process(ProgramEnv(), before, vm)
    {
      hide Process, Observe, NextStep, StoredSlots, ContextSlots, ContextEvents, NextFunctions, LineAt, SourceLineCount,
           HeldWord, HeldRead, StepEvents, TopEvents, WordEvents, WordToEmit, ReadEvents, LocalEvents, StoreEvents,
           Consistent, Ids, NumLocals;
      var a := vm.asmop.value;
      var line := ResolveLine(a.location.value);
      ObserveContext(a.context, line, vm.stack);
      StepAndReport(a, line, vm);
      ProcessedState(ProgramEnv(), before, vm, line, Abs());
    }

    /** A state that is not processed: the harvest, and a store completing in its last cycle. */
    method SkipState(a: AsmOp, vm: VmState)
      requires Valid() && vm.asmop == Some(a)
      modifies this`pendingWord, this`pendingAdviceRead, this`activeLocals, writer`log
      ensures Valid()
      ensures Abs() == Skip(ProgramEnv(), old(Abs()), vm)
    {
      hide HarvestedWord, HarvestedRead, StoreEvents, StoredSlots, Consistent, Ids, NumLocals;
      HarvestPending(a, vm.stack);
      if a.cycle == a.cycles && a.cycle != 1 {
        StoreLocal(a.op, vm);
      } else {
        assert writer.log + [] == writer.log;
      }
    }

    /** One VM state: the recorder's variables and log follow the model. */
    method ProcessCycle(vm: VmState)
      requires Valid() && Tables()
      modifies this, writer`functions, writer`log
      ensures Valid() && Abs() == Cycle(ProgramEnv(), old(Abs()), vm)
    {
      if vm.asmop.None? {
        return;
      }
      var a := vm.asmop.value;
      ghost var before := Abs();
      SkipState(a, vm);
      if a.cycle != 1 {
        return;
      }
      if a.location.None? {
        return;
      }
      SkipHarvests(ProgramEnv(), before, vm);
      ProcessState(vm, before);
    }

    /** Close one more frame than `closed` already did. */
    method CloseFrame(ghost before: seq<Event>, ghost closed: seq<Mark>)
      requires writer.log == before + FrameEvents(writer.functions, closed, [], None)
      modifies writer`log
      ensures writer.log == before + FrameEvents(writer.functions, closed + Leaves(1), [], None)
    {
      LeaveEvent(writer.functions, closed);
      assert Leaves(1) == [Leave(false)] by { assert Leaves(0) == []; }
      writer.RegisterReturn(None);
    }

    /** Close every open frame, the toplevel last. */
    method CloseAll()
      modifies this`contextStack, writer`log
      ensures writer.log == old(writer.log) + FrameEvents(writer.functions, Drain(old(ShadowState())), [], None)
    {
      ghost var s, before := ShadowState(), writer.log;
      CloseCallers();
      ghost var m0 := Leaves(|s.callers|);
      if synthesisedMainCall {
        CloseFrame(before, m0);
      }
      ghost var m1 := m0 + (if s.mainOpen then Leaves(1) else []);
      assert s.mainOpen || m1 == m0;
      if synthesisedChainLeaf {
        CloseFrame(before, m1);
      }
      ghost var m2 := m1 + (if s.leafOpen then Leaves(1) else []);
      assert s.leafOpen || m2 == m1;
      CloseFrame(before, m2);
      assert m2 + Leaves(1) == Drain(s);
    }

    /** Report a VM error, then close every open frame. */
    method Finish(vmError: Option<string>)
      modifies this`contextStack, writer`log
      ensures writer.log == TraceModel.Finish(old(Abs()), vmError).log
      ensures exists closing :: OnlyReturns(closing) &&
                writer.log == old(writer.log) + (if vmError.Some? then [VmError(vmError.value)] else []) + closing
    {
      DrainReturns(writer.functions, ShadowState());
      if vmError.Some? {
        writer.RegisterSpecialEvent(VmError(vmError.value));
      }
      assert writer.log == old(writer.log) + (if vmError.Some? then [VmError(vmError.value)] else []);
      CloseAll();
    }

    /** Walk the VM iterator up to its end or its first error. */
    method ProcessCycles(results: seq<CycleResult>, ghost table: seq<Function>) returns (vmError: Option<string>)
      requires Valid() && Tables() && Abs() == Start(table)
      modifies this, writer`functions, writer`log
      ensures Valid() && Abs() == Run(ProgramEnv(), table, Consumed(results))
      ensures vmError == FirstError(results)
    {
      ghost var seen: seq<VmState> := [];
      for i := 0 to |results|
        invariant Valid() && Abs() == Run(ProgramEnv(), table, seen)
        invariant Consumed(results) == seen + Consumed(results[i..])
        invariant FirstError(results) == FirstError(results[i..])
      {
        ConsumeStep(results, i, seen);
        if results[i].Err? {
          return Some(results[i].message);
        }
        RunSnoc(ProgramEnv(), table, seen, results[i].state);
        ProcessCycle(results[i].state);
        seen := seen + [results[i].state];
      }
      assert seen + [] == seen;
      return None;
    }

    /**
     The whole run: the log is the model's trace for the consumed VM states,
     from the function table the pre-registration produced.
     */
    method ProcessVmStates(results: seq<CycleResult>) returns (ghost table: seq<Function>)
      requires Valid() && Tables() && Abs() == Start([])
      modifies this, writer`functions, writer`log
      ensures IsPreRegistration(ProgramEnv(), table)
      ensures writer.functions == Trace(ProgramEnv(), table, results).functions
      ensures writer.log == Trace(ProgramEnv(), table, results).log
      ensures OpenFrames(Frames(writer.functions, writer.log)) == Some([])
    {
      hide Run, Frames, OpenFrames, IsPreRegistration, Consumed, FirstError, Consistent, Ids, NumLocals;
      PreRegister();
      table := writer.functions;
      var vmError := ProcessCycles(results, table);
      TraceBalanced(ProgramEnv(), table, results);
      Finish(vmError);
    }
  }

  lemma CellOfSlot(vm: VmState, n: nat, slot: nat)
    ensures n < 0x1_0000 && slot < 0x1_0000_0000 ==> forall v :: CellHolds(vm, n, slot, v) <==> SlotValue(n, vm, slot) == Some(v)
  {
    hide CellHolds, SlotValue;
    if n < 0x1_0000 && slot < 0x1_0000_0000 {
      forall v ensures CellHolds(vm, n, slot, v) <==> SlotValue(n, vm, slot) == Some(v) {
        SlotReadsItsCell(vm, n, slot, v);
      }
    }
  }

  /** What is harvested, in terms of the operation's name and the stack. */
  lemma HarvestsMean(a: AsmOp, stack: seq<Felt>)
    ensures forall w :: LoadsWord(a, stack, w) <==> HarvestedWord(a, stack) == Some(w)
    ensures forall r :: LiftsAdvice(a, stack, r) <==> HarvestedRead(a, stack) == Some(r)
  {
    hide LoadsWord, LiftsAdvice, HarvestedWord, HarvestedRead;
    forall w ensures LoadsWord(a, stack, w) <==> HarvestedWord(a, stack) == Some(w) {
      WordIsHarvested(a, stack, w);
    }
    forall r ensures LiftsAdvice(a, stack, r) <==> HarvestedRead(a, stack) == Some(r) {
      ReadIsHarvested(a, stack, r);
    }
  }

  lemma RunSnoc(env: Env, table: seq<Function>, seen: seq<VmState>, state: VmState)
    ensures Run(env, table, seen + [state]) == Cycle(env, Run(env, table, seen), state)
  {
    assert Front(seen + [state]) == seen;
  }

  lemma ConsumeStep(results: seq<CycleResult>, i: nat, seen: seq<VmState>)
    requires i < |results|
    ensures results[i].Err? ==> seen + Consumed(results[i..]) == seen && FirstError(results[i..]) == Some(results[i].message)
    ensures results[i].Ok? ==>
              && seen + Consumed(results[i..]) == (seen + [results[i].state]) + Consumed(results[i + 1..])
              && FirstError(results[i..]) == FirstError(results[i + 1..])
  {
    assert results[i..][1..] == results[i + 1..];
    assert seen + [] == seen;
    if results[i].Ok? {
      var rest := Consumed(results[i + 1..]);
      assert seen + ([results[i].state] + rest) == (seen + [results[i].state]) + rest;
    }
  }

  // ----- Facts the methods use -----

  /** A declared procedure's runtime name determines the procedure. */
  ghost predicate RegisteredAtOne(done: set<string>, table: seq<Function>) {
    && (forall f :: f in table ==> f.line == 1)
    && (forall name :: name in Ids(table) <==> exists p :: p in done && name == RuntimeName(p))
    && DistinctNames(table)
  }

  lemma PreRegistered(env: Env, done: set<string>, table: seq<Function>)
    requires RegisteredAtOne(done, table) && done == env.procLocals.Keys
    ensures IsPreRegistration(env, table)
  {
    forall name ensures name in Ids(table) <==> exists p :: p in env.procLocals && name == "#exec::" + p {
      if name in Ids(table) {
        var p :| p in done && name == RuntimeName(p);
        assert p in env.procLocals;
      }
      if p :| p in env.procLocals && name == "#exec::" + p {
        assert p in done && name == RuntimeName(p);
      }
    }
  }

  lemma RegisterOne(done: set<string>, procName: string, table: seq<Function>)
    requires RegisteredAtOne(done, table) && procName !in done
    ensures forall f :: f in table ==> f.name != RuntimeName(procName)
    ensures RegisteredAtOne(done + {procName}, WithFunction(table, RuntimeName(procName), 1))
  {
    var name := RuntimeName(procName);
    var table' := WithFunction(table, name, 1);
    forall p | p in done ensures RuntimeName(p) != name {
      assert RuntimeName(p)[7..] == p && name[7..] == procName;
    }
    assert name !in Ids(table);
    IdsFacts(table, name);
    WithFunctionFacts(table, name, 1);
    assert Front(table') == table;
    forall other ensures other in Ids(table') <==> exists p :: p in done + {procName} && other == RuntimeName(p) {
      if other == name {
        assert procName in done + {procName};
      } else if other in Ids(table) {
        var p :| p in done && other == RuntimeName(p);
        assert p in done + {procName};
      }
    }
  }

  lemma KnownFunction(table: seq<Function>, name: string, line: nat)
    requires name in Ids(table)
    ensures WithFunction(table, name, line) == table
    ensures IdOf(table, name) == Ids(table)[name] < |table|
  {
    IdsFacts(table, name);
  }

  lemma FreshFunction(table: seq<Function>, name: string, line: nat)
    requires name !in Ids(table)
    ensures Function(name, line) !in table
    ensures WithFunction(table, name, line) == table + [Function(name, line)]
    ensures Ids(table + [Function(name, line)]) == Ids(table)[name := |table|]
    ensures IdOf(table + [Function(name, line)], name) == |table|
  {
    IdsFacts(table, name);
    IdsSnoc(table, Function(name, line));
  }

  lemma LeaveEvent(table: seq<Function>, marks: seq<Mark>)
    ensures FrameEvents(table, marks + [Leave(false)], [], None) == FrameEvents(table, marks, [], None) + [ReturnFn(None)]
  {
    assert Front(marks + [Leave(false)]) == marks;
  }

  lemma {:induction false} LeavesIgnoreStack(table: seq<Function>, n: nat, stack: seq<Felt>, lastTop: Option<int>)
    ensures FrameEvents(table, Leaves(n), stack, lastTop) == FrameEvents(table, Leaves(n), [], None)
  {
    if n > 0 {
      LeavesIgnoreStack(table, n - 1, stack, lastTop);
      assert Front(Leaves(n)) == Leaves(n - 1);
    }
  }

  lemma OneEnter(table: seq<Function>, marks: seq<Mark>, name: string)
    ensures FrameEvents(table, marks + [Enter(name, false)], [], None) ==
            FrameEvents(table, marks, [], None) + [CallFn(IdOf(table, name))]
  {
    assert Front(marks + [Enter(name, false)]) == marks;
  }

  lemma IdOfExtends(table: seq<Function>, table': seq<Function>, name: string)
    requires table <= table' && name in Ids(table)
    ensures IdOf(table', name) == IdOf(table, name) && name in Ids(table')
  {
    assert table' == table + table'[|table|..];
    IdsExtend(table, table'[|table|..], name);
  }

  /** Ids already rendered do not change when the table grows. */
  lemma {:induction false} FrameEventsSurvive(table: seq<Function>, table': seq<Function>, marks: seq<Mark>)
    requires table <= table' && NamesFound(table, marks)
    ensures FrameEvents(table', marks, [], None) == FrameEvents(table, marks, [], None)
    ensures NamesFound(table', marks)
  {
    if marks != [] {
      assert Last(marks) in marks;
      FrameEventsSurvive(table, table', Front(marks));
      if Last(marks).Enter? {
        IdOfExtends(table, table', Last(marks).name);
      }
      assert marks == Front(marks) + [Last(marks)];
    }
  }

  lemma CallEvents(table: seq<Function>, name: string, stack: seq<Felt>, lastTop: Option<int>)
    ensures FrameEvents(table, [Enter(name, true)], stack, lastTop) ==
            ArgEvents(stack, Visible(stack)) + [CallFn(IdOf(table, name))]
  {
    assert Front([Enter(name, true)]) == [];
  }

  lemma SiblingEvents(table: seq<Function>, name: string, stack: seq<Felt>, lastTop: Option<int>)
    ensures FrameEvents(table, [Leave(false), Enter(name, true)], stack, lastTop) ==
            [ReturnFn(None)] + ArgEvents(stack, Visible(stack)) + [CallFn(IdOf(table, name))]
  {
    var marks := [Leave(false), Enter(name, true)];
    assert Front(marks) == [Leave(false)] && Front([Leave(false)]) == [];
    assert FrameEvents(table, [Leave(false)], stack, lastTop) == [ReturnFn(None)];
  }

  /** Synthesised frames carry neither arguments nor results. */
  lemma {:induction false} FirstMarksIgnoreStack(callers: seq<string>, name: string, table: seq<Function>, stack: seq<Felt>, lastTop: Option<int>)
    ensures FrameEvents(table, FirstObservation(callers, name).1, stack, lastTop) ==
            FrameEvents(table, FirstObservation(callers, name).1, [], None)
  {
    var (s, marks) := FirstObservation(callers, name);
    forall m | m in marks ensures m.Enter? && !m.staged {
      if m in Enters(s.callers) {
        EntersUnstaged(s.callers, m);
      }
    }
    UnstagedIgnoreStack(table, marks, stack, lastTop);
  }

  lemma {:induction false} EntersUnstaged(names: seq<string>, m: Mark)
    requires m in Enters(names)
    ensures m.Enter? && !m.staged
  {
    if m in Enters(Front(names)) {
      EntersUnstaged(Front(names), m);
    }
  }

  lemma {:induction false} UnstagedIgnoreStack(table: seq<Function>, marks: seq<Mark>, stack: seq<Felt>, lastTop: Option<int>)
    requires forall m :: m in marks ==> m.Enter? && !m.staged
    ensures FrameEvents(table, marks, stack, lastTop) == FrameEvents(table, marks, [], None)
  {
    if marks != [] {
      assert Last(marks) in marks;
      forall m | m in Front(marks) ensures m in marks { }
      UnstagedIgnoreStack(table, Front(marks), stack, lastTop);
    }
  }

  lemma ObserveKeepsConsistent(g: Program, s: Shadow, name: string)
    requires Consistent(s)
    ensures Consistent(Observe(g, s, name).0)
  {
  }

  /** The function table and the log once the frames `names` have been opened. */
  ghost predicate Inlined(table: seq<Function>, line: nat, names: seq<string>,
                          functions: seq<Function>, before: seq<Event>, log: seq<Event>) {
    && functions == WithFunctions(table, names, line)
    && log == before + FrameEvents(functions, Enters(names), [], None)
  }

  /** Opening one more inlined caller. */
  lemma InlinedStep(table: seq<Function>, line: nat, names: seq<string>, name: string,
                                       f: seq<Function>, f': seq<Function>, before: seq<Event>, log: seq<Event>, log': seq<Event>)
    requires Inlined(table, line, names, f, before, log)
    requires f' == WithFunction(f, name, line) && log' == log + [CallFn(IdOf(f', name))]
    ensures Inlined(table, line, names + [name], f', before, log')
  {
    assert Front(names + [name]) == names;
    WithFunctionsFacts(table, names, line);
    WithFunctionFacts(f, name, line);
    forall m | m in Enters(names) && m.Enter? ensures m.name in Ids(f) {
      EntersNames(names, m);
    }
    FrameEventsSurvive(f, f', Enters(names));
    EntersSnoc(names, name);
    OneEnter(f', Enters(names), name);
  }

  lemma EntersSnoc(names: seq<string>, name: string)
    ensures Enters(names + [name]) == Enters(names) + [Enter(name, false)]
  {
    assert Front(names + [name]) == names;
  }

  /** The state after a processed operation, field by field. */
  lemma ProcessedState(env: Env, before: State, vm: VmState, line: nat, st: State)
    requires Processed(vm) && line == LineAt(env.source, vm.asmop.value.location.value)
    requires st.shadow == Observe(env.graph, before.shadow, vm.asmop.value.context).0
    requires var slots := ContextSlots(env.graph, before.shadow, before.slots, vm.asmop.value.context);
             st.slots == (if vm.asmop.value.cycles == 1 then StoredSlots(slots, vm.asmop.value.op) else slots)
    requires st.steps == NextStep(before.steps, Located(line, vm.asmop.value.op))
    requires st.word == None && st.read == None
    requires st.lastTop == (if vm.stack == [] then None else Some(AsI64(vm.stack[0])))
    requires st.functions == NextFunctions(env.graph, before.shadow, before.functions, vm.asmop.value.context, line)
    requires var a := vm.asmop.value;
             var slots := ContextSlots(env.graph, before.shadow, before.slots, a.context);
             st.log == before.log
                       + ContextEvents(env.graph, before.shadow, a.context, st.functions, vm.stack, before.lastTop)
                       + StepEvents(before.steps, Located(line, a.op))
                       + TopEvents(vm.stack, Visible(vm.stack))
                       + WordEvents(WordToEmit(HeldWord(before, a, vm.stack), a, vm.stack))
                       + ReadEvents(HeldRead(before, a, vm.stack))
                       + (LocalEvents(env, Some(a.context), Last(slots), vm)
                          + (if a.cycles == 1 then StoreEvents(env, Some(a.context), slots, a.op, vm) else []))
    ensures st == Process(env, before, vm)
  {
    AssocSegments(before.log, SegmentsOf(env, before, vm));
  }

  lemma AssocSegments(log: seq<Event>, s: Segments)
    ensures log + s.frames + s.step + s.top + s.word + s.read + s.locals == log + s.Joined()
  {
  }

  /** What observing the very first context does to the tables. */
  lemma FirstContext(g: Program, callers: seq<string>, context: string, line: nat,
                                        table: seq<Function>, functions: seq<Function>, stack: seq<Felt>, lastTop: Option<int>)
    requires callers == InlinedCallers(MainChain(g.parents, BareName(context)))
    ensures Observe(g, UNOBSERVED, context) == FirstObservation(callers, context)
    ensures NextFunctions(g, UNOBSERVED, table, context, line) ==
            WithFunctions(WithFunction(table, context, line), FirstObservation(callers, context).0.callers, line)
    ensures ContextEvents(g, UNOBSERVED, context, functions, stack, lastTop) ==
            FrameEvents(functions, FirstObservation(callers, context).1, [], None)
  {
    FirstMarksIgnoreStack(callers, context, functions, stack, lastTop);
  }

  /** What changing the context does to the tables. */
  lemma ChangedContext(g: Program, s: Shadow, prev: string, context: string, line: nat,
                                          table: seq<Function>, functions: seq<Function>, stack: seq<Felt>, lastTop: Option<int>)
    requires s.current == Some(prev) && prev != context
    ensures Observe(g, s, context) == CallInference.ContextChange(g, s, prev, context)
    ensures NextFunctions(g, s, table, context, line) == WithFunction(table, context, line)
    ensures ContextEvents(g, s, context, functions, stack, lastTop) ==
            FrameEvents(functions, CallInference.ContextChange(g, s, prev, context).1, stack, lastTop)
  {
  }

  lemma SameContext(g: Program, s: Shadow, context: string, line: nat,
                                       functions: seq<Function>, stack: seq<Felt>, lastTop: Option<int>)
    requires s.current == Some(context)
    ensures Observe(g, s, context).0 == s
    ensures NextFunctions(g, s, functions, context, line) == functions
    ensures ContextEvents(g, s, context, functions, stack, lastTop) == []
  {
  }

  /** At a first cycle, the work before processing is the harvest alone. */
  lemma SkipHarvests(env: Env, st: State, vm: VmState)
    requires vm.asmop.Some? && vm.asmop.value.cycle == 1
    ensures Skip(env, st, vm) == st.(word := HeldWord(st, vm.asmop.value, vm.stack), read := HeldRead(st, vm.asmop.value, vm.stack))
  {
    assert st.log + [] == st.log;
  }
}
