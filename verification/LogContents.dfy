/**
 What each VM state writes to the log, said of the state and the log alone: op
 names as text, felts as signed numbers. Default induction over streams is off
 where it only costs.
 */
module LogContents {
  import opened Common
  import opened Ancestry
  import opened Text
  import opened CallInference
  import opened WrittenSlots
  import opened StepAutomaton
  import opened SourceMaps
  import opened TraceModel
  import opened TraceTheorems
  import Latch

  // ----- Values -----

  /** `v` is the 64-bit two's complement reading of a felt. */
  predicate IsSigned(v: int, felt: nat) {
    -0x8000_0000_0000_0000 <= v < 0x8000_0000_0000_0000 && (v - felt) % 0x1_0000_0000_0000_0000 == 0
  }

  /** The signed values of the top `n` stack elements. */
  predicate AreTop(values: seq<int>, stack: seq<Felt>, n: nat) {
    |values| == n <= |stack| && forall i :: 0 <= i < n ==> IsSigned(values[i], stack[i])
  }

  lemma SignedValue(f: Felt, v: int)
    ensures IsSigned(v, f) <==> v == AsI64(f)
  {
  }

  lemma TopValues(values: seq<int>, stack: seq<Felt>, n: nat)
    requires n <= |stack|
    ensures AreTop(values, stack, n) <==> values == Top(stack, n)
  {
    forall i | 0 <= i < n && |values| == n ensures IsSigned(values[i], stack[i]) <==> values[i] == AsI64(stack[i]) {
      SignedValue(stack[i], values[i]);
    }
  }

  // ----- Words and advice reads -----

  /** The first cycle of an operation with a location. */
  predicate FirstLocated(vm: VmState) {
    vm.asmop.Some? && vm.asmop.value.cycle == 1 && vm.asmop.value.location.Some?
  }

  ghost predicate LoadsWords(op: string) {
    || op == "mem_loadw" || op == "loc_loadw"
    || (exists address :: op == "mem_loadw." + address)
    || (exists slot :: op == "loc_loadw." + slot)
  }

  /** A word load's last cycle leaves `word` on top of the stack. */
  ghost predicate LoadsWord(a: AsmOp, stack: seq<Felt>, word: seq<int>) {
    a.cycle == a.cycles && LoadsWords(a.op) && AreTop(word, stack, 4)
  }

  /** `op` is `prefix` followed by the number `n`, in 32 bits. */
  ghost predicate NumbersOp(op: string, prefix: string, n: nat) {
    n < 0x1_0000_0000 && exists text :: op == prefix + text && Spells(text, n)
  }

  /** An advice-tape operation's last cycle leaves what it read on top of the stack. */
  ghost predicate LiftsAdvice(a: AsmOp, stack: seq<Felt>, read: AdviceRead) {
    a.cycle == a.cycles &&
    match read
    case AdvPush(n, values) => NumbersOp(a.op, "adv_push.", n) && AreTop(values, stack, n)
    case AdvLoadw(values) => a.op == "adv_loadw" && AreTop(values, stack, 4)
  }

  lemma WordLoadNames(op: string)
    ensures LoadsWords(op) <==> IsWordLoad(op)
  {
    if HasPrefix(op, "mem_loadw.") {
      assert op == "mem_loadw." + op[10..];
    }
    if HasPrefix(op, "loc_loadw.") {
      assert op == "loc_loadw." + op[10..];
    }
  }

  lemma OperandIsNumber(op: string, prefix: string, n: nat)
    ensures NumbersOp(op, prefix, n) <==> Operand(op, prefix) == Some(n)
  {
    hide Spells, ParseUnsigned;
    if HasPrefix(op, prefix) {
      var rest := op[|prefix|..];
      assert op == prefix + rest;
      ParsedExactlyWhenSpelled(rest, n, U32_RANGE);
      forall text | op == prefix + text ensures text == rest {
        assert text == (prefix + text)[|prefix|..];
      }
    } else {
      forall text ensures op != prefix + text { assert op == prefix + text ==> prefix <= op; }
    }
  }

  lemma WordIsHarvested(a: AsmOp, stack: seq<Felt>, word: seq<int>)
    ensures HarvestedWord(a, stack) == Some(word) <==> LoadsWord(a, stack, word)
  {
    hide LoadsWords, IsWordLoad, AreTop;
    WordLoadNames(a.op);
    if |stack| >= 4 {
      TopValues(word, stack, 4);
    } else {
      TooShort(word, stack, 4);
    }
  }

  lemma TooShort(values: seq<int>, stack: seq<Felt>, n: nat)
    requires |stack| < n
    ensures !AreTop(values, stack, n)
  {
  }

  lemma ReadIsHarvested(a: AsmOp, stack: seq<Felt>, read: AdviceRead)
    ensures HarvestedRead(a, stack) == Some(read) <==> LiftsAdvice(a, stack, read)
  {
    hide NumbersOp, Operand, AreTop;
    match read
    case AdvPush(n, values) =>
      OperandIsNumber(a.op, "adv_push.", n);
      if |stack| >= n {
        TopValues(values, stack, n);
      } else {
        TooShort(values, stack, n);
      }
    case AdvLoadw(values) =>
      LoadwIsNoPush(a.op);
      if |stack| >= 4 {
        TopValues(values, stack, 4);
      } else {
        TooShort(values, stack, 4);
      }
  }

  lemma LoadwIsNoPush(op: string)
    ensures op == "adv_loadw" ==> AdvPushCount(op) == None
  {
    assert "adv_loadw"[4] == 'l' && "adv_push."[4] == 'p';
  }

  /** What a latch sees of one state: a load or read completes, and a located first cycle drains. */
  ghost predicate IsWordTick(vm: VmState, t: Latch.Tick<seq<int>>) {
    && (t.drain <==> FirstLocated(vm))
    && forall w :: t.harvest == Some(w) <==> vm.asmop.Some? && LoadsWord(vm.asmop.value, vm.stack, w)
  }

  ghost predicate IsReadTick(vm: VmState, t: Latch.Tick<AdviceRead>) {
    && (t.drain <==> FirstLocated(vm))
    && forall r :: t.harvest == Some(r) <==> vm.asmop.Some? && LiftsAdvice(vm.asmop.value, vm.stack, r)
  }

  lemma {:induction false} TickIndex<T>(harvest: Harvest<T>, stream: seq<VmState>, i: nat)
    requires i < |stream|
    ensures Ticks(harvest, stream)[i] == TickOf(harvest, stream[i])
  {
    if i < |stream| - 1 {
      TickIndex(harvest, Front(stream), i);
    }
  }

  lemma WordTickUnique(vm: VmState, t: Latch.Tick<seq<int>>)
    requires IsWordTick(vm, t)
    ensures t == TickOf(HarvestedWord, vm)
  {
    hide HarvestedWord, LoadsWord;
    var w := if t.harvest.Some? then t.harvest.value else [];
    assert t.harvest == Some(w) ==> vm.asmop.Some?;
    if vm.asmop.Some? {
      var a, found := vm.asmop.value, HarvestedWord(vm.asmop.value, vm.stack);
      if t.harvest.Some? {
        WordIsHarvested(a, vm.stack, t.harvest.value);
      }
      if found.Some? {
        WordIsHarvested(a, vm.stack, found.value);
        assert t.harvest == Some(found.value);
      }
    }
  }

  lemma ReadTickUnique(vm: VmState, t: Latch.Tick<AdviceRead>)
    requires IsReadTick(vm, t)
    ensures t == TickOf(HarvestedRead, vm)
  {
    hide HarvestedRead, LiftsAdvice;
    var r := if t.harvest.Some? then t.harvest.value else AdvLoadw([]);
    assert t.harvest == Some(r) ==> vm.asmop.Some?;
    if vm.asmop.Some? {
      var a, found := vm.asmop.value, HarvestedRead(vm.asmop.value, vm.stack);
      if t.harvest.Some? {
        ReadIsHarvested(a, vm.stack, t.harvest.value);
      }
      if found.Some? {
        ReadIsHarvested(a, vm.stack, found.value);
        assert t.harvest == Some(found.value);
      }
    }
  }

  /**
   The words on the log of any run: `mem_loadw` and `loc_loadw`, with or without
   operand, give four signed values at their last cycle, and those reach the log
   that meet a located first cycle before the next such load completes.
   */
  lemma {:induction false} WordsOnLog(env: Env, table: seq<Function>, stream: seq<VmState>, ticks: seq<Latch.Tick<seq<int>>>)
    requires |ticks| == |stream| && forall i :: 0 <= i < |stream| ==> IsWordTick(stream[i], ticks[i])
    ensures Project(WordOf, Run(env, table, stream).log) == Latch.Delivered(ticks)
  {
    hide IsWordTick, HarvestedWord;
    forall i | 0 <= i < |stream| ensures ticks[i] == Ticks(HarvestedWord, stream)[i] {
      WordTickUnique(stream[i], ticks[i]);
      TickIndex(HarvestedWord, stream, i);
    }
    assert ticks == Ticks(HarvestedWord, stream);
    WordsDelivered(env, table, stream);
  }

  /** The same for `adv_push.N`, which gives N values, and `adv_loadw`, which gives four. */
  lemma {:induction false} ReadsOnLog(env: Env, table: seq<Function>, stream: seq<VmState>, ticks: seq<Latch.Tick<AdviceRead>>)
    requires |ticks| == |stream| && forall i :: 0 <= i < |stream| ==> IsReadTick(stream[i], ticks[i])
    ensures Project(ReadOf, Run(env, table, stream).log) == Latch.Delivered(ticks)
  {
    hide IsReadTick, HarvestedRead;
    forall i | 0 <= i < |stream| ensures ticks[i] == Ticks(HarvestedRead, stream)[i] {
      ReadTickUnique(stream[i], ticks[i]);
      TickIndex(HarvestedRead, stream, i);
    }
    assert ticks == Ticks(HarvestedRead, stream);
    ReadsDelivered(env, table, stream);
  }

  // ----- The order within one state -----

  function Rank(e: Event): nat {
    match e
    case ReturnFn(_) => 0
    case Arg(_, _) => 1
    case CallFn(_) => 2
    case Step(_) => 3
    case Var(StackSlot(_, _)) => 4
    case Var(Word(_)) => 5
    case Read(_) => 6
    case Var(Local(_, _)) => 7
    case VmError(_) => 8
  }

  /** Returns, arguments, calls, the step, stack values, the word, the read, local slots: in this order. */
  ghost predicate Ranked(events: seq<Event>) {
    forall i, j :: 0 <= i < j < |events| ==> Rank(events[i]) <= Rank(events[j])
  }

  ghost predicate Within(events: seq<Event>, low: nat, high: nat) {
    forall e :: e in events ==> low <= Rank(e) <= high
  }

  lemma RankedConcat(a: seq<Event>, b: seq<Event>, low: nat, middle: nat, high: nat)
    requires Ranked(a) && Ranked(b) && Within(a, low, middle) && Within(b, middle, high) && low <= middle <= high
    ensures Ranked(a + b) && Within(a + b, low, high)
  {
    var all := a + b;
    forall i, j | 0 <= i < j < |all| ensures Rank(all[i]) <= Rank(all[j]) {
      if i < |a| && j >= |a| {
        assert all[i] == a[i] && a[i] in a && all[j] == b[j - |a|] && b[j - |a|] in b;
      } else if i >= |a| {
        assert all[i] == b[i - |a|] && all[j] == b[j - |a|];
      }
    }
  }

  lemma OneRank(events: seq<Event>, rank: nat)
    requires Within(events, rank, rank)
    ensures Ranked(events)
  {
    forall i, j | 0 <= i < j < |events| ensures Rank(events[i]) <= Rank(events[j]) {
      assert events[i] in events && events[j] in events;
    }
  }

  lemma SegmentsAreRanked(s: Segments)
    requires s.Sorted() && Ranked(s.frames) && Within(s.frames, 0, 2)
    ensures Ranked(s.Joined())
  {
    hide Ranked;
    OneRank(s.step, 3);
    OneRank(s.top, 4);
    OneRank(s.word, 5);
    OneRank(s.read, 6);
    OneRank(s.locals, 7);
    RankedConcat(s.frames, s.step, 0, 3, 3);
    RankedConcat(s.frames + s.step, s.top, 0, 4, 4);
    RankedConcat(s.frames + s.step + s.top, s.word, 0, 5, 5);
    RankedConcat(s.frames + s.step + s.top + s.word, s.read, 0, 6, 6);
    RankedConcat(s.frames + s.step + s.top + s.word + s.read, s.locals, 0, 7, 7);
  }

  lemma {:induction false} LeaveEvents(table: seq<Function>, n: nat, stack: seq<Felt>, lastTop: Option<int>)
    ensures var events := FrameEvents(table, Leaves(n), stack, lastTop);
            |events| == n && forall e :: e in events ==> e == ReturnFn(None)
  {
    if n > 0 {
      LeaveEvents(table, n - 1, stack, lastTop);
      assert Front(Leaves(n)) == Leaves(n - 1);
    }
  }

  lemma {:induction false} EnterEvents(table: seq<Function>, names: seq<string>, stack: seq<Felt>, lastTop: Option<int>)
    ensures var events := FrameEvents(table, Enters(names), stack, lastTop);
            forall e :: e in events ==> e.CallFn?
  {
    if names != [] {
      EnterEvents(table, Front(names), stack, lastTop);
      assert Front(Enters(names)) == Enters(Front(names));
    }
  }

  /** The frame events of a change: returns or staged arguments with a call, or a first observation's calls. */
  ghost predicate IsChange(g: Program, s: Shadow, name: string, stack: seq<Felt>, lastTop: Option<int>, events: seq<Event>) {
    var args := ArgEvents(stack, Visible(stack));
    if s.current == Some(name) then events == []
    else if s.current.None? then forall e :: e in events ==> e.CallFn?
    else if s.callers != [] && Last(s.callers) == name then events == [ReturnFn(lastTop)]
    else
      || (forall e :: e in events ==> e == ReturnFn(None))
      || (exists fn :: events == args + [CallFn(fn)] || events == [ReturnFn(None)] + args + [CallFn(fn)])
  }

  lemma ChangeEvents(g: Program, s: Shadow, name: string, table: seq<Function>, stack: seq<Felt>, lastTop: Option<int>)
    ensures IsChange(g, s, name, stack, lastTop, ContextEvents(g, s, name, table, stack, lastTop))
  {
    hide ArgEvents, MainChain, BareName, Invokes, CallerInvokesBoth;
    if s.current.None? {
      var callers := InlinedCallers(MainChain(g.parents, BareName(name)));
      FirstEntersRecorded(callers, name);
      EnterEvents(table, RecordedStack(FirstObservation(callers, name).0), stack, lastTop);
    } else if s.current.value != name {
      ChangedEvents(g, s, s.current.value, name, table, stack, lastTop);
    }
  }

  lemma ChangedEvents(g: Program, s: Shadow, prev: string, name: string, table: seq<Function>, stack: seq<Felt>, lastTop: Option<int>)
    requires s.current == Some(prev) && prev != name
    ensures IsChange(g, s, name, stack, lastTop, FrameEvents(table, ContextChange(g, s, prev, name).1, stack, lastTop))
  {
    hide FrameEvents, ArgEvents, Leaves, BareName, Invokes, IdOf;
    LeaveEvents(table, |s.callers| + 1, stack, lastTop);
    MarkLists(table, name, stack, lastTop);
    var marks := ContextChange(g, s, prev, name).1;
    var call := CallFn(IdOf(table, name));
    assert marks == [Enter(name, true)] ==> FrameEvents(table, marks, stack, lastTop) == ArgEvents(stack, Visible(stack)) + [call];
  }

  lemma MarkLists(table: seq<Function>, name: string, stack: seq<Felt>, lastTop: Option<int>)
    ensures var args, call := ArgEvents(stack, Visible(stack)), CallFn(IdOf(table, name));
            && FrameEvents(table, [Leave(true)], stack, lastTop) == [ReturnFn(lastTop)]
            && FrameEvents(table, [Enter(name, true)], stack, lastTop) == args + [call]
            && FrameEvents(table, [Leave(false), Enter(name, true)], stack, lastTop) == [ReturnFn(None)] + args + [call]
  {
    hide ArgEvents, IdOf;
    var args, call := ArgEvents(stack, Visible(stack)), CallFn(IdOf(table, name));
    assert Front([Leave(true)]) == [] && Front([Enter(name, true)]) == [];
    assert Front([Leave(false), Enter(name, true)]) == [Leave(false)] && Front([Leave(false)]) == [];
    assert FrameEvents(table, [Leave(false)], stack, lastTop) == [] + [ReturnFn(None)];
    assert [ReturnFn(None)] + (args + [call]) == [ReturnFn(None)] + args + [call];
    assert [] + (args + [call]) == args + [call];
  }

  lemma ChangeIsRanked(g: Program, s: Shadow, name: string, stack: seq<Felt>, lastTop: Option<int>, events: seq<Event>)
    requires IsChange(g, s, name, stack, lastTop, events)
    ensures Ranked(events) && Within(events, 0, 2)
  {
    hide ArgEvents;
    var args := ArgEvents(stack, Visible(stack));
    OneRank(args, 1);
    if events == [] {
    } else if forall e :: e in events ==> e.CallFn? {
      OneRank(events, 2);
    } else if forall e :: e in events ==> e.ReturnFn? {
      OneRank(events, 0);
    } else {
      var fn :| events == args + [CallFn(fn)] || events == [ReturnFn(None)] + args + [CallFn(fn)];
      OneRank([CallFn(fn)], 2);
      OneRank([ReturnFn(None)], 0);
      RankedConcat(args, [CallFn(fn)], 1, 2, 2);
      RankedConcat([ReturnFn(None)], args, 0, 1, 1);
      RankedConcat([ReturnFn(None)] + args, [CallFn(fn)], 0, 2, 2);
    }
  }

  /** What `vm` adds to the log after `stream`. */
  ghost function Added(env: Env, table: seq<Function>, stream: seq<VmState>, vm: VmState): seq<Event>
  {
    Delta(Run(env, table, stream), Run(env, table, stream + [vm]))
  }

  function Delta(before: State, now: State): seq<Event> {
    if |before.log| <= |now.log| then now.log[|before.log|..] else []
  }

  lemma RunStep(env: Env, table: seq<Function>, stream: seq<VmState>, vm: VmState)
    ensures Run(env, table, stream + [vm]) == Cycle(env, Run(env, table, stream), vm)
  {
    assert Front(stream + [vm]) == stream;
  }

  /** A processed state adds its segments, any other at most local slots. */
  lemma AddedBy(env: Env, st: State, vm: VmState)
    ensures st.log + Delta(st, Cycle(env, st, vm)) == Cycle(env, st, vm).log
    ensures Processed(vm) ==> Delta(st, Cycle(env, st, vm)) == SegmentsOf(env, st, vm).Joined()
    ensures !Processed(vm) ==> forall e :: e in Delta(st, Cycle(env, st, vm)) ==> e.Var? && e.variable.Local?
  {
    hide SegmentsOf, StoreEvents, HeldWord, HeldRead, Observe, NextFunctions, ContextSlots, StoredSlots, NextStep;
  }

  lemma OrderWithinState(env: Env, table: seq<Function>, stream: seq<VmState>, vm: VmState)
    ensures Ranked(Added(env, table, stream, vm))
  {
    hide Cycle, SegmentsOf, Ranked, IsChange;
    var st := Run(env, table, stream);
    RunStep(env, table, stream, vm);
    AddedBy(env, st, vm);
    if Processed(vm) {
      FramesAreChange(env, st, vm);
      ChangeIsRanked(env.graph, st.shadow, vm.asmop.value.context, vm.stack, st.lastTop, SegmentsOf(env, st, vm).frames);
      SegmentsAreRanked(SegmentsOf(env, st, vm));
    } else {
      OneRank(Added(env, table, stream, vm), 7);
    }
  }

  lemma FramesAreChange(env: Env, st: State, vm: VmState)
    requires Processed(vm)
    ensures IsChange(env.graph, st.shadow, vm.asmop.value.context, vm.stack, st.lastTop, SegmentsOf(env, st, vm).frames)
  {
    hide IsChange, ContextEvents, NextFunctions;
    var a := vm.asmop.value;
    var functions := NextFunctions(env.graph, st.shadow, st.functions, a.context, LocationOf(env, vm).line);
    ChangeEvents(env.graph, st.shadow, a.context, functions, vm.stack, st.lastTop);
  }

  // ----- Stack values and arguments -----

  function SlotOf(e: Event): Option<(nat, int)> {
    if e.Var? && e.variable.StackSlot? then Some((e.variable.index, e.variable.value)) else None
  }

  function ArgOf(e: Event): Option<(nat, int)> {
    if e.Arg? then Some((e.index, e.argument)) else None
  }

  /** The top four stack elements, or all of a shorter stack, numbered from the top. */
  ghost predicate IsTopFour(values: seq<(nat, int)>, stack: seq<Felt>) {
    && |values| == (if |stack| < 4 then |stack| else 4)
    && forall i :: 0 <= i < |values| ==> values[i].0 == i && IsSigned(values[i].1, stack[i])
  }

  lemma {:induction false} SlotsOfTop(stack: seq<Felt>, n: nat)
    requires n <= |stack|
    ensures var values := Project(SlotOf, TopEvents(stack, n));
            |values| == n && forall i :: 0 <= i < n ==> values[i] == (i, AsI64(stack[i]))
  {
    if n > 0 {
      SlotsOfTop(stack, n - 1);
      assert Front(TopEvents(stack, n)) == TopEvents(stack, n - 1);
    }
  }

  lemma {:induction false} ArgsOfArgs(stack: seq<Felt>, n: nat)
    requires n <= |stack|
    ensures var values := Project(ArgOf, ArgEvents(stack, n));
            |values| == n && forall i :: 0 <= i < n ==> values[i] == (i, AsI64(stack[i]))
  {
    if n > 0 {
      ArgsOfArgs(stack, n - 1);
      assert Front(ArgEvents(stack, n)) == ArgEvents(stack, n - 1);
    }
  }

  lemma TopFour(values: seq<(nat, int)>, stack: seq<Felt>, n: nat)
    requires n == Visible(stack) == |values| && forall i :: 0 <= i < n ==> values[i] == (i, AsI64(stack[i]))
    ensures IsTopFour(values, stack)
  {
    forall i | 0 <= i < n ensures IsSigned(values[i].1, stack[i]) {
      SignedValue(stack[i], values[i].1);
    }
  }

  /** `f` sees nothing in `events`. */
  ghost predicate Blind<U>(f: Event -> Option<U>, events: seq<Event>) {
    forall e :: e in events ==> f(e) == None
  }

  lemma ProjectAround<U>(f: Event -> Option<U>, before: seq<Event>, part: seq<Event>, after: seq<Event>)
    requires Blind(f, before) && Blind(f, after)
    ensures Project(f, before + part + after) == Project(f, part)
  {
    hide Project;
    ProjectConcat(f, before + part, after);
    ProjectConcat(f, before, part);
    ProjectNone(f, before);
    ProjectNone(f, after);
    assert [] + Project(f, part) + [] == Project(f, part);
  }

  lemma ProjectFrames<U>(f: Event -> Option<U>, s: Segments)
    requires s.Sorted() && forall e: Event :: !IsFrameEvent(e) ==> f(e) == None
    ensures Project(f, s.Joined()) == Project(f, s.frames)
  {
    var after := s.step + s.top + s.word + s.read + s.locals;
    assert s.Joined() == [] + s.frames + after;
    ProjectAround(f, [], s.frames, after);
  }

  lemma ProjectTop<U>(f: Event -> Option<U>, s: Segments)
    requires s.Sorted() && forall e: Event :: !(e.Var? && e.variable.StackSlot?) ==> f(e) == None
    ensures Project(f, s.Joined()) == Project(f, s.top)
  {
    var before, after := s.frames + s.step, s.word + s.read + s.locals;
    assert s.Joined() == before + s.top + after;
    ProjectAround(f, before, s.top, after);
  }

  lemma ProjectLocals<U>(f: Event -> Option<U>, s: Segments)
    requires s.Sorted() && forall e: Event :: !IsLocalEvent(e) ==> f(e) == None
    ensures Project(f, s.Joined()) == Project(f, s.locals)
  {
    var before := s.frames + s.step + s.top + s.word + s.read;
    assert s.Joined() == before + s.locals + [];
    ProjectAround(f, before, s.locals, []);
  }

  /** Every located first cycle, and no other state, reports the top of its stack. */
  lemma StackOnLog(env: Env, table: seq<Function>, stream: seq<VmState>, vm: VmState)
    ensures var values := Project(SlotOf, Added(env, table, stream, vm));
            if FirstLocated(vm) then IsTopFour(values, vm.stack) else values == []
  {
    hide Cycle, Visible, Project, Run, IsTopFour;
    var st := Run(env, table, stream);
    RunStep(env, table, stream, vm);
    AddedBy(env, st, vm);
    if Processed(vm) {
      var s := SegmentsOf(env, st, vm);
      ProjectTop(SlotOf, s);
      SlotsOfTop(vm.stack, Visible(vm.stack));
      TopFour(Project(SlotOf, s.top), vm.stack, Visible(vm.stack));
    } else {
      ProjectNone(SlotOf, Added(env, table, stream, vm));
    }
  }

  /** A call staged after the first observation carries the top of the stack; nothing else stages arguments. */
  lemma ArgumentsOnLog(env: Env, table: seq<Function>, stream: seq<VmState>, vm: VmState)
    ensures var added, values := Added(env, table, stream, vm), Project(ArgOf, Added(env, table, stream, vm));
            if (exists e :: e in added && e.CallFn?) && Run(env, table, stream).shadow.current.Some?
            then IsTopFour(values, vm.stack) else values == []
  {
    hide Cycle, Visible, Project, Run, IsTopFour, SegmentsOf, IsChange;
    var st := Run(env, table, stream);
    RunStep(env, table, stream, vm);
    AddedBy(env, st, vm);
    if Processed(vm) {
      var s := SegmentsOf(env, st, vm);
      ProjectFrames(ArgOf, s);
      CallsAreFrames(s);
      FramesAreChange(env, st, vm);
      ArgsOfChange(env.graph, st.shadow, vm.asmop.value.context, vm.stack, st.lastTop, s.frames);
    } else {
      ProjectNone(ArgOf, Added(env, table, stream, vm));
    }
  }

  lemma CallsAreFrames(s: Segments)
    requires s.Sorted()
    ensures forall e :: e in s.Joined() && e.CallFn? ==> e in s.frames
    ensures forall e :: e in s.frames ==> e in s.Joined()
    ensures forall e :: e in s.Joined() && e.ReturnFn? ==> e in s.frames
  {
  }

  lemma ArgsOfChange(g: Program, s: Shadow, name: string, stack: seq<Felt>, lastTop: Option<int>, events: seq<Event>)
    requires IsChange(g, s, name, stack, lastTop, events)
    ensures if (exists e :: e in events && e.CallFn?) && s.current.Some?
            then IsTopFour(Project(ArgOf, events), stack) else Project(ArgOf, events) == []
  {
    hide ArgEvents, IsTopFour, Visible, Project;
    var args := ArgEvents(stack, Visible(stack));
    ArgsOfArgs(stack, Visible(stack));
    TopFour(Project(ArgOf, args), stack, Visible(stack));
    if forall e :: e in events ==> !e.Arg? {
      ProjectNone(ArgOf, events);
    }
    if fn :| events == args + [CallFn(fn)] {
      ArgsAndCall([], args, fn);
      assert [] + args + [CallFn(fn)] == events;
    }
    if fn :| events == [ReturnFn(None)] + args + [CallFn(fn)] {
      ArgsAndCall([ReturnFn(None)], args, fn);
    }
    assert forall fn :: CallFn(fn) in args + [CallFn(fn)] && CallFn(fn) in [ReturnFn(None)] + args + [CallFn(fn)];
    EmptyArgs(stack, args);
  }

  lemma EmptyArgs(stack: seq<Felt>, args: seq<Event>)
    ensures (forall e :: e in args ==> !e.Arg?) ==> Project(ArgOf, args) == []
  {
    if forall e :: e in args ==> !e.Arg? {
      ProjectNone(ArgOf, args);
    }
  }

  lemma ArgsAndCall(before: seq<Event>, args: seq<Event>, fn: nat)
    requires forall e :: e in before ==> !e.Arg?
    ensures Project(ArgOf, before + args + [CallFn(fn)]) == Project(ArgOf, args)
  {
    hide Project;
    ProjectConcat(ArgOf, before + args, [CallFn(fn)]);
    ProjectConcat(ArgOf, before, args);
    ProjectNone(ArgOf, before);
    ProjectNone(ArgOf, [CallFn(fn)]);
  }

  // ----- Results -----

  /** State `i` is the last located first cycle. */
  ghost predicate IsLastLocated(stream: seq<VmState>, i: nat) {
    && i < |stream| && FirstLocated(stream[i])
    && forall j :: i < j < |stream| ==> !FirstLocated(stream[j])
  }

  /** The stack top at the last located first cycle; none when that stack was empty or nothing was located. */
  ghost predicate IsLastTop(stream: seq<VmState>, v: Option<int>) {
    match v
    case Some(x) => exists i: nat :: IsLastLocated(stream, i) && stream[i].stack != [] && IsSigned(x, stream[i].stack[0])
    case None => forall i: nat :: IsLastLocated(stream, i) ==> stream[i].stack == []
  }

  lemma {:induction false} LastResultIsTop(stream: seq<VmState>)
    ensures IsLastTop(stream, LastResult(stream))
  {
    if stream != [] {
      var n := |stream| - 1;
      var last := stream[n];
      if Processed(last) {
        assert IsLastLocated(stream, n);
        if last.stack != [] {
          SignedValue(last.stack[0], AsI64(last.stack[0]));
        }
      } else {
        LastResultIsTop(Front(stream));
        assert forall i :: 0 <= i < n ==> Front(stream)[i] == stream[i];
        forall i: nat ensures IsLastLocated(stream, i) <==> IsLastLocated(Front(stream), i) {
        }
        match LastResult(stream)
        case Some(x) =>
          var i: nat :| IsLastLocated(Front(stream), i) && Front(stream)[i].stack != [] && IsSigned(x, Front(stream)[i].stack[0]);
          assert IsLastLocated(stream, i);
        case None =>
      }
    }
  }

  /** The context of `vm` is the one the shadow stack expects back. */
  predicate IsReturn(s: Shadow, context: string) {
    s.current.Some? && s.current.value != context && s.callers != [] && Last(s.callers) == context
  }

  /** An observed return carries the callee's result, every other return none. */
  lemma ResultsOnLog(env: Env, table: seq<Function>, stream: seq<VmState>, vm: VmState, v: Option<int>)
    requires ReturnFn(v) in Added(env, table, stream, vm)
    ensures vm.asmop.Some?
    ensures if IsReturn(Run(env, table, stream).shadow, vm.asmop.value.context) then IsLastTop(stream, v) else v == None
  {
    hide Cycle, Run, SegmentsOf, IsChange, IsLastTop;
    var st := Run(env, table, stream);
    RunStep(env, table, stream, vm);
    AddedBy(env, st, vm);
    var s := SegmentsOf(env, st, vm);
    CallsAreFrames(s);
    FramesAreChange(env, st, vm);
    LastTopIsResult(env, table, stream);
    LastResultIsTop(stream);
    ReturnsOfChange(env.graph, st.shadow, vm.asmop.value.context, vm.stack, st.lastTop, s.frames, v);
  }

  lemma ReturnsOfChange(g: Program, s: Shadow, name: string, stack: seq<Felt>, lastTop: Option<int>, events: seq<Event>, v: Option<int>)
    requires IsChange(g, s, name, stack, lastTop, events) && ReturnFn(v) in events
    ensures v == if IsReturn(s, name) then lastTop else None
  {
    hide ArgEvents;
  }

  // ----- The function table -----

  /** A state registers at most functions of its own line, among them its context's. */
  lemma {:induction false} FunctionsOnLog(env: Env, table: seq<Function>, stream: seq<VmState>, vm: VmState)
    ensures var before, now := Run(env, table, stream), Run(env, table, stream + [vm]);
            && before.functions <= now.functions
            && (!FirstLocated(vm) ==> now.functions == before.functions)
            && (FirstLocated(vm) ==>
                  var a := vm.asmop.value;
                  && (forall f :: f in now.functions[|before.functions|..] ==>
                        f.line == LineAt(env.source, a.location.value) && (f.name == a.context || before.shadow.current.None?))
                  && (before.shadow.current != Some(a.context) ==> exists f :: f in now.functions && f.name == a.context))
  {
    hide Run, Observe, SegmentsOf, ContextSlots, StoredSlots, StoreEvents, HeldWord, HeldRead, NextStep;
    var st := Run(env, table, stream);
    RunStep(env, table, stream, vm);
    if Processed(vm) {
      var a, line := vm.asmop.value, LineAt(env.source, vm.asmop.value.location.value);
      var inlined := if st.shadow.current.None? then Observe(env.graph, st.shadow, a.context).0.callers else [];
      if st.shadow.current != Some(a.context) {
        NewFunctions(st.functions, a.context, inlined, line);
      }
    }
  }

  lemma {:induction false} RegisteredAt(table: seq<Function>, names: seq<string>, line: nat)
    ensures var now := WithFunctions(table, names, line);
            table <= now && forall f :: f in now[|table|..] ==> f.line == line
    ensures names == [] ==> WithFunctions(table, names, line) == table
  {
    if names != [] {
      RegisteredAt(table, Front(names), line);
    }
  }

  lemma NewFunctions(table: seq<Function>, context: string, inlined: seq<string>, line: nat)
    ensures var now := WithFunctions(WithFunction(table, context, line), inlined, line);
            && table <= now
            && (forall f :: f in now[|table|..] ==> f.line == line && (f.name == context || inlined != []))
            && exists f :: f in now && f.name == context
  {
    var named := WithFunction(table, context, line);
    RegisteredAt(named, inlined, line);
    var now := WithFunctions(named, inlined, line);
    WithFunctionFacts(table, context, line);
    IdsFacts(named, context);
    assert named[Ids(named)[context]] in now;
    forall f | f in now[|table|..] ensures f.line == line && (f.name == context || inlined != []) {
      if f !in now[|named|..] {
        assert f in named[|table|..];
      }
    }
  }

  // ----- The VM error -----

  /** The VM fails first at result `i`. */
  ghost predicate FailsAt(results: seq<CycleResult>, i: nat) {
    i < |results| && results[i].Err? && forall j :: 0 <= j < i ==> results[j].Ok?
  }

  /** The states of the first `n` results. */
  function StatesOf(results: seq<CycleResult>, n: nat): seq<VmState>
    requires n <= |results| && forall j :: 0 <= j < n ==> results[j].Ok?
  {
    seq(n, j requires 0 <= j < n => results[j].state)
  }

  ghost predicate NoError(events: seq<Event>) {
    forall e :: e in events ==> !e.VmError?
  }

  ghost predicate OnlyReturns(events: seq<Event>) {
    forall e :: e in events ==> e == ReturnFn(None)
  }

  /**
   The log of a finished run: what the states before the failure wrote, the
   error if there was one, and the closing returns.
   */
  ghost predicate ReportsFailure(env: Env, table: seq<Function>, results: seq<CycleResult>, log: seq<Event>) {
    && (forall i: nat :: FailsAt(results, i) ==>
          var written := Run(env, table, StatesOf(results, i)).log;
          NoError(written) && exists closing :: OnlyReturns(closing) && log == written + [VmError(results[i].message)] + closing)
    && ((forall j :: 0 <= j < |results| ==> results[j].Ok?) ==>
          var written := Run(env, table, StatesOf(results, |results|)).log;
          NoError(written) && exists closing :: OnlyReturns(closing) && log == written + closing)
  }

  lemma StateWritesNoError(env: Env, st: State, vm: VmState)
    requires NoError(st.log)
    ensures NoError(Cycle(env, st, vm).log)
  {
    hide Cycle, SegmentsOf;
    AddedBy(env, st, vm);
    if Processed(vm) {
      SegmentsHaveNoError(SegmentsOf(env, st, vm));
    }
    var more := Delta(st, Cycle(env, st, vm));
    assert Cycle(env, st, vm).log == st.log + more;
    assert NoError(more);
  }

  lemma SegmentsHaveNoError(s: Segments)
    requires s.Sorted()
    ensures NoError(s.Joined())
  {
  }

  lemma {:induction false} RunWritesNoError(env: Env, table: seq<Function>, stream: seq<VmState>)
    ensures NoError(Run(env, table, stream).log)
  {
    hide Cycle;
    if stream != [] {
      RunWritesNoError(env, table, Front(stream));
      StateWritesNoError(env, Run(env, table, Front(stream)), Last(stream));
    }
  }

  lemma {:induction false} ConsumedUpTo(results: seq<CycleResult>, n: nat)
    requires n <= |results| && (forall j :: 0 <= j < n ==> results[j].Ok?) && (n < |results| ==> results[n].Err?)
    ensures Consumed(results) == StatesOf(results, n)
    ensures FirstError(results) == if n < |results| then Some(results[n].message) else None
    decreases n
  {
    if n > 0 {
      var rest := results[1..];
      assert forall j :: 0 <= j < n - 1 ==> rest[j] == results[j + 1];
      ConsumedUpTo(rest, n - 1);
      assert StatesOf(results, n) == [results[0].state] + StatesOf(rest, n - 1);
    }
  }

  lemma {:induction false} DrainReturns(table: seq<Function>, s: Shadow)
    ensures OnlyReturns(FrameEvents(table, Drain(s), [], None))
  {
    hide Leaves, FrameEvents;
    var n := |s.callers| + (if s.mainOpen then 1 else 0) + (if s.leafOpen then 1 else 0) + 1;
    assert Drain(s) == Leaves(n) by {
      LeavesAdd(|s.callers|, 1);
      LeavesAdd(|s.callers| + 1, 1);
      LeavesAdd(|s.callers| + 2, 1);
      assert Leaves(|s.callers|) + [] == Leaves(|s.callers|);
      assert Leaves(|s.callers| + 1) + [] == Leaves(|s.callers| + 1);
    }
    LeaveEvents(table, n, [], None);
  }

  /** The trace of any run reports its failure: once, after everything written before it, followed by returns only. */
  lemma FailureOnLog(env: Env, table: seq<Function>, results: seq<CycleResult>)
    ensures ReportsFailure(env, table, results, Trace(env, table, results).log)
  {
    hide Run, Drain, FrameEvents, Consumed, FirstError, OnlyReturns, NoError;
    var st := Run(env, table, Consumed(results));
    var closing := FrameEvents(st.functions, Drain(st.shadow), [], None);
    DrainReturns(st.functions, st.shadow);
    RunWritesNoError(env, table, Consumed(results));
    forall i: nat | FailsAt(results, i)
      ensures Run(env, table, StatesOf(results, i)) == st
              && Trace(env, table, results).log == st.log + [VmError(results[i].message)] + closing
    {
      ConsumedUpTo(results, i);
    }
    if forall j :: 0 <= j < |results| ==> results[j].Ok? {
      ConsumedUpTo(results, |results|);
      assert st.log + [] + closing == st.log + closing;
    }
  }
}
