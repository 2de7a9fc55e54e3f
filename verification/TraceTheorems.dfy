/**
 What holds of every trace the recorder writes. Statements over whole streams
 switch default induction off: over streams and logs it only costs.
 */
module TraceTheorems {
  import opened Common
  import opened Ancestry
  import opened Text
  import opened CallInference
  import opened Fidelity
  import opened StepAutomaton
  import opened WrittenSlots
  import opened SourceMaps
  import opened TraceModel
  import Latch

  // ----- The function table -----

  lemma {:induction false} IdsFacts(table: seq<Function>, name: string)
    ensures if name in Ids(table) then Ids(table)[name] < |table| && table[Ids(table)[name]].name == name
            else forall f :: f in table ==> f.name != name
  {
    if table != [] {
      IdsFacts(Front(table), name);
      assert table == Front(table) + [Last(table)];
    }
  }

  lemma IdsSnoc(table: seq<Function>, f: Function)
    ensures Ids(table + [f]) == if f.name in Ids(table) then Ids(table) else Ids(table)[f.name := |table|]
  {
    assert Front(table + [f]) == table;
  }

  lemma {:induction false} IdsExtend(table: seq<Function>, more: seq<Function>, name: string)
    requires name in Ids(table)
    ensures name in Ids(table + more) && Ids(table + more)[name] == Ids(table)[name]
  {
    if more == [] {
      assert table + more == table;
    } else {
      IdsExtend(table, Front(more), name);
      assert Front(table + more) == table + Front(more);
    }
  }

  lemma WithFunctionFacts(table: seq<Function>, name: string, line: nat)
    ensures table <= WithFunction(table, name, line)
    ensures name in Ids(WithFunction(table, name, line))
    ensures DistinctNames(table) ==> DistinctNames(WithFunction(table, name, line))
  {
    IdsFacts(table, name);
    var table' := WithFunction(table, name, line);
    if table' != table {
      assert Front(table') == table;
      forall i | 0 <= i < |table| ensures table[i].name != name { assert table[i] in table; }
    }
  }

  /** Registering names keeps every id already given and never registers a name twice. */
  lemma {:induction false} WithFunctionsFacts(table: seq<Function>, names: seq<string>, line: nat)
    ensures table <= WithFunctions(table, names, line)
    ensures forall name :: name in names ==> name in Ids(WithFunctions(table, names, line))
    ensures DistinctNames(table) ==> DistinctNames(WithFunctions(table, names, line))
  {
    hide DistinctNames, Ids, WithFunction;
    if names != [] {
      WithFunctionsFacts(table, Front(names), line);
      var mid := WithFunctions(table, Front(names), line);
      var end := WithFunctions(table, names, line);
      WithFunctionFacts(mid, Last(names), line);
      assert end == mid + end[|mid|..];
      forall name | name in names ensures name in Ids(end) {
        if name != Last(names) {
          assert names == Front(names) + [Last(names)];
          IdsExtend(mid, end[|mid|..], name);
        }
      }
    }
  }

  // ----- The events of one VM state -----

  predicate IsLocalEvent(e: Event) {
    e.Var? && e.variable.Local?
  }

  /** A projection of the log grows by the projections of the segments. */
  lemma ProjectSegments<U>(f: Event -> Option<U>, log: seq<Event>, s: Segments)
    ensures Project(f, log + s.Joined()) ==
            Project(f, log) + Project(f, s.frames) + Project(f, s.step) + Project(f, s.top)
            + Project(f, s.word) + Project(f, s.read) + Project(f, s.locals)
  {
    var a2 := log + s.frames;
    var a3 := a2 + s.step;
    var a4 := a3 + s.top;
    var a5 := a4 + s.word;
    var a6 := a5 + s.read;
    assert log + s.Joined() == a6 + s.locals;
    ProjectConcat(f, log, s.frames);
    ProjectConcat(f, a2, s.step);
    ProjectConcat(f, a3, s.top);
    ProjectConcat(f, a4, s.word);
    ProjectConcat(f, a5, s.read);
    ProjectConcat(f, a6, s.locals);
  }

  /** A projection that ignores local-slot reports is unaffected by a state that is not processed. */
  lemma SkipProjects<U>(f: Event -> Option<U>, env: Env, st: State, vm: VmState)
    requires vm.asmop.Some?
    requires forall e: Event :: IsLocalEvent(e) ==> f(e) == None
    ensures Project(f, Skip(env, st, vm).log) == Project(f, st.log)
  {
    var late := Skip(env, st, vm).log[|st.log|..];
    assert Skip(env, st, vm).log == st.log + late;
    ProjectConcat(f, st.log, late);
    ProjectNone(f, late);
  }

  // ----- Steps -----

  function StepOf(e: Event): Option<nat> {
    if e.Step? then Some(e.line) else None
  }

  /** The processed operations of a stream with their lines. */
  function LocatedOps(env: Env, stream: seq<VmState>): seq<Located> {
    if stream == [] then []
    else if Processed(Last(stream)) then LocatedOps(env, Front(stream)) + [LocationOf(env, Last(stream))]
    else LocatedOps(env, Front(stream))
  }

  lemma SegmentSteps(log: seq<Event>, s: Segments)
    requires s.Sorted()
    ensures Project(StepOf, log + s.Joined()) == Project(StepOf, log) + Project(StepOf, s.step)
  {
    ProjectSegments(StepOf, log, s);
    ProjectNone(StepOf, s.frames);
    ProjectNone(StepOf, s.top);
    ProjectNone(StepOf, s.word);
    ProjectNone(StepOf, s.read);
    ProjectNone(StepOf, s.locals);
  }

  lemma ProjectOne<U>(f: Event -> Option<U>, e: Event)
    ensures Project(f, [e]) == if f(e).Some? then [f(e).value] else []
  {
    assert Front([e]) == [];
  }

  lemma StepStep(env: Env, st: State, vm: VmState)
    ensures var st' := Cycle(env, st, vm);
            if Processed(vm) then
              st'.steps == NextStep(st.steps, LocationOf(env, vm))
              && Project(StepOf, st'.log) ==
                 Project(StepOf, st.log) + (if StepsHere(st.steps, LocationOf(env, vm)) then [LocationOf(env, vm).line] else [])
            else st'.steps == st.steps && Project(StepOf, st'.log) == Project(StepOf, st.log)
  {
    if Processed(vm) {
      SegmentSteps(st.log, SegmentsOf(env, st, vm));
      ProjectOne(StepOf, Step(LocationOf(env, vm).line));
    } else if vm.asmop.Some? {
      SkipProjects(StepOf, env, st, vm);
    }
  }

  /** The steps of a trace are the step automaton's, run over the processed operations. */
  lemma {:induction false} StepsOfRun(env: Env, table: seq<Function>, stream: seq<VmState>)
    ensures var st := Run(env, table, stream);
            && st.steps == AfterAll(LocatedOps(env, stream))
            && Project(StepOf, st.log) == StepLines(LocatedOps(env, stream))
  {
    if stream != [] {
      StepsOfRun(env, table, Front(stream));
      StepStep(env, Run(env, table, Front(stream)), Last(stream));
      assert Processed(Last(stream)) ==> Front(LocatedOps(env, stream)) == LocatedOps(env, Front(stream));
    }
  }

  lemma {:induction false} StepLinesAreLocated(xs: seq<Located>, line: nat)
    requires line in StepLines(xs)
    ensures exists i :: 0 <= i < |xs| && xs[i].line == line
  {
    if line in StepLines(Front(xs)) {
      StepLinesAreLocated(Front(xs), line);
      var i :| 0 <= i < |Front(xs)| && Front(xs)[i].line == line;
      assert xs[i].line == line;
    } else {
      assert xs[|xs| - 1].line == line;
    }
  }

  lemma {:induction false} LocatedLinesInFile(env: Env, stream: seq<VmState>, i: nat)
    requires i < |LocatedOps(env, stream)|
    ensures 1 <= LocatedOps(env, stream)[i].line <= SourceLineCount(env.source)
  {
    if i < |LocatedOps(env, Front(stream))| {
      LocatedLinesInFile(env, Front(stream), i);
    } else {
      EveryLineIsCounted(env.source, Last(stream).asmop.value.location.value);
    }
  }

  lemma {:induction false} ProjectFinds<T, U>(f: T -> Option<U>, s: seq<T>, x: T)
    requires x in s && f(x).Some?
    ensures f(x).value in Project(f, s)
  {
    if x != Last(s) {
      assert x in Front(s);
      ProjectFinds(f, Front(s), x);
    }
  }

  /** The writer's line table can refuse no step of any run. */
  lemma {:induction false} NoStepRefused(env: Env, table: seq<Function>, stream: seq<VmState>, e: Event)
    requires e in Run(env, table, stream).log && e.Step?
    ensures 1 <= e.line <= SourceLineCount(env.source)
  {
    StepsOfRun(env, table, stream);
    ProjectFinds(StepOf, Run(env, table, stream).log, e);
    StepLinesAreLocated(LocatedOps(env, stream), e.line);
    var i :| 0 <= i < |LocatedOps(env, stream)| && LocatedOps(env, stream)[i].line == e.line;
    LocatedLinesInFile(env, stream, i);
  }

  // ----- Pending values -----

  function WordOf(e: Event): Option<seq<int>> {
    if e.Var? && e.variable.Word? then Some(e.variable.elements) else None
  }

  function ReadOf(e: Event): Option<AdviceRead> {
    if e.Read? then Some(e.read) else None
  }

  function WordKept(st: State): Option<seq<int>> { st.word }
  function ReadKept(st: State): Option<AdviceRead> { st.read }

  /** What the state after a cycle shows of a value to report later. */
  type Harvest<T> = (AsmOp, seq<Felt>) -> Option<T>

  function TickOf<T>(harvest: Harvest<T>, vm: VmState): Latch.Tick<T> {
    Latch.Tick(if vm.asmop.Some? then harvest(vm.asmop.value, vm.stack) else None, Processed(vm))
  }

  /** A stream as the latch for `harvest` sees it. */
  function Ticks<T>(harvest: Harvest<T>, stream: seq<VmState>): (ticks: seq<Latch.Tick<T>>)
    ensures |ticks| == |stream|
  {
    if stream == [] then [] else Ticks(harvest, Front(stream)) + [TickOf(harvest, Last(stream))]
  }

  /** One VM state advances a latch, `kept` in the state and reported as `of`, by one tick. */
  ghost predicate LatchStep<T>(env: Env, st: State, vm: VmState, harvest: Harvest<T>, kept: State -> Option<T>, of: Event -> Option<T>) {
    var (held, more) := Latch.Advance(kept(st), TickOf(harvest, vm));
    var st' := Cycle(env, st, vm);
    kept(st') == held && Project(of, st'.log) == Project(of, st.log) + more
  }

  lemma {:induction false} FollowsLatch<T>(env: Env, table: seq<Function>, stream: seq<VmState>,
                                           harvest: Harvest<T>, kept: State -> Option<T>, of: Event -> Option<T>)
    requires kept(Start(table)) == None
    requires forall st, vm :: LatchStep(env, st, vm, harvest, kept, of)
    ensures var st := Run(env, table, stream);
            Latch.AdvanceAll(None, Ticks(harvest, stream)) == (kept(st), Project(of, st.log))
  {
    if stream != [] {
      FollowsLatch(env, table, Front(stream), harvest, kept, of);
      assert LatchStep(env, Run(env, table, Front(stream)), Last(stream), harvest, kept, of);
      assert Front(Ticks(harvest, stream)) == Ticks(harvest, Front(stream));
    }
  }

  /** A one-cycle word load is always harvested first, so the live stack is never consulted. */
  lemma LiveStackUnreachable(st: State, a: AsmOp, stack: seq<Felt>)
    requires a.cycle == 1
    ensures WordToEmit(HeldWord(st, a, stack), a, stack) == HeldWord(st, a, stack)
  {
  }

  lemma SegmentWords(log: seq<Event>, s: Segments)
    requires s.Sorted()
    ensures Project(WordOf, log + s.Joined()) == Project(WordOf, log) + Project(WordOf, s.word)
  {
    hide Project;
    ProjectSegments(WordOf, log, s);
    ProjectNone(WordOf, s.frames);
    ProjectNone(WordOf, s.step);
    ProjectNone(WordOf, s.top);
    ProjectNone(WordOf, s.read);
    ProjectNone(WordOf, s.locals);
  }

  lemma WordSegment(word: Option<seq<int>>)
    ensures Project(WordOf, WordEvents(word)) == if word.Some? then [word.value] else []
  {
    if word.Some? {
      ProjectOne(WordOf, Var(Word(word.value)));
    }
  }

  lemma WordStep(env: Env, st: State, vm: VmState)
    ensures LatchStep(env, st, vm, HarvestedWord, WordKept, WordOf)
  {
    if Processed(vm) {
      LiveStackUnreachable(st, vm.asmop.value, vm.stack);
      SegmentWords(st.log, SegmentsOf(env, st, vm));
      WordSegment(HeldWord(st, vm.asmop.value, vm.stack));
    } else {
      assert Project(WordOf, st.log) + [] == Project(WordOf, st.log);
      if vm.asmop.Some? {
        SkipProjects(WordOf, env, st, vm);
      }
    }
  }

  lemma WordsFollowLatch(env: Env, table: seq<Function>, stream: seq<VmState>)
    ensures var st := Run(env, table, stream);
            Latch.AdvanceAll(None, Ticks(HarvestedWord, stream)) == (st.word, Project(WordOf, st.log))
  {
    forall st, vm ensures LatchStep(env, st, vm, HarvestedWord, WordKept, WordOf) {
      WordStep(env, st, vm);
    }
    FollowsLatch(env, table, stream, HarvestedWord, WordKept, WordOf);
  }

  /**
   For every run, the emitted words are exactly the completed word loads that
   reach a processed operation before another word load completes, in order.
   */
  lemma WordsDelivered(env: Env, table: seq<Function>, stream: seq<VmState>)
    ensures Project(WordOf, Run(env, table, stream).log) == Latch.Delivered(Ticks(HarvestedWord, stream))
  {
    WordsFollowLatch(env, table, stream);
    Latch.EmissionClosedForm(Ticks(HarvestedWord, stream));
  }

  lemma SegmentReads(log: seq<Event>, s: Segments)
    requires s.Sorted()
    ensures Project(ReadOf, log + s.Joined()) == Project(ReadOf, log) + Project(ReadOf, s.read)
  {
    hide Project;
    ProjectSegments(ReadOf, log, s);
    ProjectNone(ReadOf, s.frames);
    ProjectNone(ReadOf, s.step);
    ProjectNone(ReadOf, s.top);
    ProjectNone(ReadOf, s.word);
    ProjectNone(ReadOf, s.locals);
  }

  lemma ReadSegment(read: Option<AdviceRead>)
    ensures Project(ReadOf, ReadEvents(read)) == if read.Some? then [read.value] else []
  {
    if read.Some? {
      ProjectOne(ReadOf, Read(read.value));
    }
  }

  lemma ReadStep(env: Env, st: State, vm: VmState)
    ensures LatchStep(env, st, vm, HarvestedRead, ReadKept, ReadOf)
  {
    hide HarvestedRead, Project, HarvestedWord;
    if Processed(vm) {
      SegmentReads(st.log, SegmentsOf(env, st, vm));
      ReadSegment(HeldRead(st, vm.asmop.value, vm.stack));
    } else {
      assert Project(ReadOf, st.log) + [] == Project(ReadOf, st.log);
      if vm.asmop.Some? {
        SkipProjects(ReadOf, env, st, vm);
      }
    }
  }

  lemma ReadsFollowLatch(env: Env, table: seq<Function>, stream: seq<VmState>)
    ensures var st := Run(env, table, stream);
            Latch.AdvanceAll(None, Ticks(HarvestedRead, stream)) == (st.read, Project(ReadOf, st.log))
  {
    forall st, vm ensures LatchStep(env, st, vm, HarvestedRead, ReadKept, ReadOf) {
      ReadStep(env, st, vm);
    }
    FollowsLatch(env, table, stream, HarvestedRead, ReadKept, ReadOf);
  }

  /** Likewise for advice-tape reads. */
  lemma ReadsDelivered(env: Env, table: seq<Function>, stream: seq<VmState>)
    ensures Project(ReadOf, Run(env, table, stream).log) == Latch.Delivered(Ticks(HarvestedRead, stream))
  {
    ReadsFollowLatch(env, table, stream);
    Latch.EmissionClosedForm(Ticks(HarvestedRead, stream));
  }

  // ----- Frames -----

  /** The mark a log event stands for, with the frame's name read from the function table. */
  function FrameMark(table: seq<Function>, e: Event): Option<Mark> {
    match e
    case CallFn(fn) => Some(Enter(if fn < |table| then table[fn].name else "", false))
    case ReturnFn(_) => Some(Leave(false))
    case _ => None
  }

  function FrameFn(table: seq<Function>): Event -> Option<Mark> {
    e => FrameMark(table, e)
  }

  /** The call trace of a log: which frames it enters and leaves. */
  function Frames(table: seq<Function>, log: seq<Event>): seq<Mark> {
    Project(FrameFn(table), log)
  }

  ghost predicate CallsKnown(table: seq<Function>, log: seq<Event>) {
    forall e :: e in log && e.CallFn? ==> e.fn < |table|
  }

  function Plain(m: Mark): Mark {
    if m.Enter? then Enter(m.name, false) else Leave(false)
  }

  function PlainAll(marks: seq<Mark>): seq<Mark> {
    if marks == [] then [] else PlainAll(Front(marks)) + [Plain(Last(marks))]
  }

  lemma {:induction false} PlainConcat(a: seq<Mark>, b: seq<Mark>)
    ensures PlainAll(a + b) == PlainAll(a) + PlainAll(b)
  {
    if b == [] {
      assert a + b == a;
    } else {
      PlainConcat(a, Front(b));
      assert Front(a + b) == a + Front(b);
    }
  }

  lemma {:induction false} PlainOpenFrames(marks: seq<Mark>)
    ensures OpenFrames(PlainAll(marks)) == OpenFrames(marks)
  {
    if marks != [] {
      PlainOpenFrames(Front(marks));
      assert Front(PlainAll(marks)) == PlainAll(Front(marks));
    }
  }

  /** Later registrations do not rename the frames already in the log. */
  lemma FramesSurviveGrowth(table: seq<Function>, table': seq<Function>, log: seq<Event>)
    requires table <= table' && CallsKnown(table, log)
    ensures Frames(table', log) == Frames(table, log) && CallsKnown(table', log)
  {
    forall e | e in log ensures FrameFn(table')(e) == FrameFn(table)(e) {
      if e.CallFn? {
        assert table'[e.fn] == table[e.fn];
      }
    }
    ProjectAgrees(FrameFn(table'), FrameFn(table), log);
  }

  ghost predicate NamesFound(table: seq<Function>, marks: seq<Mark>) {
    forall m :: m in marks && m.Enter? ==> m.name in Ids(table)
  }

  // Default induction over the events costs more than the proof.
  lemma {:induction false} MarkFrames(table: seq<Function>, m: Mark, stack: seq<Felt>, lastTop: Option<int>, events: seq<Event>)
    requires events == MarkEvents(table, m, stack, lastTop) && (m.Enter? ==> m.name in Ids(table))
    ensures Frames(table, events) == [Plain(m)] && CallsKnown(table, events)
  {
    if m.Enter? {
      IdsFacts(table, m.name);
      FramesOfCall(table, if m.staged then ArgEvents(stack, Visible(stack)) else [], CallFn(IdOf(table, m.name)));
    } else {
      var last := ReturnFn(if m.valued then lastTop else None);
      FramesOfCall(table, [], last);
      assert [] + [last] == [last];
    }
  }

  lemma FramesOfCall(table: seq<Function>, args: seq<Event>, last: Event)
    requires forall e :: e in args ==> e.Arg?
    requires FrameMark(table, last).Some?
    requires last.CallFn? ==> last.fn < |table|
    ensures Frames(table, args + [last]) == [FrameMark(table, last).value]
    ensures CallsKnown(table, args + [last])
  {
    ProjectNone(FrameFn(table), args);
    assert Front(args + [last]) == args;
  }

  lemma {:induction false} FrameEventsAreMarks(table: seq<Function>, marks: seq<Mark>, stack: seq<Felt>, lastTop: Option<int>)
    requires NamesFound(table, marks)
    ensures Frames(table, FrameEvents(table, marks, stack, lastTop)) == PlainAll(marks)
    ensures CallsKnown(table, FrameEvents(table, marks, stack, lastTop))
  {
    if marks != [] {
      assert Last(marks) in marks;
      FrameEventsAreMarks(table, Front(marks), stack, lastTop);
      MarkFrames(table, Last(marks), stack, lastTop, MarkEvents(table, Last(marks), stack, lastTop));
      ProjectConcat(FrameFn(table), FrameEvents(table, Front(marks), stack, lastTop), MarkEvents(table, Last(marks), stack, lastTop));
    }
  }

  lemma {:induction false} EntersNames(names: seq<string>, m: Mark)
    requires m in Enters(names)
    ensures m.Enter? && m.name in names
  {
    if m in Enters(Front(names)) {
      EntersNames(Front(names), m);
    }
  }

  lemma {:induction false} LeavesAreLeaves(n: nat, m: Mark)
    requires m in Leaves(n)
    ensures m == Leave(false)
  {
    if m in Leaves(n - 1) {
      LeavesAreLeaves(n - 1, m);
    }
  }

  /** Every name a transition enters is registered by it. */
  lemma EnteredAreRegistered(g: Program, s: Shadow, name: string, m: Mark)
    requires m in Observe(g, s, name).1 && m.Enter?
    ensures m.name == name || (s.current.None? && m.name in Observe(g, s, name).0.callers)
  {
    var (s', marks) := Observe(g, s, name);
    if s.current.None? {
      if m in Enters(s'.callers) {
        EntersNames(s'.callers, m);
      }
    } else if m in Leaves(|s.callers| + 1) {
      LeavesAreLeaves(|s.callers| + 1, m);
    }
  }

  /** The contexts a stream lets the recorder observe. */
  function Contexts(stream: seq<VmState>): seq<string> {
    if stream == [] then []
    else if Processed(Last(stream)) then Contexts(Front(stream)) + [Last(stream).asmop.value.context]
    else Contexts(Front(stream))
  }

  /** The recorder's shadow state, function table and call trace after a stream. */
  ghost predicate FollowsInference(env: Env, table: seq<Function>, stream: seq<VmState>, st: State) {
    var (s, marks) := ObserveAll(env.graph, UNOBSERVED, Contexts(stream));
    && st.shadow == s
    && Frames(st.functions, st.log) == PlainAll(marks)
    && CallsKnown(st.functions, st.log)
    && table <= st.functions
    && (DistinctNames(table) ==> DistinctNames(st.functions))
  }

  lemma NoOtherCalls(table: seq<Function>, s: Segments)
    requires s.Sorted() && CallsKnown(table, s.frames)
    ensures CallsKnown(table, s.Joined())
  {
    forall e | e in s.Joined() && e.CallFn? ensures e in s.frames { }
  }

  lemma SegmentFrames(table: seq<Function>, log: seq<Event>, s: Segments)
    requires s.Sorted()
    requires CallsKnown(table, log) && CallsKnown(table, s.frames)
    ensures Frames(table, log + s.Joined()) == Frames(table, log) + Frames(table, s.frames)
    ensures CallsKnown(table, log + s.Joined())
  {
    NoOtherCalls(table, s);
    ProjectSegments(FrameFn(table), log, s);
    FrameFree(table, s.step);
    FrameFree(table, s.top);
    FrameFree(table, s.word);
    FrameFree(table, s.read);
    FrameFree(table, s.locals);
  }

  lemma FrameFree(table: seq<Function>, events: seq<Event>)
    requires forall e :: e in events ==> !e.CallFn? && !e.ReturnFn?
    ensures Frames(table, events) == []
  {
    ProjectNone(FrameFn(table), events);
  }

  /** The frame events of one processed state, in terms of the marks inferred for it. */
  lemma ObservationFrames(g: Program, s: Shadow, functions: seq<Function>, context: string, line: nat,
                                             stack: seq<Felt>, lastTop: Option<int>)
    ensures var table := NextFunctions(g, s, functions, context, line);
            && functions <= table
            && (DistinctNames(functions) ==> DistinctNames(table))
            && Frames(table, ContextEvents(g, s, context, table, stack, lastTop)) == PlainAll(Observe(g, s, context).1)
            && CallsKnown(table, ContextEvents(g, s, context, table, stack, lastTop))
  {
    var (s', marks) := Observe(g, s, context);
    var table := NextFunctions(g, s, functions, context, line);
    if s.current != Some(context) {
      var named := WithFunction(functions, context, line);
      WithFunctionFacts(functions, context, line);
      WithFunctionsFacts(named, if s.current.None? then s'.callers else [], line);
      assert table == named + table[|named|..];
      IdsExtend(named, table[|named|..], context);
      forall m | m in marks && m.Enter? ensures m.name in Ids(table) {
        EnteredAreRegistered(g, s, context, m);
      }
    }
    FrameEventsAreMarks(table, marks, stack, lastTop);
  }

  lemma ProcessFollowsInference(env: Env, st: State, vm: VmState)
    requires Processed(vm) && CallsKnown(st.functions, st.log)
    ensures var st' := Process(env, st, vm);
            && st.functions <= st'.functions
            && (DistinctNames(st.functions) ==> DistinctNames(st'.functions))
            && Frames(st'.functions, st'.log) ==
               Frames(st.functions, st.log) + PlainAll(Observe(env.graph, st.shadow, vm.asmop.value.context).1)
            && CallsKnown(st'.functions, st'.log)
  {
    var st' := Process(env, st, vm);
    ObservationFrames(env.graph, st.shadow, st.functions, vm.asmop.value.context, LocationOf(env, vm).line, vm.stack, st.lastTop);
    FramesSurviveGrowth(st.functions, st'.functions, st.log);
    SegmentFrames(st'.functions, st.log, SegmentsOf(env, st, vm));
  }

  lemma {:induction false} RunFollowsInference(env: Env, table: seq<Function>, stream: seq<VmState>)
    ensures FollowsInference(env, table, stream, Run(env, table, stream))
  {
    if stream != [] {
      RunFollowsInference(env, table, Front(stream));
      var st, vm := Run(env, table, Front(stream)), Last(stream);
      if Processed(vm) {
        var (s1, marks) := ObserveAll(env.graph, UNOBSERVED, Contexts(Front(stream)));
        ObserveAllSnoc(env.graph, Contexts(Front(stream)), vm.asmop.value.context);
        ProcessFollowsInference(env, st, vm);
        PlainConcat(marks, Observe(env.graph, st.shadow, vm.asmop.value.context).1);
      } else if vm.asmop.Some? {
        SkipProjects(FrameFn(st.functions), env, st, vm);
      }
    }
  }

  /**
   On every run the writer's open frames are the toplevel followed by the
   shadow stack and the current context, less its outermost entry when no
   synthesised frame stands for it.
   */
  lemma {:induction false} OpenFramesAreShadow(env: Env, table: seq<Function>, stream: seq<VmState>)
    ensures var st := Run(env, table, stream);
            && Consistent(st.shadow)
            && OpenFrames(Frames(st.functions, st.log)) == Some([TOPLEVEL] + RecordedStack(st.shadow))
  {
    RunFollowsInference(env, table, stream);
    FramesRefineShadow(env.graph, Contexts(stream));
    PlainOpenFrames(ObserveAll(env.graph, UNOBSERVED, Contexts(stream)).1);
  }

  lemma {:induction false} TableGrows(env: Env, table: seq<Function>, earlier: seq<VmState>, later: seq<VmState>)
    ensures Run(env, table, earlier).functions <= Run(env, table, earlier + later).functions
  {
    hide Process, DistinctNames, CallsKnown, StoreEvents, HeldWord, HeldRead;
    if later == [] {
      assert earlier + later == earlier;
    } else {
      var stream := earlier + later;
      TableGrows(env, table, earlier, Front(later));
      assert Front(stream) == earlier + Front(later);
      RunFollowsInference(env, table, Front(stream));
      if Processed(Last(stream)) {
        ProcessFollowsInference(env, Run(env, table, Front(stream)), Last(stream));
      }
    }
  }

  /**
   The function table: every id stays what it was, whether given before the run
   or during it, no name is registered twice, and every call in the log names a
   registered function.
   */
  lemma FunctionIdsStable(env: Env, table: seq<Function>, earlier: seq<VmState>, later: seq<VmState>)
    requires IsPreRegistration(env, table)
    ensures table <= Run(env, table, earlier).functions <= Run(env, table, earlier + later).functions
    ensures var st := Run(env, table, earlier + later);
            DistinctNames(st.functions) && CallsKnown(st.functions, st.log)
  {
    hide Run;
    RunFollowsInference(env, table, earlier);
    RunFollowsInference(env, table, earlier + later);
    TableGrows(env, table, earlier, later);
  }

  lemma DrainNames(s: Shadow, m: Mark)
    requires m in Drain(s)
    ensures m == Leave(false)
  {
    var n := |s.callers| + (if s.mainOpen then 1 else 0) + (if s.leafOpen then 1 else 0) + 1;
    assert Drain(s) == Leaves(n) by {
      LeavesAdd(|s.callers|, 1);
      LeavesAdd(|s.callers| + 1, 1);
      LeavesAdd(|s.callers| + 2, 1);
    }
    LeavesAreLeaves(n, m);
  }

  lemma TraceFrames(env: Env, table: seq<Function>, results: seq<CycleResult>)
    ensures var st := Run(env, table, Consumed(results));
            var end := Trace(env, table, results);
            end.functions == st.functions
            && Frames(end.functions, end.log) == Frames(st.functions, st.log) + PlainAll(Drain(st.shadow))
  {
    FinishFrames(Run(env, table, Consumed(results)), FirstError(results));
  }

  lemma FinishFrames(st: State, error: Option<string>)
    ensures Frames(st.functions, Finish(st, error).log) == Frames(st.functions, st.log) + PlainAll(Drain(st.shadow))
  {
    var f := FrameFn(st.functions);
    var report := if error.Some? then [VmError(error.value)] else [];
    var drain := FrameEvents(st.functions, Drain(st.shadow), [], None);
    ProjectConcat(f, st.log + report, drain);
    ProjectConcat(f, st.log, report);
    ProjectNone(f, report);
    assert NamesFound(st.functions, Drain(st.shadow)) by {
      forall m | m in Drain(st.shadow) ensures m == Leave(false) { DrainNames(st.shadow, m); }
    }
    FrameEventsAreMarks(st.functions, Drain(st.shadow), [], None);
    assert Frames(st.functions, st.log) + [] == Frames(st.functions, st.log);
  }

  /**
   Every trace is balanced, whatever the VM states and however the run ends:
   all frames are closed, the toplevel by the very last event, and before that
   event the toplevel is open.
   */
  lemma TraceBalanced(env: Env, table: seq<Function>, results: seq<CycleResult>)
    ensures var end := Trace(env, table, results);
            && OpenFrames(Frames(end.functions, end.log)) == Some([])
            && end.log != [] && Last(end.log).ReturnFn?
            && forall k {:trigger end.log[..k]} :: 0 <= k < |end.log| ==>
                 var open := OpenFrames(Frames(end.functions, end.log[..k]));
                 open.Some? && open.value != [] && open.value[0] == TOPLEVEL
  {
    var st := Run(env, table, Consumed(results));
    var end := Trace(env, table, results);
    OpenFramesAreShadow(env, table, Consumed(results));
    TraceFrames(env, table, results);
    var before := Frames(st.functions, st.log);
    DrainClosesAll(st.shadow, before);
    PlainOpenFramesAfter(before, Drain(st.shadow));
    DrainEndsWithReturn(st, FirstError(results));
    forall k | 0 <= k < |end.log|
      ensures var open := OpenFrames(Frames(end.functions, end.log[..k]));
              open.Some? && open.value != [] && open.value[0] == TOPLEVEL
    {
      PrefixOpen(end.functions, end.log, k);
    }
  }

  lemma {:induction false} PlainOpenFramesAfter(marks: seq<Mark>, more: seq<Mark>)
    ensures OpenFrames(marks + PlainAll(more)) == OpenFrames(marks + more)
  {
    if more == [] {
      assert marks + PlainAll(more) == marks + more;
    } else {
      PlainOpenFramesAfter(marks, Front(more));
      assert Front(marks + PlainAll(more)) == marks + PlainAll(Front(more));
      assert Front(marks + more) == marks + Front(more);
    }
  }

  lemma DrainEndsWithReturn(st: State, error: Option<string>)
    ensures var log := Finish(st, error).log;
            log != [] && Last(log).ReturnFn?
  {
    assert Leaves(1) == [Leave(false)] by { assert Leaves(0) == []; }
    assert Last(Drain(st.shadow)) == Leave(false);
  }

  lemma PrefixOpen(table: seq<Function>, log: seq<Event>, k: nat)
    requires k < |log| && Last(log).ReturnFn?
    requires OpenFrames(Frames(table, log)).Some?
    ensures var open := OpenFrames(Frames(table, log[..k]));
            open.Some? && open.value != [] && open.value[0] == TOPLEVEL
  {
    var f := FrameFn(table);
    var marks := Frames(table, log);
    var rest := log[k..];
    ProjectConcat(f, log[..k], rest);
    assert log[..k] + rest == log;
    assert Last(rest).ReturnFn?;
    ProjectFinds(f, rest, Last(rest));
    var n := |Frames(table, log[..k])|;
    assert marks[..n] == Frames(table, log[..k]);
    ToplevelStaysOpen(marks, n);
  }

  // ----- Fidelity of the written trace -----

  /** The contexts are those of a true run from `e`, whose moves are possible and readable. */
  ghost predicate IsReadableRun(g: Program, e: Entry, moves: seq<Move>, contexts: seq<string>) {
    && Begins(g, e)
    && AllPossible(Known(e), moves) && AllReadable(g, Known(e), moves)
    && contexts == Seen(e) + Observed(Known(e), moves)
  }

  /**
   Fidelity of the written log: for a readable run, however it begins, the log
   enters and leaves exactly the frames the run does, the shadow stack with the
   current context is the run's call stack, and the open frames are that stack,
   less its outermost entry when the trace has no frame for it.
   */
  lemma {:induction false} LogIsTrueCallTrace(env: Env, table: seq<Function>, stream: seq<VmState>, e: Entry, moves: seq<Move>)
    requires NoHash(env.graph) && IsParentMap(env.graph.calls, env.graph.parents)
    requires IsReadableRun(env.graph, e, moves, Contexts(stream))
    ensures var st, now := Run(env, table, stream), StackAfter(Known(e), moves);
            && Frames(st.functions, st.log) == PlainAll(Opened(e)) + PlainAll(MarksAfter(moves))
            && Mirrors(st.shadow, now) && (Synthesised(st.shadow) <==> HasFrame(e))
            && OpenFrames(Frames(st.functions, st.log)) == Some([TOPLEVEL] + if HasFrame(e) then now else now[1..])
  {
    hide OpenFrames, AllPossible, AllReadable, Observed, Contexts, Run, Frames, NoDrain, ObserveAll, PlainAll,
         MarksAfter, StackAfter, Opened, Seen, Known, HasFrame, Begins, NoHash;
    RunFollowsInference(env, table, stream);
    OpenFramesAreShadow(env, table, stream);
    EntryState(env.graph, e);
    FidelityFrom(env.graph, Seen(e), Known(e), moves);
    MainFlagStays(env.graph, Seen(e), Observed(Known(e), moves));
    PlainConcat(Opened(e), MarksAfter(moves));
  }

  // ----- Values carried by calls and returns -----

  /** The operand-stack top at the last processed operation. */
  function LastResult(stream: seq<VmState>): Option<int> {
    if stream == [] then None
    else if Processed(Last(stream)) then
      (if Last(stream).stack == [] then None else Some(AsI64(Last(stream).stack[0])))
    else LastResult(Front(stream))
  }

  lemma {:induction false} LastTopIsResult(env: Env, table: seq<Function>, stream: seq<VmState>)
    ensures Run(env, table, stream).lastTop == LastResult(stream)
  {
    if stream != [] {
      LastTopIsResult(env, table, Front(stream));
    }
  }

  /**
   An observed return carries the callee's result: the stack top at the last
   operation processed before the caller was seen again.
   */
  lemma {:induction false} ReturnCarriesResult(env: Env, table: seq<Function>, stream: seq<VmState>, vm: VmState)
    requires Processed(vm)
    requires var s := Run(env, table, stream).shadow;
             s.current.Some? && s.current.value != vm.asmop.value.context
             && s.callers != [] && Last(s.callers) == vm.asmop.value.context
    ensures var st := Run(env, table, stream);
            var st' := Cycle(env, st, vm);
            st.log + [ReturnFn(LastResult(stream))] <= st'.log
            && st'.shadow.callers == Front(st.shadow.callers)
  {
    var st, a := Run(env, table, stream), vm.asmop.value;
    LastTopIsResult(env, table, stream);
    OneFrameEvent(NextFunctions(env.graph, st.shadow, st.functions, a.context, LocationOf(env, vm).line), vm.stack, st.lastTop);
    JoinedStartsWithFrames(st.log, SegmentsOf(env, st, vm));
  }

  lemma JoinedStartsWithFrames(log: seq<Event>, s: Segments)
    ensures log + s.frames <= log + s.Joined()
  {
    assert s.Joined() == s.frames + (s.step + s.top + s.word + s.read + s.locals);
  }

  lemma OneFrameEvent(table: seq<Function>, stack: seq<Felt>, lastTop: Option<int>)
    ensures FrameEvents(table, [Leave(true)], stack, lastTop) == [ReturnFn(lastTop)]
  {
    assert Front([Leave(true)]) == [];
  }

  // ----- Written locals -----

  /** What a stream does to the written slots. */
  function SlotInputs(stream: seq<VmState>): seq<Input> {
    if stream == [] then [] else SlotInputs(Front(stream)) + SlotInput(Last(stream))
  }

  function StoreInput(a: AsmOp): seq<Input> {
    match LocStore(a.op)
    case Some(slot) => [Input.Stored(slot)]
    case None => []
  }

  function SlotInput(vm: VmState): seq<Input> {
    if vm.asmop.None? then []
    else
      var a := vm.asmop.value;
      (if StoresLate(a) then StoreInput(a) else [])
      + (if Processed(vm) then [Context(a.context)] + (if a.cycles == 1 then StoreInput(a) else []) else [])
  }

  ghost predicate SlotsAgree(st: State, r: SlotRun) {
    st.shadow == r.shadow && st.slots == r.slots
  }

  lemma SlotsAfterConcat(g: Program, inputs: seq<Input>, x: Input)
    ensures SlotsAfter(g, inputs + [x]) == WrittenSlots.Advance(g, SlotsAfter(g, inputs), x)
  {
    assert Front(inputs + [x]) == inputs;
  }

  lemma StoreAgrees(r: SlotRun, g: Program, inputs: seq<Input>, a: AsmOp)
    requires SlotsAfter(g, inputs) == r
    ensures SlotsAfter(g, inputs + StoreInput(a)).slots == StoredSlots(r.slots, a.op)
    ensures SlotsAfter(g, inputs + StoreInput(a)).shadow == r.shadow
  {
    if LocStore(a.op).Some? {
      SlotsAfterConcat(g, inputs, Input.Stored(LocStore(a.op).value));
    } else {
      assert inputs + StoreInput(a) == inputs;
    }
  }

  lemma ObserveChangesContext(g: Program, s: Shadow, name: string)
    ensures Observe(g, s, name).0.current == Some(name)
    ensures s.current == Some(name) ==> Observe(g, s, name).0 == s
  {
  }

  lemma {:induction false} CycleSlots(env: Env, st: State, vm: VmState, inputs: seq<Input>)
    requires SlotsAgree(st, SlotsAfter(env.graph, inputs))
    ensures SlotsAgree(Cycle(env, st, vm), SlotsAfter(env.graph, inputs + SlotInput(vm)))
  {
    var g := env.graph;
    if vm.asmop.None? {
      assert inputs + SlotInput(vm) == inputs;
    } else if Processed(vm) {
      var a := vm.asmop.value;
      var seen := inputs + [Context(a.context)];
      ObserveChangesContext(g, st.shadow, a.context);
      SlotsAfterConcat(g, inputs, Context(a.context));
      assert SlotsAfter(g, seen).slots == ContextSlots(g, st.shadow, st.slots, a.context);
      if a.cycles == 1 {
        StoreAgrees(SlotsAfter(g, seen), g, seen, a);
        assert inputs + SlotInput(vm) == seen + StoreInput(a);
      } else {
        assert inputs + SlotInput(vm) == seen;
      }
    } else if StoresLate(vm.asmop.value) {
      StoreAgrees(SlotsAfter(g, inputs), g, inputs, vm.asmop.value);
      assert SlotInput(vm) == StoreInput(vm.asmop.value);
    } else {
      assert inputs + SlotInput(vm) == inputs;
    }
  }

  lemma {:induction false} RunSlots(env: Env, table: seq<Function>, stream: seq<VmState>)
    ensures SlotsAgree(Run(env, table, stream), SlotsAfter(env.graph, SlotInputs(stream)))
  {
    if stream != [] {
      RunSlots(env, table, Front(stream));
      CycleSlots(env, Run(env, table, Front(stream)), Last(stream), SlotInputs(Front(stream)));
    }
  }

  /** The history of trace frames and completed stores of a stream. */
  ghost function SlotHistory(env: Env, stream: seq<VmState>): seq<SlotOp> {
    SlotsAfter(env.graph, SlotInputs(stream)).history
  }

  /**
   On every run, the slots reported for the current context are exactly its
   own: those stored since the trace entered its frame, or, for a context the
   trace has no frame for, since it started under the toplevel. The outermost
   frame of a synthesised chain also keeps slots stored before anything was
   observed, and `#main` takes over the slots of the outermost inlined caller
   that is closed below it when it surfaces.
   */
  lemma {:induction false} ReportedSlotsAreOwn(env: Env, table: seq<Function>, stream: seq<VmState>, slot: nat)
    ensures var st := Run(env, table, stream);
            var h := SlotHistory(env, stream);
            && Level(h) == |RecordedStack(st.shadow)|
            && (slot in Last(st.slots) <==> IsOwn(st.shadow, h, slot))
  {
    RunSlots(env, table, stream);
    TopSlotsAreOwned(env.graph, SlotInputs(stream), slot);
  }

  // ----- What a slot report contains -----

  /** The slots of a report are those with a value, each once and in ascending order. */
  lemma {:induction false} SlotEventsExact(numLocals: nat, vm: VmState, slots: set<nat>, slot: nat, value: int)
    ensures Var(Local(slot, value)) in SlotEvents(numLocals, vm, slots) <==>
            slot in slots && SlotValue(numLocals, vm, slot) == Some(value)
  {
    if slots != {} {
      SlotEventsExact(numLocals, vm, slots - {Least(slots)}, slot, value);
    }
  }

  lemma {:induction false} SlotEventsAscend(numLocals: nat, vm: VmState, slots: set<nat>)
    ensures forall i, j :: 0 <= i < j < |SlotEvents(numLocals, vm, slots)| ==>
              SlotEvents(numLocals, vm, slots)[i].variable.slot < SlotEvents(numLocals, vm, slots)[j].variable.slot
  {
    if slots != {} {
      var least, rest := Least(slots), slots - {Least(slots)};
      var tail := SlotEvents(numLocals, vm, rest);
      SlotEventsAscend(numLocals, vm, rest);
      forall i | 0 <= i < |tail| ensures tail[i].variable.slot > least {
        var e := tail[i];
        assert e in tail && e.Var? && e.variable.Local?;
        SlotEventsExact(numLocals, vm, rest, e.variable.slot, e.variable.value);
        assert e == Var(Local(e.variable.slot, e.variable.value));
      }
    }
  }

  /** The states at which slots are reported: a processed one, and the last cycle of a multi-cycle store. */
  predicate Reports(vm: VmState) {
    vm.asmop.Some? && (Processed(vm) || (StoresLate(vm.asmop.value) && LocStore(vm.asmop.value.op).Some?))
  }

  lemma LocalInReport(env: Env, context: Option<string>, slots: set<nat>, vm: VmState, slot: nat, value: int)
    ensures Var(Local(slot, value)) in LocalEvents(env, context, slots, vm) <==>
            NumLocals(env, context) != 0 && slot in slots && SlotValue(NumLocals(env, context), vm, slot) == Some(value)
  {
    hide SlotEvents, SlotValue, NumLocals;
    SlotEventsExact(NumLocals(env, context), vm, slots, slot, value);
  }

  /** A store's report covers the slots reported before it. */
  lemma StoreReport(env: Env, context: Option<string>, slots: SlotStack, op: string, vm: VmState, slot: nat, value: int)
    ensures var e := Var(Local(slot, value));
            && (LocStore(op).Some? ==>
                  (e in StoreEvents(env, context, slots, op, vm) <==> e in LocalEvents(env, context, Last(StoredSlots(slots, op)), vm))
                  && (e in LocalEvents(env, context, Last(slots), vm) ==> e in StoreEvents(env, context, slots, op, vm)))
            && (LocStore(op).None? ==> StoreEvents(env, context, slots, op, vm) == [] && StoredSlots(slots, op) == slots)
  {
    hide LocStore, SlotEvents, SlotValue, NumLocals;
    LocalInReport(env, context, Last(slots), vm, slot, value);
    LocalInReport(env, context, Last(StoredSlots(slots, op)), vm, slot, value);
  }

  lemma LocalsOfSegments(s: Segments, log: seq<Event>, slot: nat, value: int)
    requires s.Sorted()
    ensures (log + s.Joined())[|log|..] == s.Joined()
    ensures Var(Local(slot, value)) in s.Joined() <==> Var(Local(slot, value)) in s.locals
  {
  }

  /** What one VM state writes of a slot: its value, if it is among the current context's slots afterwards. */
  lemma LocalsOfCycle(env: Env, st: State, vm: VmState, slot: nat, value: int)
    ensures var st' := Cycle(env, st, vm);
            var n := NumLocals(env, st'.shadow.current);
            && st.log <= st'.log
            && (Var(Local(slot, value)) in st'.log[|st.log|..] <==>
                  Reports(vm) && n != 0 && slot in Last(st'.slots) && SlotValue(n, vm, slot) == Some(value))
  {
    hide LocStore, SlotEvents, SlotValue, NumLocals, Observe, ContextSlots, StoreEvents, LocalEvents, StoredSlots, HeldWord, HeldRead,
         NextFunctions, ContextEvents, StepEvents, TopEvents, WordEvents, ReadEvents, WordToEmit, NextStep;
    var st' := Cycle(env, st, vm);
    if Processed(vm) {
      var a := vm.asmop.value;
      var slots := ContextSlots(env.graph, st.shadow, st.slots, a.context);
      ObserveChangesContext(env.graph, st.shadow, a.context);
      LocalsOfSegments(SegmentsOf(env, st, vm), st.log, slot, value);
      StoreReport(env, Some(a.context), slots, a.op, vm, slot, value);
      LocalInReport(env, Some(a.context), Last(st'.slots), vm, slot, value);
    } else if vm.asmop.Some? && StoresLate(vm.asmop.value) {
      StoreReport(env, st.shadow.current, st.slots, vm.asmop.value.op, vm, slot, value);
      LocalInReport(env, st.shadow.current, Last(st'.slots), vm, slot, value);
    }
  }

  /**
   The property on the log: on every run, the next VM state writes `local[N]`
   with a value exactly when it reports slots, the current context declares
   locals, the slot is that context's own, and its address holds the value.
   */
  lemma WrittenLocalsAreOwn(env: Env, table: seq<Function>, stream: seq<VmState>, vm: VmState, slot: nat, value: int)
    ensures var before, now := Run(env, table, stream), Run(env, table, stream + [vm]);
            var n := NumLocals(env, now.shadow.current);
            && before.log <= now.log
            && (Var(Local(slot, value)) in now.log[|before.log|..] <==>
                  && Reports(vm) && n != 0
                  && IsOwn(now.shadow, SlotHistory(env, stream + [vm]), slot)
                  && SlotValue(n, vm, slot) == Some(value))
  {
    hide Cycle, IsOwn, SlotValue, NumLocals, Reports;
    assert Front(stream + [vm]) == stream;
    LocalsOfCycle(env, Run(env, table, stream), vm, slot, value);
    ReportedSlotsAreOwn(env, table, stream + [vm], slot);
  }

  // ----- An early slot, on VM states -----

  lemma StoreThree()
    ensures LocStore("loc_store.3") == Some(3)
  {
    DecimalRoundTrip(3, U32_RANGE);
    assert Decimal(3) == "3" && "loc_store.3" == "loc_store." + "3";
  }

  /**
   An unlocated `loc_store.3` completes before anything is processed; `leaf` is
   then observed in the inlined chain under `outer`, and `outer` after it: slot
   3 is among the slots reported for `outer`, which never stored it.
   */
  lemma EarlySlotIsReported(env: Env, table: seq<Function>, store: VmState, first: VmState, next: VmState,
                            outer: string, leaf: string, at: nat)
    requires InlinedUnder(env.graph, outer, leaf)
    requires store.asmop == Some(AsmOp("loc_store.3", leaf, 3, 3, None))
    requires first.asmop == Some(AsmOp("mul", leaf, 1, 2, Some(at)))
    requires next.asmop == Some(AsmOp("mul", outer, 1, 2, Some(at)))
    ensures var st, h := Run(env, table, [store, first, next]), SlotHistory(env, [store, first, next]);
            st.shadow.current == Some(outer) && 3 in Last(st.slots) && !Owns(h, Level(h), 3)
  {
    hide Run, SlotsAfter, Owns, SlotInputs, SlotInput;
    OneInputEach(store, first, next, outer, leaf, at);
    RunSlots(env, table, [store, first, next]);
    EarlySlotIsKept(env.graph, outer, leaf, 3);
  }

  lemma OneInputEach(store: VmState, first: VmState, next: VmState, outer: string, leaf: string, at: nat)
    requires store.asmop == Some(AsmOp("loc_store.3", leaf, 3, 3, None))
    requires first.asmop == Some(AsmOp("mul", leaf, 1, 2, Some(at)))
    requires next.asmop == Some(AsmOp("mul", outer, 1, 2, Some(at)))
    ensures SlotInputs([store, first, next]) == [Input.Stored(3), Context(leaf), Context(outer)]
  {
    hide LocStore;
    StoreThree();
    var stream := [store, first, next];
    assert Front(stream) == [store, first] && Front([store, first]) == [store] && Front([store]) == [];
    assert SlotInput(store) == [Input.Stored(3)];
    assert SlotInput(first) == [Context(leaf)] && SlotInput(next) == [Context(outer)];
    assert SlotInputs([store]) == [] + [Input.Stored(3)];
    assert SlotInputs([store, first]) == [Input.Stored(3)] + [Context(leaf)];
    assert SlotInputs(stream) == [Input.Stored(3), Context(leaf)] + [Context(outer)];
    assert [Input.Stored(3), Context(leaf)] + [Context(outer)] == [Input.Stored(3), Context(leaf), Context(outer)];
  }
}
