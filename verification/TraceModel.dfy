/**
 What the recorder makes of a stream of VM states: the trace it must write,
 composed from call inference, the step automaton, the two pending-value latches
 and the written-slot stack.
 */
module TraceModel {
  import opened Common
  import opened Ancestry
  import opened Text
  import opened CallInference
  import opened StepAutomaton
  import opened WrittenSlots
  import opened SourceMaps
  import Latch

  // ----- Input -----

  /** A Miden field element. */
  type Felt = f: nat | f < 0xFFFF_FFFF_0000_0001

  /** `as_int() as i64`: the upper half of the field reads as negative. */
  function AsI64(f: Felt): int {
    if f < 0x8000_0000_0000_0000 then f else f - U64_RANGE
  }

  /** Assembly-level info of a VM cycle: the `cycle`-th of the operation's `cycles`. */
  datatype AsmOp = AsmOp(op: string, context: string, cycle: nat, cycles: nat, location: Option<nat>)

  datatype VmState = VmState(asmop: Option<AsmOp>, stack: seq<Felt>, fmp: Felt, memory: seq<(nat, Felt)>)

  /** One item of the VM iterator. */
  datatype CycleResult = Ok(state: VmState) | Err(message: string)

  /** What the recorder knows statically about the program. */
  datatype Env = Env(source: seq<byte>, graph: Program, procLocals: map<string, nat>)

  // ----- Output -----

  datatype AdviceRead = AdvPush(count: nat, pushed: seq<int>) | AdvLoadw(word: seq<int>)

  datatype Variable = StackSlot(index: nat, value: int) | Word(elements: seq<int>) | Local(slot: nat, value: int)

  datatype Event =
    | Arg(index: nat, argument: int)
    | CallFn(fn: nat)
    | ReturnFn(result: Option<int>)
    | Step(line: nat)
    | Var(variable: Variable)
    | Read(read: AdviceRead)
    | VmError(message: string)

  /** An entry of the trace's function table: a name and the line it was registered at. */
  datatype Function = Function(name: string, line: nat)

  // ----- Operations -----

  predicate IsWordLoad(op: string) {
    op == "mem_loadw" || HasPrefix(op, "mem_loadw.") || op == "loc_loadw" || HasPrefix(op, "loc_loadw.")
  }

  function Operand(op: string, prefix: string): Option<nat> {
    match StripPrefix(op, prefix)
    case Some(rest) => ParseUnsigned(rest, 10, U32_RANGE)
    case None => None
  }

  function AdvPushCount(op: string): Option<nat> {
    Operand(op, "adv_push.")
  }

  function LocStore(op: string): Option<nat> {
    Operand(op, "loc_store.")
  }

  /** The top `n` operand-stack elements. */
  function Top(stack: seq<Felt>, n: nat): (values: seq<int>)
    requires n <= |stack|
    ensures |values| == n
    ensures forall i :: 0 <= i < n ==> values[i] == AsI64(stack[i])
  {
    seq(n, i requires 0 <= i < n => AsI64(stack[i]))
  }

  function Visible(stack: seq<Felt>): (n: nat)
    ensures n <= |stack| && n <= 4
  {
    if |stack| < 4 then |stack| else 4
  }

  /** The word a completed word load leaves on the stack. */
  function HarvestedWord(a: AsmOp, stack: seq<Felt>): Option<seq<int>> {
    if a.cycle == a.cycles && IsWordLoad(a.op) && |stack| >= 4 then Some(Top(stack, 4)) else None
  }

  /** The values a completed advice-tape operation lifted. */
  function HarvestedRead(a: AsmOp, stack: seq<Felt>): Option<AdviceRead> {
    if a.cycle != a.cycles then None
    else
      match AdvPushCount(a.op)
      case Some(n) => if |stack| >= n then Some(AdvPush(n, Top(stack, n))) else None
      case None => if a.op == "adv_loadw" && |stack| >= 4 then Some(AdvLoadw(Top(stack, 4))) else None
  }

  /** Only located first cycles are processed in full. */
  predicate Processed(vm: VmState) {
    vm.asmop.Some? && vm.asmop.value.cycle == 1 && vm.asmop.value.location.Some?
  }

  // ----- Local slots -----

  function NumLocals(env: Env, context: Option<string>): nat {
    if context.None? then 0
    else if context.value in env.procLocals then env.procLocals[context.value]
    else if BareName(context.value) in env.procLocals then env.procLocals[BareName(context.value)]
    else 0
  }

  /**
   The address of a local slot: `fmp - (numLocals - slot)`, in unsigned 64-bit
   arithmetic and truncated to 32 bits.
   */
  function LocalAddress(numLocals: nat, slot: nat, fmp: Felt): Option<nat> {
    var offset := (numLocals - slot) % U64_RANGE;
    if fmp < offset then None else Some((fmp - offset) % U32_RANGE)
  }

  function Lookup(memory: seq<(nat, Felt)>, address: nat): Option<Felt> {
    if memory == [] then None
    else if memory[0].0 == address then Some(memory[0].1)
    else Lookup(memory[1..], address)
  }

  function SlotValue(numLocals: nat, vm: VmState, slot: nat): Option<int> {
    match LocalAddress(numLocals, slot, vm.fmp)
    case None => None
    case Some(address) =>
      match Lookup(vm.memory, address)
      case None => None
      case Some(felt) => Some(AsI64(felt))
  }

  ghost predicate IsLeast(x: nat, s: set<nat>) {
    x in s && forall y :: y in s ==> x <= y
  }

  lemma {:induction false} LeastExists(s: set<nat>)
    requires s != {}
    ensures exists x :: IsLeast(x, s)
  {
    var x :| x in s;
    if s - {x} == {} {
      assert s == {x};
      assert IsLeast(x, s);
    } else {
      LeastExists(s - {x});
      var y :| IsLeast(y, s - {x});
      forall z | z in s ensures x <= z || y <= z { assert z == x || z in s - {x}; }
      assert IsLeast(if x < y then x else y, s);
    }
  }

  ghost function Least(s: set<nat>): (x: nat)
    requires s != {}
    ensures IsLeast(x, s)
  {
    LeastExists(s);
    var x :| IsLeast(x, s);
    x
  }

  /** The report of one slot, if its address holds a value. */
  function SlotReport(numLocals: nat, vm: VmState, slot: nat): (events: seq<Event>)
    ensures forall e :: e in events ==> e.Var? && e.variable.Local?
  {
    match SlotValue(numLocals, vm, slot)
    case Some(v) => [Var(Local(slot, v))]
    case None => []
  }

  /** `local[N]` for each slot that has a value, in ascending slot order. */
  ghost function SlotEvents(numLocals: nat, vm: VmState, slots: set<nat>): (events: seq<Event>)
    ensures forall e :: e in events ==> e.Var? && e.variable.Local?
  {
    if slots == {} then []
    else SlotReport(numLocals, vm, Least(slots)) + SlotEvents(numLocals, vm, slots - {Least(slots)})
  }

  ghost function LocalEvents(env: Env, context: Option<string>, slots: set<nat>, vm: VmState): (events: seq<Event>)
    ensures forall e :: e in events ==> e.Var? && e.variable.Local?
  {
    if slots == {} || NumLocals(env, context) == 0 then [] else SlotEvents(NumLocals(env, context), vm, slots)
  }

  // ----- The function table -----

  /** Each registered name with the id it was first given. */
  function Ids(table: seq<Function>): map<string, nat> {
    if table == [] then map[]
    else
      var ids := Ids(Front(table));
      if Last(table).name in ids then ids else ids[Last(table).name := |table| - 1]
  }

  function IdOf(table: seq<Function>, name: string): nat {
    if name in Ids(table) then Ids(table)[name] else |table|
  }

  function WithFunction(table: seq<Function>, name: string, line: nat): seq<Function> {
    if name in Ids(table) then table else table + [Function(name, line)]
  }

  function WithFunctions(table: seq<Function>, names: seq<string>, line: nat): seq<Function> {
    if names == [] then table
    else WithFunction(WithFunctions(table, Front(names), line), Last(names), line)
  }

  // ----- One VM state -----

  datatype State = State(
    shadow: Shadow,
    slots: SlotStack,
    steps: StepState,
    word: Option<seq<int>>,
    read: Option<AdviceRead>,
    lastTop: Option<int>,
    functions: seq<Function>,
    log: seq<Event>)

  function Start(table: seq<Function>): State {
    State(UNOBSERVED, [{}], NO_STEP, None, None, None, table, [])
  }

  function ArgEvents(stack: seq<Felt>, n: nat): (events: seq<Event>)
    requires n <= |stack|
    ensures forall e :: e in events ==> e.Arg?
  {
    if n == 0 then [] else ArgEvents(stack, n - 1) + [Arg(n - 1, AsI64(stack[n - 1]))]
  }

  predicate IsFrameEvent(e: Event) {
    e.Arg? || e.CallFn? || e.ReturnFn?
  }

  function MarkEvents(table: seq<Function>, m: Mark, stack: seq<Felt>, lastTop: Option<int>): (events: seq<Event>)
    ensures forall e :: e in events ==> IsFrameEvent(e)
  {
    match m
    case Enter(name, staged) =>
      (if staged then ArgEvents(stack, Visible(stack)) else []) + [CallFn(IdOf(table, name))]
    case Leave(valued) => [ReturnFn(if valued then lastTop else None)]
  }

  function FrameEvents(table: seq<Function>, marks: seq<Mark>, stack: seq<Felt>, lastTop: Option<int>): (events: seq<Event>)
    ensures forall e :: e in events ==> IsFrameEvent(e)
  {
    if marks == [] then []
    else FrameEvents(table, Front(marks), stack, lastTop) + MarkEvents(table, Last(marks), stack, lastTop)
  }

  function StepEvents(s: StepState, x: Located): (events: seq<Event>)
    ensures forall e :: e in events ==> e.Step?
  {
    if StepsHere(s, x) then [Step(x.line)] else []
  }

  function TopEvents(stack: seq<Felt>, n: nat): (events: seq<Event>)
    requires n <= |stack|
    ensures forall e :: e in events ==> e.Var? && e.variable.StackSlot?
  {
    if n == 0 then [] else TopEvents(stack, n - 1) + [Var(StackSlot(n - 1, AsI64(stack[n - 1])))]
  }

  /** The latches after a cycle's harvest. */
  function HeldWord(st: State, a: AsmOp, stack: seq<Felt>): Option<seq<int>> {
    if HarvestedWord(a, stack).Some? then HarvestedWord(a, stack) else st.word
  }

  function HeldRead(st: State, a: AsmOp, stack: seq<Felt>): Option<AdviceRead> {
    if HarvestedRead(a, stack).Some? then HarvestedRead(a, stack) else st.read
  }

  /** The pending word, else the live stack of a one-cycle word load. */
  function WordToEmit(held: Option<seq<int>>, a: AsmOp, stack: seq<Felt>): Option<seq<int>> {
    if held.Some? then held
    else if IsWordLoad(a.op) && a.cycles == 1 && |stack| >= 4 then Some(Top(stack, 4))
    else None
  }

  function WordEvents(word: Option<seq<int>>): (events: seq<Event>)
    ensures forall e :: e in events ==> e.Var? && e.variable.Word?
  {
    if word.Some? then [Var(Word(word.value))] else []
  }

  function ReadEvents(read: Option<AdviceRead>): (events: seq<Event>)
    ensures forall e :: e in events ==> e.Read?
  {
    if read.Some? then [Read(read.value)] else []
  }

  function LocationOf(env: Env, vm: VmState): Located
    requires Processed(vm)
  {
    Located(LineAt(env.source, vm.asmop.value.location.value), vm.asmop.value.op)
  }

  // The recorder's tables after observing a context.

  ghost function NextFunctions(g: Program, s: Shadow, functions: seq<Function>, context: string, line: nat): seq<Function> {
    if s.current == Some(context) then functions
    else
      var inlined := if s.current.None? then Observe(g, s, context).0.callers else [];
      WithFunctions(WithFunction(functions, context, line), inlined, line)
  }

  ghost function ContextSlots(g: Program, s: Shadow, slots: SlotStack, context: string): SlotStack {
    if s.current == Some(context) then slots else Resized(slots, |Observe(g, s, context).0.callers|)
  }

  ghost function ContextEvents(g: Program, s: Shadow, context: string, functions: seq<Function>,
                               stack: seq<Felt>, lastTop: Option<int>): (events: seq<Event>)
    ensures forall e :: e in events ==> IsFrameEvent(e)
  {
    FrameEvents(functions, Observe(g, s, context).1, stack, lastTop)
  }

  /** A completed `loc_store` marks its slot ... */
  function StoredSlots(slots: SlotStack, op: string): SlotStack {
    match LocStore(op)
    case Some(slot) => WithSlot(slots, slot)
    case None => slots
  }

  /** ... and reports the frame's slots again. */
  ghost function StoreEvents(env: Env, context: Option<string>, slots: SlotStack, op: string, vm: VmState): (events: seq<Event>)
    ensures forall e :: e in events ==> e.Var? && e.variable.Local?
  {
    match LocStore(op)
    case Some(slot) => LocalEvents(env, context, Last(WithSlot(slots, slot)), vm)
    case None => []
  }

  /** The event segments one processed state contributes, in order. */
  datatype Segments = Segments(frames: seq<Event>, step: seq<Event>, top: seq<Event>,
                               word: seq<Event>, read: seq<Event>, locals: seq<Event>)
  {
    function Joined(): seq<Event> {
      frames + step + top + word + read + locals
    }

    /** Each segment holds only its own kind of event. */
    ghost predicate Sorted() {
      && (forall e :: e in frames ==> IsFrameEvent(e))
      && (forall e :: e in step ==> e.Step?)
      && (forall e :: e in top ==> e.Var? && e.variable.StackSlot?)
      && (forall e :: e in word ==> e.Var? && e.variable.Word?)
      && (forall e :: e in read ==> e.Read?)
      && (forall e :: e in locals ==> e.Var? && e.variable.Local?)
    }
  }

  ghost function SegmentsOf(env: Env, st: State, vm: VmState): (s: Segments)
    requires Processed(vm)
    ensures s.Sorted()
  {
    var a, x := vm.asmop.value, LocationOf(env, vm);
    var slots := ContextSlots(env.graph, st.shadow, st.slots, a.context);
    var functions := NextFunctions(env.graph, st.shadow, st.functions, a.context, x.line);
    Segments(ContextEvents(env.graph, st.shadow, a.context, functions, vm.stack, st.lastTop),
             StepEvents(st.steps, x),
             TopEvents(vm.stack, Visible(vm.stack)),
             WordEvents(WordToEmit(HeldWord(st, a, vm.stack), a, vm.stack)),
             ReadEvents(HeldRead(st, a, vm.stack)),
             LocalEvents(env, Some(a.context), Last(slots), vm)
             + (if a.cycles == 1 then StoreEvents(env, Some(a.context), slots, a.op, vm) else []))
  }

  ghost function Process(env: Env, st: State, vm: VmState): State
    requires Processed(vm)
  {
    var a, x := vm.asmop.value, LocationOf(env, vm);
    var slots := ContextSlots(env.graph, st.shadow, st.slots, a.context);
    State(Observe(env.graph, st.shadow, a.context).0,
          if a.cycles == 1 then StoredSlots(slots, a.op) else slots,
          NextStep(st.steps, x),
          None,
          None,
          if vm.stack == [] then None else Some(AsI64(vm.stack[0])),
          NextFunctions(env.graph, st.shadow, st.functions, a.context, x.line),
          st.log + SegmentsOf(env, st, vm).Joined())
  }

  /** A multi-cycle store takes effect at its last cycle. */
  predicate StoresLate(a: AsmOp) {
    a.cycle == a.cycles && a.cycle != 1
  }

  /** A state that is not processed still harvests, and may complete a store. */
  ghost function Skip(env: Env, st: State, vm: VmState): State
    requires vm.asmop.Some?
  {
    var a := vm.asmop.value;
    st.(word := HeldWord(st, a, vm.stack),
        read := HeldRead(st, a, vm.stack),
        slots := if StoresLate(a) then StoredSlots(st.slots, a.op) else st.slots,
        log := st.log + (if StoresLate(a) then StoreEvents(env, st.shadow.current, st.slots, a.op, vm) else []))
  }

  /** The effect of one VM state on the recorder. */
  ghost function Cycle(env: Env, st: State, vm: VmState): State {
    if vm.asmop.None? then st
    else if Processed(vm) then Process(env, st, vm)
    else Skip(env, st, vm)
  }

  ghost function Run(env: Env, table: seq<Function>, stream: seq<VmState>): State {
    if stream == [] then Start(table) else Cycle(env, Run(env, table, Front(stream)), Last(stream))
  }

  /** The end of the trace: report a VM error, then close every frame. */
  function Finish(st: State, error: Option<string>): State {
    st.(log := st.log + (if error.Some? then [VmError(error.value)] else [])
               + FrameEvents(st.functions, Drain(st.shadow), [], None))
  }

  /** The VM states before the iterator's first error. */
  function Consumed(results: seq<CycleResult>): seq<VmState> {
    if results == [] || results[0].Err? then [] else [results[0].state] + Consumed(results[1..])
  }

  function FirstError(results: seq<CycleResult>): Option<string> {
    if results == [] then None
    else if results[0].Err? then Some(results[0].message)
    else FirstError(results[1..])
  }

  /** The whole trace of a VM run. */
  ghost function Trace(env: Env, table: seq<Function>, results: seq<CycleResult>): State {
    Finish(Run(env, table, Consumed(results)), FirstError(results))
  }

  /**
   The function table before the run: every declared procedure under its
   runtime name, in some order, registered at line 1.
   */
  ghost predicate IsPreRegistration(env: Env, table: seq<Function>) {
    && (forall f :: f in table ==> f.line == 1)
    && (forall name :: name in Ids(table) <==> exists p :: p in env.procLocals && name == "#exec::" + p)
    && DistinctNames(table)
  }

  ghost predicate DistinctNames(table: seq<Function>) {
    forall i, j :: 0 <= i < j < |table| ==> table[i].name != table[j].name
  }
}
