/**
 The local slots on the log: which, in what order, and from which memory cell.
 Default induction over streams is off where it only costs.
 */
module LogLocals {
  import opened Common
  import opened Text
  import opened CallInference
  import opened WrittenSlots
  import opened TraceModel
  import opened TraceTheorems
  import opened LogContents

  // ----- Cells -----

  /** Entry `i` is the first of the memory with that address. */
  ghost predicate FirstEntry(memory: seq<(nat, Felt)>, address: nat, i: nat) {
    && i < |memory| && memory[i].0 == address
    && forall j :: 0 <= j < i ==> memory[j].0 != address
  }

  /** Slot `slot` of a frame with `n` slots lies `n - slot` below the frame pointer. */
  function CellAddress(fmp: nat, n: nat, slot: nat): nat
    requires slot <= n <= fmp + slot
  {
    (fmp - n + slot) % 0x1_0000_0000
  }

  /** The slot has a cell, and its first memory entry holds `v`. */
  ghost predicate CellHolds(vm: VmState, n: nat, slot: nat, v: int) {
    && slot <= n <= vm.fmp + slot
    && exists i: nat :: FirstEntry(vm.memory, CellAddress(vm.fmp, n, slot), i) && IsSigned(v, vm.memory[i].1)
  }

  lemma {:induction false} LookupIsFirst(memory: seq<(nat, Felt)>, address: nat, f: Felt)
    ensures Lookup(memory, address) == Some(f) <==> exists i: nat :: FirstEntry(memory, address, i) && memory[i].1 == f
  {
    if memory != [] {
      LookupIsFirst(memory[1..], address, f);
      if memory[0].0 == address {
        assert FirstEntry(memory, address, 0);
        assert forall i: nat :: FirstEntry(memory, address, i) ==> i == 0;
      } else {
        assert forall i: nat :: i < |memory[1..]| ==> memory[1..][i] == memory[i + 1];
        forall i: nat ensures FirstEntry(memory, address, i + 1) <==> FirstEntry(memory[1..], address, i) {
          EntryShift(memory, address, i);
        }
        if i: nat :| FirstEntry(memory, address, i) && memory[i].1 == f {
          assert i > 0 && FirstEntry(memory, address, (i - 1) + 1);
          assert FirstEntry(memory[1..], address, i - 1);
        }
        if i: nat :| FirstEntry(memory[1..], address, i) && memory[1..][i].1 == f {
          assert FirstEntry(memory, address, i + 1);
        }
      }
    }
  }

  lemma EntryShift(memory: seq<(nat, Felt)>, address: nat, i: nat)
    requires memory != [] && memory[0].0 != address
    ensures FirstEntry(memory, address, i + 1) <==> FirstEntry(memory[1..], address, i)
  {
    assert forall j :: 0 <= j < |memory[1..]| ==> memory[1..][j] == memory[j + 1];
    if FirstEntry(memory[1..], address, i) {
      forall j | 0 <= j < i + 1 ensures memory[j].0 != address {
        assert j > 0 ==> memory[1..][j - 1] == memory[j];
      }
    }
    if FirstEntry(memory, address, i + 1) {
      forall j | 0 <= j < i ensures memory[1..][j].0 != address {
        assert memory[j + 1].0 != address;
      }
    }
  }

  /** The recorder's address arithmetic, wrapping included, reads exactly that cell. */
  lemma SlotReadsItsCell(vm: VmState, n: nat, slot: nat, v: int)
    requires n < 0x1_0000 && slot < 0x1_0000_0000
    ensures SlotValue(n, vm, slot) == Some(v) <==> CellHolds(vm, n, slot, v)
  {
    hide Lookup, IsSigned, AsI64;
    AddressIsCell(n, slot, vm.fmp);
    var address := LocalAddress(n, slot, vm.fmp);
    if address.Some? {
      var found := Lookup(vm.memory, address.value);
      if found.Some? {
        LookupIsFirst(vm.memory, address.value, found.value);
        SignedValue(found.value, v);
        var i: nat :| FirstEntry(vm.memory, address.value, i) && vm.memory[i].1 == found.value;
        FirstUnique(vm.memory, address.value, i);
      } else {
        NoEntry(vm.memory, address.value);
      }
    }
  }

  lemma FirstUnique(memory: seq<(nat, Felt)>, address: nat, i: nat)
    requires FirstEntry(memory, address, i)
    ensures forall j: nat :: FirstEntry(memory, address, j) ==> j == i
  {
  }

  lemma NoEntry(memory: seq<(nat, Felt)>, address: nat)
    requires Lookup(memory, address) == None
    ensures forall i: nat :: !FirstEntry(memory, address, i)
  {
    hide Lookup;
    forall i: nat ensures !FirstEntry(memory, address, i) {
      if FirstEntry(memory, address, i) {
        LookupIsFirst(memory, address, memory[i].1);
      }
    }
  }

  lemma AddressIsCell(n: nat, slot: nat, fmp: Felt)
    requires n < 0x1_0000 && slot < 0x1_0000_0000
    ensures LocalAddress(n, slot, fmp) == if slot <= n <= fmp + slot then Some(CellAddress(fmp, n, slot)) else None
  {
    if slot <= n {
      assert (n - slot) % U64_RANGE == n - slot;
      assert fmp - (n - slot) == fmp - n + slot;
    } else {
      assert (n - slot) % U64_RANGE == U64_RANGE + n - slot;
    }
  }

  lemma ShiftedDiffers(x: nat, d: nat)
    requires 0 < d < 0x1_0000_0000
    ensures x % 0x1_0000_0000 != (x + d) % 0x1_0000_0000
  {
  }

  /** Two slots of a frame never share a cell. */
  lemma CellsAreDistinct(fmp: nat, n: nat, a: nat, b: nat)
    requires n < 0x1_0000 && n <= fmp && a < b <= n
    ensures CellAddress(fmp, n, a) != CellAddress(fmp, n, b)
  {
    var x := fmp - n + a;
    ShiftedDiffers(x, b - a);
    assert fmp - n + b == x + (b - a);
  }

  // ----- Reports -----

  function LocalOf(e: Event): Option<(nat, int)> {
    if e.Var? && e.variable.Local? then Some((e.variable.slot, e.variable.value)) else None
  }

  /** The local count of a context: by its full name, else by its bare name, else none. */
  ghost predicate IsLocalCount(env: Env, context: Option<string>, n: nat) {
    if context.None? then n == 0
    else if context.value in env.procLocals then n == env.procLocals[context.value]
    else if BareName(context.value) in env.procLocals then n == env.procLocals[BareName(context.value)]
    else n == 0
  }

  /** The slots `own` that have a cell with a value, each once and in ascending order. */
  ghost predicate IsReport(cells: seq<(nat, int)>, vm: VmState, n: nat, own: iset<nat>) {
    && (forall i, j :: 0 <= i < j < |cells| ==> cells[i].0 < cells[j].0)
    && (forall slot: nat, v: int :: (slot, v) in cells <==> n != 0 && slot in own && CellHolds(vm, n, slot, v))
  }

  /** A `loc_store.N` of slot `k`. */
  ghost predicate StoresSlot(a: AsmOp, k: nat) {
    NumbersOp(a.op, "loc_store.", k)
  }

  lemma {:induction false} LocalsOfEvents(events: seq<Event>)
    requires forall e :: e in events ==> e.Var? && e.variable.Local?
    ensures var cells := Project(LocalOf, events);
            |cells| == |events| && forall i :: 0 <= i < |events| ==> cells[i] == (events[i].variable.slot, events[i].variable.value)
  {
    if events != [] {
      assert Last(events) in events && forall e :: e in Front(events) ==> e in events;
      LocalsOfEvents(Front(events));
      assert LocalOf(Last(events)).Some?;
    }
  }

  lemma LocalsReport(env: Env, context: Option<string>, n: nat, slots: set<nat>, vm: VmState, own: iset<nat>)
    requires IsLocalCount(env, context, n) && n < 0x1_0000
    requires (forall slot: nat :: slot in own <==> slot in slots) && forall slot: nat :: slot in slots ==> slot < 0x1_0000_0000
    ensures IsReport(Project(LocalOf, LocalEvents(env, context, slots, vm)), vm, n, own)
  {
    hide Project, SlotValue, CellHolds, SlotEvents;
    var events := LocalEvents(env, context, slots, vm);
    var cells := Project(LocalOf, events);
    LocalsOfEvents(events);
    assert n == NumLocals(env, context);
    forall slot: nat, v: int ensures (slot, v) in cells <==> n != 0 && slot in own && CellHolds(vm, n, slot, v) {
      CellInReport(env, context, n, slots, vm, slot, v, events, cells);
    }
    if slots != {} && n != 0 {
      SlotEventsAscend(n, vm, slots);
    }
  }

  lemma CellInReport(env: Env, context: Option<string>, n: nat, slots: set<nat>, vm: VmState, slot: nat, v: int,
                     events: seq<Event>, cells: seq<(nat, int)>)
    requires n == NumLocals(env, context) && n < 0x1_0000 && events == LocalEvents(env, context, slots, vm)
    requires forall s: nat :: s in slots ==> s < 0x1_0000_0000
    requires |cells| == |events| && forall i :: 0 <= i < |events| ==> cells[i] == (events[i].variable.slot, events[i].variable.value)
    ensures (slot, v) in cells <==> n != 0 && slot in slots && CellHolds(vm, n, slot, v)
  {
    hide SlotValue, CellHolds, LocalEvents;
    LocalInReport(env, context, slots, vm, slot, v);
    if slot in slots {
      SlotReadsItsCell(vm, n, slot, v);
    }
    if (slot, v) in cells {
      var i :| 0 <= i < |cells| && cells[i] == (slot, v);
      assert events[i] == Var(Local(slot, v)) && events[i] in events;
    }
    if Var(Local(slot, v)) in events {
      var i :| 0 <= i < |events| && events[i] == Var(Local(slot, v));
      assert cells[i] in cells;
    }
  }

  // ----- The slots are 32-bit numbers -----

  ghost predicate SlotsFit(slots: SlotStack) {
    forall i: nat, slot: nat :: 0 <= i < |slots| && slot in slots[i] ==> slot < 0x1_0000_0000
  }

  lemma OperandFits(op: string)
    ensures LocStore(op).Some? ==> LocStore(op).value < 0x1_0000_0000
  {
  }

  lemma StoredFits(slots: SlotStack, op: string)
    requires SlotsFit(slots)
    ensures SlotsFit(StoredSlots(slots, op))
  {
    hide LocStore;
    OperandFits(op);
  }

  lemma ResizedFits(slots: SlotStack, depth: nat)
    requires SlotsFit(slots)
    ensures SlotsFit(Resized(slots, depth))
  {
  }

  lemma {:induction false} RunSlotsFit(env: Env, table: seq<Function>, stream: seq<VmState>)
    ensures SlotsFit(Run(env, table, stream).slots)
  {
    hide SlotsFit, Resized, StoredSlots, Observe, SegmentsOf, StoreEvents, HeldWord, HeldRead, NextFunctions;
    if stream == [] {
      assert SlotsFit([{}]) by { NothingFits(); }
    } else {
      RunSlotsFit(env, table, Front(stream));
      var st, vm := Run(env, table, Front(stream)), Last(stream);
      if vm.asmop.Some? {
        var a := vm.asmop.value;
        ResizedFits(st.slots, |Observe(env.graph, st.shadow, a.context).0.callers|);
        StoredFits(st.slots, a.op);
        StoredFits(ContextSlots(env.graph, st.shadow, st.slots, a.context), a.op);
      }
    }
  }

  lemma NothingFits()
    ensures SlotsFit([{}])
  {
  }

  // ----- The slots of each state -----

  /** The current context's own slots after `stream`. */
  ghost function OwnSlots(env: Env, table: seq<Function>, stream: seq<VmState>): iset<nat> {
    iset slot: nat | IsOwn(Run(env, table, stream).shadow, SlotHistory(env, stream), slot)
  }

  /** Its own slots before the store that is the last thing in the history. */
  ghost function OwnBeforeStore(env: Env, table: seq<Function>, stream: seq<VmState>): iset<nat> {
    var h := SlotHistory(env, stream);
    iset slot: nat | h != [] && IsOwn(Run(env, table, stream).shadow, Front(h), slot)
  }

  lemma {:induction false} OwnAreTop(env: Env, table: seq<Function>, stream: seq<VmState>)
    ensures forall slot: nat :: slot in OwnSlots(env, table, stream) <==> slot in Last(Run(env, table, stream).slots)
  {
    hide IsOwn, Run, SlotHistory;
    forall slot: nat ensures slot in OwnSlots(env, table, stream) <==> slot in Last(Run(env, table, stream).slots) {
      ReportedSlotsAreOwn(env, table, stream, slot);
    }
  }

  lemma StoreIsNumbered(a: AsmOp, k: nat)
    ensures StoresSlot(a, k) <==> LocStore(a.op) == Some(k)
  {
    OperandIsNumber(a.op, "loc_store.", k);
  }

  /** A state that stores nothing at once: one report, or none. */
  ghost predicate ReportsOnce(vm: VmState) {
    vm.asmop.Some? &&
    var a := vm.asmop.value;
    if FirstLocated(vm) then a.cycles != 1 || forall k: nat :: !StoresSlot(a, k)
    else a.cycle == a.cycles && a.cycle != 1 && exists k: nat :: StoresSlot(a, k)
  }

  /** A located one-cycle store: a report before it and one after. */
  ghost predicate ReportsTwice(vm: VmState) {
    FirstLocated(vm) && vm.asmop.value.cycles == 1 && exists k: nat :: StoresSlot(vm.asmop.value, k)
  }

  lemma ProcessedSlots(env: Env, st: State, vm: VmState)
    requires Processed(vm)
    ensures var a, now := vm.asmop.value, Cycle(env, st, vm);
            var slots := ContextSlots(env.graph, st.shadow, st.slots, a.context);
            && now.shadow.current == Some(a.context)
            && now.slots == (if a.cycles == 1 then StoredSlots(slots, a.op) else slots)
            && SegmentsOf(env, st, vm).locals == LocalEvents(env, Some(a.context), Last(slots), vm)
                 + (if a.cycles == 1 then StoreEvents(env, Some(a.context), slots, a.op, vm) else [])
  {
    hide Observe, StoreEvents, LocalEvents, StoredSlots, ContextSlots, NextFunctions, ContextEvents, StepEvents, TopEvents,
         WordEvents, ReadEvents, HeldWord, HeldRead, WordToEmit;
    ObserveChangesContext(env.graph, st.shadow, vm.asmop.value.context);
  }

  lemma LocalsOfAdded(env: Env, table: seq<Function>, stream: seq<VmState>, vm: VmState)
    ensures var st := Run(env, table, stream);
            Project(LocalOf, Added(env, table, stream, vm)) ==
              if Processed(vm) then Project(LocalOf, SegmentsOf(env, st, vm).locals)
              else if vm.asmop.Some? && StoresLate(vm.asmop.value)
              then Project(LocalOf, StoreEvents(env, st.shadow.current, st.slots, vm.asmop.value.op, vm))
              else []
  {
    hide Project, SegmentsOf, StoreEvents, Run, HeldWord, HeldRead, StoredSlots;
    var st := Run(env, table, stream);
    RunStep(env, table, stream, vm);
    AddedBy(env, st, vm);
    if Processed(vm) {
      ProjectLocals(LocalOf, SegmentsOf(env, st, vm));
    } else {
      ProjectNone(LocalOf, []);
    }
  }

  /**
   The slots on the log, state by state: every located first cycle reports the
   current context's own slots, a one-cycle store once more with its slot, and
   a longer store at its last cycle; no other state reports any.
   */
  lemma {:induction false} LocalsOnLog(env: Env, table: seq<Function>, stream: seq<VmState>, vm: VmState, n: nat)
    requires IsLocalCount(env, Run(env, table, stream + [vm]).shadow.current, n) && n < 0x1_0000
    ensures var cells := Project(LocalOf, Added(env, table, stream, vm));
            var own := OwnSlots(env, table, stream + [vm]);
            && (ReportsOnce(vm) ==> IsReport(cells, vm, n, own))
            && (ReportsTwice(vm) ==>
                  exists a, b :: cells == a + b && IsReport(a, vm, n, OwnBeforeStore(env, table, stream + [vm])) && IsReport(b, vm, n, own))
            && (!ReportsOnce(vm) && !ReportsTwice(vm) ==> cells == [])
  {
    hide Project, IsReport, Run, Cycle, StoreEvents, LocalEvents, OwnSlots, OwnBeforeStore, StoresSlot, LocStore, SegmentsOf;
    var all := stream + [vm];
    LocalsOfAdded(env, table, stream, vm);
    if vm.asmop.Some? {
      StoreOrNot(vm.asmop.value);
      if Processed(vm) {
        if vm.asmop.value.cycles == 1 && LocStore(vm.asmop.value.op).Some? {
          TwoReports(env, table, stream, vm, n);
        } else {
          OneReport(env, table, stream, vm, n);
        }
      } else if StoresLate(vm.asmop.value) {
        if LocStore(vm.asmop.value.op).Some? {
          LateReport(env, table, stream, vm, n);
        } else {
          NoReport(env, Run(env, table, stream), vm);
        }
      }
    }
  }

  lemma StoreOrNot(a: AsmOp)
    ensures (exists k: nat :: StoresSlot(a, k)) <==> LocStore(a.op).Some?
  {
    hide StoresSlot, LocStore;
    forall k: nat ensures StoresSlot(a, k) <==> LocStore(a.op) == Some(k) {
      StoreIsNumbered(a, k);
    }
    if LocStore(a.op).Some? {
      assert StoresSlot(a, LocStore(a.op).value);
    }
  }

  lemma NoReport(env: Env, st: State, vm: VmState)
    requires vm.asmop.Some? && LocStore(vm.asmop.value.op).None?
    ensures Project(LocalOf, StoreEvents(env, st.shadow.current, st.slots, vm.asmop.value.op, vm)) == []
  {
    hide LocStore;
  }

  lemma TopFits(slots: SlotStack)
    requires SlotsFit(slots)
    ensures forall slot: nat :: slot in Last(slots) ==> slot < 0x1_0000_0000
  {
  }

  lemma OneReport(env: Env, table: seq<Function>, stream: seq<VmState>, vm: VmState, n: nat)
    requires IsLocalCount(env, Run(env, table, stream + [vm]).shadow.current, n) && n < 0x1_0000
    requires Processed(vm) && (vm.asmop.value.cycles != 1 || LocStore(vm.asmop.value.op).None?)
    ensures IsReport(Project(LocalOf, SegmentsOf(env, Run(env, table, stream), vm).locals), vm, n, OwnSlots(env, table, stream + [vm]))
  {
    hide Project, IsReport, Run, Cycle, LocalEvents, OwnSlots, LocStore, SegmentsOf, SlotsFit, ContextSlots, IsLocalCount;
    var st, a := Run(env, table, stream), vm.asmop.value;
    RunStep(env, table, stream, vm);
    ProcessedSlots(env, st, vm);
    var slots := ContextSlots(env.graph, st.shadow, st.slots, a.context);
    var events := LocalEvents(env, Some(a.context), Last(slots), vm);
    assert events + [] == events;
    assert Run(env, table, stream + [vm]).slots == slots;
    RunSlotsFit(env, table, stream + [vm]);
    TopFits(slots);
    OwnAreTop(env, table, stream + [vm]);
    LocalsReport(env, Some(a.context), n, Last(slots), vm, OwnSlots(env, table, stream + [vm]));
  }

  lemma LateReport(env: Env, table: seq<Function>, stream: seq<VmState>, vm: VmState, n: nat)
    requires IsLocalCount(env, Run(env, table, stream + [vm]).shadow.current, n) && n < 0x1_0000
    requires vm.asmop.Some? && !Processed(vm) && StoresLate(vm.asmop.value) && LocStore(vm.asmop.value.op).Some?
    ensures IsReport(Project(LocalOf, StoreEvents(env, Run(env, table, stream).shadow.current, Run(env, table, stream).slots, vm.asmop.value.op, vm)),
                     vm, n, OwnSlots(env, table, stream + [vm]))
  {
    hide Project, IsReport, Run, LocalEvents, OwnSlots, LocStore, SegmentsOf, SlotsFit, IsLocalCount, HeldWord, HeldRead;
    var st, now := Run(env, table, stream), Run(env, table, stream + [vm]);
    RunStep(env, table, stream, vm);
    RunSlotsFit(env, table, stream + [vm]);
    TopFits(now.slots);
    OwnAreTop(env, table, stream + [vm]);
    LocalsReport(env, now.shadow.current, n, Last(now.slots), vm, OwnSlots(env, table, stream + [vm]));
  }

  lemma TwoReports(env: Env, table: seq<Function>, stream: seq<VmState>, vm: VmState, n: nat)
    requires IsLocalCount(env, Run(env, table, stream + [vm]).shadow.current, n) && n < 0x1_0000
    requires Processed(vm) && vm.asmop.value.cycles == 1 && LocStore(vm.asmop.value.op).Some?
    ensures exists a, b :: Project(LocalOf, SegmentsOf(env, Run(env, table, stream), vm).locals) == a + b
              && IsReport(a, vm, n, OwnBeforeStore(env, table, stream + [vm])) && IsReport(b, vm, n, OwnSlots(env, table, stream + [vm]))
  {
    hide Project, IsReport, Run, Cycle, LocalEvents, OwnSlots, OwnBeforeStore, LocStore, SegmentsOf, SlotsFit, ContextSlots, IsLocalCount, Resized;
    var st, op := Run(env, table, stream), vm.asmop.value.op;
    var context := Some(vm.asmop.value.context);
    RunStep(env, table, stream, vm);
    ProcessedSlots(env, st, vm);
    var slots := ContextSlots(env.graph, st.shadow, st.slots, context.value);
    var first, second := LocalEvents(env, context, Last(slots), vm), LocalEvents(env, context, Last(StoredSlots(slots, op)), vm);
    ProjectConcat(LocalOf, first, second);
    RunSlotsFit(env, table, stream + [vm]);
    TopFits(StoredSlots(slots, op));
    FewerFit(slots, op);
    OwnAreTop(env, table, stream + [vm]);
    OwnBefore(env, table, stream, vm);
    LocalsReport(env, context, n, Last(slots), vm, OwnBeforeStore(env, table, stream + [vm]));
    LocalsReport(env, context, n, Last(StoredSlots(slots, op)), vm, OwnSlots(env, table, stream + [vm]));
  }

  lemma FewerFit(slots: SlotStack, op: string)
    ensures forall slot: nat :: slot in Last(slots) ==> slot in Last(StoredSlots(slots, op))
  {
    hide LocStore;
  }

  lemma OwnBefore(env: Env, table: seq<Function>, stream: seq<VmState>, vm: VmState)
    requires Processed(vm) && vm.asmop.value.cycles == 1 && LocStore(vm.asmop.value.op).Some?
    ensures var st := Run(env, table, stream);
            var slots := ContextSlots(env.graph, st.shadow, st.slots, vm.asmop.value.context);
            forall slot: nat :: slot in OwnBeforeStore(env, table, stream + [vm]) <==> slot in Last(slots)
  {
    hide IsOwn, Run, LocStore, Observe, Resized, SlotsAfter;
    var g, st, a := env.graph, Run(env, table, stream), vm.asmop.value;
    var inputs, k := SlotInputs(stream), LocStore(a.op).value;
    var seen := inputs + [Context(a.context)];
    InputsOfStore(stream, vm);
    RunSlots(env, table, stream);
    RunSlots(env, table, stream + [vm]);
    SlotsAfterConcat(g, inputs, Context(a.context));
    SlotsAfterConcat(g, seen, Input.Stored(k));
    ObserveChangesContext(g, st.shadow, a.context);
    var r := SlotsAfter(g, seen);
    var h := SlotHistory(env, stream + [vm]);
    assert h == r.history + [Store(k)] && Front(h) == r.history;
    forall slot: nat ensures slot in OwnBeforeStore(env, table, stream + [vm]) <==> slot in Last(r.slots) {
      TopSlotsAreOwned(g, seen, slot);
    }
  }

  lemma InputsOfStore(stream: seq<VmState>, vm: VmState)
    requires Processed(vm) && vm.asmop.value.cycles == 1 && LocStore(vm.asmop.value.op).Some?
    ensures SlotInputs(stream + [vm]) ==
            SlotInputs(stream) + [Context(vm.asmop.value.context)] + [Input.Stored(LocStore(vm.asmop.value.op).value)]
  {
    hide LocStore;
    assert Front(stream + [vm]) == stream;
  }
}
