/**
 The pending-value latch: a value harvested at the last cycle of an operation
 and emitted at the next processed cycle. The recorder has two of them, one for
 loaded words and one for advice-tape reads.
 */
module Latch {
  import opened Common

  /** One VM cycle as a latch sees it: a harvest comes first, then the drain. */
  datatype Tick<+T> = Tick(harvest: Option<T>, drain: bool)

  /** The latch after one cycle, and what it emitted. */
  function Advance<T>(pending: Option<T>, t: Tick<T>): (Option<T>, seq<T>) {
    var held := if t.harvest.Some? then t.harvest else pending;
    if t.drain && held.Some? then (None, [held.value]) else (held, [])
  }

  function AdvanceAll<T>(pending: Option<T>, ticks: seq<Tick<T>>): (Option<T>, seq<T>) {
    if ticks == [] then (pending, [])
    else
      var (held, out) := AdvanceAll(pending, Front(ticks));
      var (held', more) := Advance(held, Last(ticks));
      (held', out + more)
  }

  /** A drain comes at or after index 0 with no harvest in between. */
  ghost predicate DrainedFirst<T>(ticks: seq<Tick<T>>) {
    exists u :: 0 <= u < |ticks| && ticks[u].drain && forall v :: 0 < v <= u ==> ticks[v].harvest.None?
  }

  /** The harvested values that are drained before another harvest replaces them, in order. */
  ghost function Delivered<T>(ticks: seq<Tick<T>>): seq<T> {
    if ticks == [] then []
    else
      (if ticks[0].harvest.Some? && DrainedFirst(ticks) then [ticks[0].harvest.value] else [])
      + Delivered(ticks[1..])
  }

  lemma {:induction false} AdvanceAllFromFirst<T>(pending: Option<T>, ticks: seq<Tick<T>>)
    requires ticks != []
    ensures var (held, out) := Advance(pending, ticks[0]);
            var (held', more) := AdvanceAll(held, ticks[1..]);
            AdvanceAll(pending, ticks) == (held', out + more)
  {
    if |ticks| == 1 {
      assert Front(ticks) == [] && ticks[1..] == [];
      var (held, out) := Advance(pending, ticks[0]);
      assert [] + out == out + [];
    } else {
      AdvanceAllFromFirst(pending, Front(ticks));
      assert Front(ticks)[1..] == Front(ticks[1..]);
      var (held, out) := Advance(pending, ticks[0]);
      var (mid, more) := AdvanceAll(held, Front(ticks[1..]));
      var (end, last) := Advance(mid, Last(ticks));
      assert (out + more) + last == out + (more + last);
    }
  }

  lemma DrainedNow<T>(ticks: seq<Tick<T>>)
    requires ticks != [] && ticks[0].drain
    ensures DrainedFirst(ticks)
  {
  }

  lemma DrainedLater<T>(ticks: seq<Tick<T>>)
    requires |ticks| >= 1 && !ticks[0].drain
    ensures DrainedFirst(ticks) <==> |ticks| >= 2 && ticks[1].harvest.None? && DrainedFirst(ticks[1..])
  {
    if DrainedFirst(ticks) {
      var u :| 0 <= u < |ticks| && ticks[u].drain && forall v :: 0 < v <= u ==> ticks[v].harvest.None?;
      assert ticks[1..][u - 1].drain;
    }
    if |ticks| >= 2 && ticks[1].harvest.None? && DrainedFirst(ticks[1..]) {
      var rest := ticks[1..];
      var u :| 0 <= u < |rest| && rest[u].drain && forall v :: 0 < v <= u ==> rest[v].harvest.None?;
      assert ticks[u + 1].drain;
      forall v | 0 < v <= u + 1 ensures ticks[v].harvest.None? {
        if v > 1 {
          assert rest[v - 1].harvest.None?;
        }
      }
    }
  }

  /** A value already pending is emitted first, if a drain finds it before a harvest does. */
  lemma {:induction false} EmitsDelivered<T>(pending: Option<T>, ticks: seq<Tick<T>>)
    ensures AdvanceAll(pending, ticks).1 ==
            (if pending.Some? && ticks != [] && ticks[0].harvest.None? && DrainedFirst(ticks) then [pending.value] else [])
            + Delivered(ticks)
    decreases |ticks|
  {
    if ticks != [] {
      var (held, out) := Advance(pending, ticks[0]);
      var rest := ticks[1..];
      AdvanceAllFromFirst(pending, ticks);
      EmitsDelivered(held, rest);
      var emitted := AdvanceAll(held, rest).1;
      assert AdvanceAll(pending, ticks).1 == out + emitted;
      if ticks[0].drain {
        assert DrainedFirst(ticks) by { assert ticks[0].drain; }
        assert emitted == Delivered(rest) by { assert [] + Delivered(rest) == Delivered(rest); }
      } else {
        DrainedLater(ticks);
        assert out + emitted == emitted;
      }
    }
  }

  /**
   For every cycle stream, what the latch emits is exactly the harvested values
   that meet a drain before the next harvest, each once and in order.
   */
  lemma EmissionClosedForm<T>(ticks: seq<Tick<T>>)
    ensures AdvanceAll(None, ticks).1 == Delivered(ticks)
  {
    EmitsDelivered(None, ticks);
    assert [] + Delivered(ticks) == Delivered(ticks);
  }

  // ----- Complete operations -----

  /** An operation run to completion: its cycle count and the value its last cycle yields, if any. */
  datatype Operation<+T> = Operation(cycles: nat, load: Option<T>)

  function CyclesOf<T>(o: Operation<T>): seq<Tick<T>>
  {
    if o.cycles == 1 then [Tick(o.load, true)]
    else if o.cycles == 0 then []
    else [Tick(None, true)] + seq(o.cycles - 2, i => Tick(None, false)) + [Tick(o.load, false)]
  }

  function CyclesOfAll<T>(ops: seq<Operation<T>>): seq<Tick<T>> {
    if ops == [] then [] else CyclesOf(ops[0]) + CyclesOfAll(ops[1..])
  }

  /**
   The load of `ops[0]` reaches the trace: either it completes in its only
   cycle, or an operation follows that is not itself a one-cycle load.
   */
  predicate FirstDelivered<T>(ops: seq<Operation<T>>)
    requires ops != []
  {
    ops[0].cycles == 1 || (|ops| >= 2 && !(ops[1].cycles == 1 && ops[1].load.Some?))
  }

  function DeliveredLoads<T>(ops: seq<Operation<T>>): seq<T> {
    if ops == [] then []
    else (if ops[0].load.Some? && FirstDelivered(ops) then [ops[0].load.value] else []) + DeliveredLoads(ops[1..])
  }

  function Loads<T>(ops: seq<Operation<T>>): seq<T> {
    if ops == [] then []
    else (if ops[0].load.Some? then [ops[0].load.value] else []) + Loads(ops[1..])
  }

  /** Ticks without a harvest add nothing to what is delivered after them. */
  lemma {:induction false} SkipQuiet<T>(quiet: seq<Tick<T>>, rest: seq<Tick<T>>)
    requires forall t :: t in quiet ==> t.harvest.None?
    ensures Delivered(quiet + rest) == Delivered(rest)
  {
    if quiet == [] {
      assert quiet + rest == rest;
    } else {
      assert quiet[0] in quiet;
      assert (quiet + rest)[1..] == quiet[1..] + rest;
      SkipQuiet(quiet[1..], rest);
    }
  }

  lemma LastCycleDelivered<T>(load: Option<T>, ops: seq<Operation<T>>)
    requires forall o :: o in ops ==> o.cycles >= 1
    ensures DrainedFirst([Tick(load, false)] + CyclesOfAll(ops)) <==>
            ops != [] && !(ops[0].cycles == 1 && ops[0].load.Some?)
  {
    var ticks := [Tick(load, false)] + CyclesOfAll(ops);
    DrainedLater(ticks);
    assert ticks[1..] == CyclesOfAll(ops);
    if ops != [] {
      assert ops[0] in ops;
      assert CyclesOfAll(ops)[0] == CyclesOf(ops[0])[0];
      assert CyclesOfAll(ops)[0].drain;
    }
  }

  /**
   When every operation runs through all its cycles and is located, the emitted
   values are the loads that `FirstDelivered` selects.
   */
  lemma CompleteOperations<T>(ops: seq<Operation<T>>)
    requires forall o :: o in ops ==> o.cycles >= 1
    ensures AdvanceAll(None, CyclesOfAll(ops)).1 == DeliveredLoads(ops)
  {
    EmissionClosedForm(CyclesOfAll(ops));
    DeliveredOfComplete(ops);
  }

  /** Only the last cycle of an operation harvests. */
  lemma CyclesEnd<T>(o: Operation<T>) returns (quiet: seq<Tick<T>>)
    requires o.cycles >= 1
    ensures CyclesOf(o) == quiet + [Tick(o.load, o.cycles == 1)] && forall t :: t in quiet ==> t.harvest.None?
  {
    quiet := CyclesOf(o)[..o.cycles - 1];
  }

  lemma {:induction false} DeliveredOfComplete<T>(ops: seq<Operation<T>>)
    requires forall o :: o in ops ==> o.cycles >= 1
    ensures Delivered(CyclesOfAll(ops)) == DeliveredLoads(ops)
  {
    hide DrainedFirst, CyclesOf;
    if ops != [] {
      var o, rest := ops[0], ops[1..];
      assert o in ops;
      DeliveredOfComplete(rest);
      var tail := [Tick(o.load, o.cycles == 1)] + CyclesOfAll(rest);
      var quiet := CyclesEnd(o);
      assert CyclesOfAll(ops) == quiet + tail;
      SkipQuiet(quiet, tail);
      assert tail[1..] == CyclesOfAll(rest);
      if o.cycles == 1 {
        DrainedNow(tail);
      } else {
        LastCycleDelivered(o.load, rest);
      }
    }
  }

  /** No multi-cycle load is last, or directly followed by a one-cycle load. */
  predicate NoneOverwritten<T>(ops: seq<Operation<T>>) {
    forall k :: 0 <= k < |ops| && ops[k].load.Some? && ops[k].cycles != 1 ==>
      k + 1 < |ops| && !(ops[k + 1].cycles == 1 && ops[k + 1].load.Some?)
  }

  lemma {:induction false} DeliveredNoMore<T>(ops: seq<Operation<T>>)
    ensures |DeliveredLoads(ops)| <= |Loads(ops)|
    ensures NoneOverwritten(ops) <==> |DeliveredLoads(ops)| == |Loads(ops)|
    ensures NoneOverwritten(ops) ==> DeliveredLoads(ops) == Loads(ops)
  {
    if ops != [] {
      var rest := ops[1..];
      DeliveredNoMore(rest);
      assert NoneOverwritten(ops) <==> NoneOverwritten(rest) && (ops[0].load.Some? ==> FirstDelivered(ops)) by {
        assert forall k :: 0 <= k < |rest| ==> rest[k] == ops[k + 1];
        if NoneOverwritten(ops) {
          forall k | 0 <= k < |rest| && rest[k].load.Some? && rest[k].cycles != 1
            ensures k + 1 < |rest| && !(rest[k + 1].cycles == 1 && rest[k + 1].load.Some?)
          {
            assert ops[k + 1].load.Some?;
          }
        }
        if NoneOverwritten(rest) && (ops[0].load.Some? ==> FirstDelivered(ops)) {
          forall k | 0 <= k < |ops| && ops[k].load.Some? && ops[k].cycles != 1
            ensures k + 1 < |ops| && !(ops[k + 1].cycles == 1 && ops[k + 1].load.Some?)
          {
            if k > 0 {
              assert rest[k - 1].load.Some?;
            }
          }
        }
      }
    }
  }

  /** Every completed load is emitted exactly once exactly when none is overwritten or left pending. */
  lemma ExactlyOnceIff<T>(ops: seq<Operation<T>>)
    requires forall o :: o in ops ==> o.cycles >= 1
    ensures AdvanceAll(None, CyclesOfAll(ops)).1 == Loads(ops) <==> NoneOverwritten(ops)
  {
    CompleteOperations(ops);
    DeliveredNoMore(ops);
  }

  /** A value loaded over several cycles and directly followed by a one-cycle load is lost. */
  lemma OverwrittenLoadIsLost<T>(cycles: nat, first: T, second: T)
    requires cycles > 1
    ensures var ops := [Operation(cycles, Some(first)), Operation(1, Some(second))];
            AdvanceAll(None, CyclesOfAll(ops)).1 == [second]
  {
    var ops := [Operation(cycles, Some(first)), Operation(1, Some(second))];
    CompleteOperations(ops);
    var rest := ops[1..];
    assert rest == [Operation(1, Some(second))] && rest[1..] == [];
    assert DeliveredLoads(rest) == [second];
  }
}
