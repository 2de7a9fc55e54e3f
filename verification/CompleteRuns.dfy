/**
 Runs in which every assembly operation is located and goes through all its
 cycles: which of the loads they complete reach the trace.
 */
module CompleteRuns {
  import opened Common
  import opened Text
  import opened TraceModel
  import opened TraceTheorems
  import opened LogContents
  import opened Latch

  /** The VM states of one located operation, from its first cycle to its last. */
  ghost predicate IsExecution(states: seq<VmState>) {
    && states != []
    && forall i :: 0 <= i < |states| ==>
         var a := states[i].asmop; a.Some? && a.value.cycle == i + 1 && a.value.cycles == |states| && a.value.location.Some?
  }

  ghost predicate AreExecutions(runs: seq<seq<VmState>>) {
    forall i :: 0 <= i < |runs| ==> IsExecution(runs[i])
  }

  function Joined(runs: seq<seq<VmState>>): seq<VmState> {
    if runs == [] then [] else runs[0] + Joined(runs[1..])
  }

  /** A value seen in the state after an operation's last cycle, and only there. */
  ghost predicate AtLastCycle<T>(harvest: Harvest<T>) {
    forall a: AsmOp, stack: seq<Felt> :: a.cycle != a.cycles ==> harvest(a, stack) == None
  }

  /** The load an execution completes. */
  function LoadOf<T>(harvest: Harvest<T>, states: seq<VmState>): Operation<T>
    requires states != []
  {
    var end := Last(states);
    Operation(|states|, if end.asmop.Some? then harvest(end.asmop.value, end.stack) else None)
  }

  ghost function LoadsOf<T>(harvest: Harvest<T>, runs: seq<seq<VmState>>): seq<Operation<T>>
    requires AreExecutions(runs)
  {
    if runs == [] then []
    else assert IsExecution(runs[0]); [LoadOf(harvest, runs[0])] + LoadsOf(harvest, runs[1..])
  }

  lemma {:induction false} TicksConcat<T>(harvest: Harvest<T>, a: seq<VmState>, b: seq<VmState>)
    ensures Ticks(harvest, a + b) == Ticks(harvest, a) + Ticks(harvest, b)
  {
    if b == [] {
      assert a + b == a;
    } else {
      TicksConcat(harvest, a, Front(b));
      assert Front(a + b) == a + Front(b);
    }
  }

  lemma TicksOfExecution<T>(harvest: Harvest<T>, states: seq<VmState>)
    requires IsExecution(states) && AtLastCycle(harvest)
    ensures Ticks(harvest, states) == CyclesOf(LoadOf(harvest, states))
  {
    var cycles := CyclesOf(LoadOf(harvest, states));
    forall i | 0 <= i < |states| ensures Ticks(harvest, states)[i] == cycles[i] {
      TickIndex(harvest, states, i);
    }
  }

  lemma {:induction false} TicksOfExecutions<T>(harvest: Harvest<T>, runs: seq<seq<VmState>>)
    requires AreExecutions(runs) && AtLastCycle(harvest)
    ensures Ticks(harvest, Joined(runs)) == CyclesOfAll(LoadsOf(harvest, runs))
    ensures forall o :: o in LoadsOf(harvest, runs) ==> o.cycles >= 1
  {
    if runs != [] {
      assert IsExecution(runs[0]);
      TicksOfExecution(harvest, runs[0]);
      TicksOfExecutions(harvest, runs[1..]);
      TicksConcat(harvest, runs[0], Joined(runs[1..]));
      assert LoadsOf(harvest, runs)[1..] == LoadsOf(harvest, runs[1..]);
    }
  }

  /** `o` is what an execution does to the word latch: its length, and the word it leaves if it is a word load. */
  ghost predicate IsWordExecution(states: seq<VmState>, o: Operation<seq<int>>) {
    && states != [] && o.cycles == |states| && Last(states).asmop.Some?
    && forall w :: o.load == Some(w) <==> LoadsWord(Last(states).asmop.value, Last(states).stack, w)
  }

  ghost predicate IsReadExecution(states: seq<VmState>, o: Operation<AdviceRead>) {
    && states != [] && o.cycles == |states| && Last(states).asmop.Some?
    && forall r :: o.load == Some(r) <==> LiftsAdvice(Last(states).asmop.value, Last(states).stack, r)
  }

  lemma WordExecutionUnique(states: seq<VmState>, o: Operation<seq<int>>)
    requires IsWordExecution(states, o)
    ensures states != [] && o == LoadOf(HarvestedWord, states)
  {
    hide LoadsWord, HarvestedWord;
    var a, stack := Last(states).asmop.value, Last(states).stack;
    var found := HarvestedWord(a, stack);
    if o.load.Some? {
      WordIsHarvested(a, stack, o.load.value);
    }
    if found.Some? {
      WordIsHarvested(a, stack, found.value);
      assert o.load == Some(found.value);
    }
  }

  lemma ReadExecutionUnique(states: seq<VmState>, o: Operation<AdviceRead>)
    requires IsReadExecution(states, o)
    ensures states != [] && o == LoadOf(HarvestedRead, states)
  {
    hide LiftsAdvice, HarvestedRead;
    var a, stack := Last(states).asmop.value, Last(states).stack;
    var found := HarvestedRead(a, stack);
    if o.load.Some? {
      ReadIsHarvested(a, stack, o.load.value);
    }
    if found.Some? {
      ReadIsHarvested(a, stack, found.value);
      assert o.load == Some(found.value);
    }
  }

  lemma {:induction false} LoadsIndex<T>(harvest: Harvest<T>, runs: seq<seq<VmState>>, ops: seq<Operation<T>>)
    requires AreExecutions(runs) && |ops| == |runs|
    requires forall i :: 0 <= i < |runs| ==> runs[i] != [] && ops[i] == LoadOf(harvest, runs[i])
    ensures ops == LoadsOf(harvest, runs)
  {
    hide LoadOf, IsExecution;
    if runs != [] {
      assert forall i :: 0 <= i < |runs| - 1 ==> runs[1..][i] == runs[i + 1] && ops[1..][i] == ops[i + 1];
      LoadsIndex(harvest, runs[1..], ops[1..]);
      assert ops == [ops[0]] + ops[1..];
    }
  }

  /**
   When every operation is located and runs through its cycles, the emitted
   words are those the word loads leave on the stack, each once and in order,
   exactly when no multi-cycle load is last or directly followed by a one-cycle
   load.
   */
  lemma WordsExactlyOnce(env: Env, table: seq<Function>, runs: seq<seq<VmState>>, ops: seq<Operation<seq<int>>>)
    requires AreExecutions(runs) && |ops| == |runs|
    requires forall i :: 0 <= i < |runs| ==> IsWordExecution(runs[i], ops[i])
    ensures Project(WordOf, Run(env, table, Joined(runs)).log) == Loads(ops) <==> NoneOverwritten(ops)
  {
    hide IsWordExecution, HarvestedWord, LoadOf, Run, Project, Joined, Loads, NoneOverwritten, IsExecution;
    forall i | 0 <= i < |runs| ensures runs[i] != [] && ops[i] == LoadOf(HarvestedWord, runs[i]) {
      WordExecutionUnique(runs[i], ops[i]);
    }
    LoadsIndex(HarvestedWord, runs, ops);
    WordsFollowLatch(env, table, Joined(runs));
    WordsAtLastCycle();
    TicksOfExecutions(HarvestedWord, runs);
    ExactlyOnceIff(ops);
  }

  lemma WordsAtLastCycle()
    ensures AtLastCycle(HarvestedWord) && AtLastCycle(HarvestedRead)
  {
  }

  /** The same for advice-tape reads. */
  lemma ReadsExactlyOnce(env: Env, table: seq<Function>, runs: seq<seq<VmState>>, ops: seq<Operation<AdviceRead>>)
    requires AreExecutions(runs) && |ops| == |runs|
    requires forall i :: 0 <= i < |runs| ==> IsReadExecution(runs[i], ops[i])
    ensures Project(ReadOf, Run(env, table, Joined(runs)).log) == Loads(ops) <==> NoneOverwritten(ops)
  {
    hide IsReadExecution, HarvestedRead, LoadOf, Run, Project, Joined, Loads, NoneOverwritten, IsExecution;
    forall i | 0 <= i < |runs| ensures runs[i] != [] && ops[i] == LoadOf(HarvestedRead, runs[i]) {
      ReadExecutionUnique(runs[i], ops[i]);
    }
    LoadsIndex(HarvestedRead, runs, ops);
    ReadsFollowLatch(env, table, Joined(runs));
    WordsAtLastCycle();
    TicksOfExecutions(HarvestedRead, runs);
    ExactlyOnceIff(ops);
  }

  // ----- A read that is lost -----

  lemma PushCounts()
    ensures AdvPushCount("adv_push.2") == Some(2) && AdvPushCount("adv_push.1") == Some(1)
  {
    DecimalRoundTrip(1, U32_RANGE);
    DecimalRoundTrip(2, U32_RANGE);
    assert Decimal(1) == "1" && Decimal(2) == "2";
    assert "adv_push.1" == "adv_push." + "1" && "adv_push.2" == "adv_push." + "2";
  }

  lemma TwoLoads<T>(harvest: Harvest<T>, first: seq<VmState>, second: seq<VmState>)
    requires IsExecution(first) && IsExecution(second)
    ensures AreExecutions([first, second]) && Joined([first, second]) == first + second
    ensures LoadsOf(harvest, [first, second]) == [LoadOf(harvest, first), LoadOf(harvest, second)]
  {
    assert [first, second][1..] == [second] && [second][1..] == [];
    assert Joined([second]) == second;
    assert LoadsOf(harvest, [second]) == [LoadOf(harvest, second)];
  }

  /**
   An `adv_push.2` over two cycles and directly after it an `adv_push.1` of one
   cycle: only the second read is emitted.
   */
  lemma OverwrittenReadIsLost(env: Env, table: seq<Function>, first: VmState, last: VmState, next: VmState, context: string, at: nat)
    requires first.asmop == Some(AsmOp("adv_push.2", context, 1, 2, Some(at)))
    requires last.asmop == Some(AsmOp("adv_push.2", context, 2, 2, Some(at))) && |last.stack| >= 2
    requires next.asmop == Some(AsmOp("adv_push.1", context, 1, 1, Some(at))) && |next.stack| >= 1
    ensures exists v :: IsSigned(v, next.stack[0]) && Project(ReadOf, Run(env, table, [first, last, next]).log) == [AdvPush(1, [v])]
  {
    hide Run, Project, Ticks, Operand, CyclesOfAll, AdvanceAll, IsSigned, AsI64;
    var load, follow := [first, last], [next];
    var lost, kept := AdvPush(2, Top(last.stack, 2)), AdvPush(1, Top(next.stack, 1));
    PushCounts();
    TwoLoads(HarvestedRead, load, follow);
    assert load + follow == [first, last, next];
    ReadsFollowLatch(env, table, load + follow);
    TicksOfExecutions(HarvestedRead, [load, follow]);
    OverwrittenLoadIsLost(2, lost, kept);
    var v := AsI64(next.stack[0]);
    SignedValue(next.stack[0], v);
    assert Top(next.stack, 1) == [v];
  }
}
