/**
 When the recorder emits a step: on a line change, and when execution wraps
 round to the operation that opened the current step.
 */
module StepAutomaton {
  import opened Common

  datatype StepState = StepState(prevLine: Option<nat>, firstOp: Option<string>, movedPast: bool)

  const NO_STEP := StepState(None, None, false)

  /** A processed assembly operation, as the automaton sees it. */
  datatype Located = Located(line: nat, op: string)

  predicate StepsHere(s: StepState, x: Located) {
    s.prevLine != Some(x.line) || (s.movedPast && s.firstOp == Some(x.op))
  }

  function NextStep(s: StepState, x: Located): StepState {
    if StepsHere(s, x) then StepState(Some(x.line), Some(x.op), false)
    else if s.firstOp != Some(x.op) then s.(movedPast := true)
    else s
  }

  function AfterAll(xs: seq<Located>): StepState {
    if xs == [] then NO_STEP else NextStep(AfterAll(Front(xs)), Last(xs))
  }

  /** The step lines emitted for a stream of operations. */
  function StepLines(xs: seq<Located>): seq<nat> {
    if xs == [] then []
    else StepLines(Front(xs)) + (if StepsHere(AfterAll(Front(xs)), Last(xs)) then [Last(xs).line] else [])
  }

  /** Where the maximal run of operations on one line that contains index `i` begins. */
  function LineStart(xs: seq<Located>, i: nat): (start: nat)
    requires i < |xs|
    ensures start <= i
  {
    if i == 0 || xs[i - 1].line != xs[i].line then i else LineStart(xs, i - 1)
  }

  lemma {:induction false} LineStartIsMaximal(xs: seq<Located>, i: nat)
    requires i < |xs|
    ensures var start := LineStart(xs, i);
            && (forall j :: start <= j <= i ==> xs[j].line == xs[i].line)
            && (start > 0 ==> xs[start - 1].line != xs[i].line)
  {
    if i > 0 && xs[i - 1].line == xs[i].line {
      LineStartIsMaximal(xs, i - 1);
    }
  }

  /**
   The closed form: index `i` gets a step exactly when it opens its line's run,
   or opens a new block of the operation the run began with.
   */
  ghost predicate OpensBlock(xs: seq<Located>, i: nat)
    requires i < |xs|
  {
    var first := xs[LineStart(xs, i)].op;
    LineStart(xs, i) == i || (xs[i].op == first && xs[i - 1].op != first)
  }

  lemma {:induction false} LineStartPrefix(xs: seq<Located>, n: nat, i: nat)
    requires i < n <= |xs|
    ensures LineStart(xs[..n], i) == LineStart(xs, i)
  {
    if i > 0 && xs[i - 1].line == xs[i].line {
      LineStartPrefix(xs, n, i - 1);
    }
  }

  lemma {:induction false} AutomatonState(xs: seq<Located>)
    requires xs != []
    ensures var first := xs[LineStart(xs, |xs| - 1)].op;
            AfterAll(xs) == StepState(Some(Last(xs).line), Some(first), Last(xs).op != first)
  {
    if |xs| > 1 {
      AutomatonState(Front(xs));
      LineStartPrefix(xs, |xs| - 1, |xs| - 2);
    }
  }

  /** The automaton emits a step at an index exactly when the closed form says so. */
  lemma StepIffOpensBlock(xs: seq<Located>, i: nat)
    requires i < |xs|
    ensures StepsHere(AfterAll(xs[..i]), xs[i]) <==> OpensBlock(xs, i)
  {
    if i > 0 {
      AutomatonState(xs[..i]);
      LineStartPrefix(xs, i, i - 1);
    }
  }

  // ----- Counting the blocks of one line -----

  /** The number of maximal blocks of `op` in `ops`. */
  function Blocks(ops: seq<string>, op: string): nat {
    if ops == [] then 0
    else
      Blocks(Front(ops), op) +
      (if Last(ops) == op && (|ops| == 1 || ops[|ops| - 2] != op) then 1 else 0)
  }

  function OnLine(line: nat, ops: seq<string>): (xs: seq<Located>)
    ensures |xs| == |ops|
  {
    if ops == [] then [] else OnLine(line, Front(ops)) + [Located(line, Last(ops))]
  }

  lemma {:induction false} OnLineAt(line: nat, ops: seq<string>, i: nat)
    requires i < |ops|
    ensures OnLine(line, ops)[i] == Located(line, ops[i])
  {
    if i < |ops| - 1 {
      OnLineAt(line, Front(ops), i);
    }
  }

  lemma {:induction false} LineStartAfter(before: seq<Located>, line: nat, ops: seq<string>, i: nat)
    requires before == [] || Last(before).line != line
    requires i < |ops|
    ensures LineStart(before + OnLine(line, ops), |before| + i) == |before|
  {
    OnLineAt(line, ops, i);
    if i > 0 {
      OnLineAt(line, ops, i - 1);
      LineStartAfter(before, line, ops, i - 1);
    }
  }

  lemma {:induction false} StepLinesSnoc(xs: seq<Located>, x: Located)
    ensures StepLines(xs + [x]) == StepLines(xs) + (if OpensBlock(xs + [x], |xs|) then [x.line] else [])
  {
    var all := xs + [x];
    assert Front(all) == xs == all[..|xs|];
    StepIffOpensBlock(all, |xs|);
  }

  lemma LastStepIsBlock(before: seq<Located>, line: nat, ops: seq<string>)
    requires before == [] || Last(before).line != line
    requires ops != []
    ensures OpensBlock(before + OnLine(line, ops), |before| + |ops| - 1) <==>
            Last(ops) == ops[0] && (|ops| == 1 || ops[|ops| - 2] != ops[0])
  {
    LineStartAfter(before, line, ops, |ops| - 1);
    OnLineAt(line, ops, 0);
    OnLineAt(line, ops, |ops| - 1);
    if |ops| > 1 {
      OnLineAt(line, ops, |ops| - 2);
    }
  }

  /**
   After any history that ends on another line, a run of operations on one
   line emits as many steps as it has maximal blocks of its first operation.
   */
  lemma {:induction false} RunStepsAreBlocks(before: seq<Located>, line: nat, ops: seq<string>)
    requires before == [] || Last(before).line != line
    ensures |StepLines(before + OnLine(line, ops))| == |StepLines(before)| + (if ops == [] then 0 else Blocks(ops, ops[0]))
  {
    hide OpensBlock, StepLines;
    if ops == [] {
      assert before + OnLine(line, ops) == before;
    } else {
      RunStepsAreBlocks(before, line, Front(ops));
      StepLinesSnoc(before + OnLine(line, Front(ops)), Located(line, Last(ops)));
      assert before + OnLine(line, ops) == before + OnLine(line, Front(ops)) + [Located(line, Last(ops))];
      LastStepIsBlock(before, line, ops);
    }
  }

  function Repeat(body: seq<string>, n: nat): seq<string> {
    if n == 0 then [] else Repeat(body, n - 1) + body
  }

  lemma {:induction false} BlocksExtend(ops: seq<string>, body: seq<string>, op: string, k: nat)
    requires 2 <= |body| && body[0] == op && forall j :: 1 <= j < |body| ==> body[j] != op
    requires ops == [] || Last(ops) != op
    requires 1 <= k <= |body|
    ensures Blocks(ops + body[..k], op) == Blocks(ops, op) + 1
  {
    var whole := ops + body[..k];
    assert Front(whole) == ops + body[..k - 1];
    if k == 1 {
      assert Front(whole) == ops;
    } else {
      BlocksExtend(ops, body, op, k - 1);
    }
  }

  lemma {:induction false} BlocksOfRepeat(body: seq<string>, n: nat)
    requires 2 <= |body| && forall j :: 1 <= j < |body| ==> body[j] != body[0]
    ensures Blocks(Repeat(body, n), body[0]) == n
    ensures n > 0 ==> |Repeat(body, n)| >= 2 && Repeat(body, n)[0] == body[0] && Last(Repeat(body, n)) != body[0]
  {
    if n > 0 {
      BlocksOfRepeat(body, n - 1);
      BlocksExtend(Repeat(body, n - 1), body, body[0], |body|);
      assert body[..|body|] == body;
    }
  }

  /**
   A one-line `repeat.N` body of at least two operations whose first operation
   does not recur in it yields exactly N steps, for every N.
   */
  lemma RepeatStepsPerIteration(before: seq<Located>, line: nat, body: seq<string>, n: nat)
    requires before == [] || Last(before).line != line
    requires 2 <= |body| && forall j :: 1 <= j < |body| ==> body[j] != body[0]
    ensures |StepLines(before + OnLine(line, Repeat(body, n)))| == |StepLines(before)| + n
  {
    RunStepsAreBlocks(before, line, Repeat(body, n));
    BlocksOfRepeat(body, n);
  }
}
