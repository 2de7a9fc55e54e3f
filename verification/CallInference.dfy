/**
 How the recorder infers calls and returns from the context names of successive
 assembly operations: a shadow stack of callers, the current context, and two
 flags for frames it synthesised itself.
 */
module CallInference {
  import opened Common
  import opened Ancestry
  import opened Text

  /** What is known of the program: its call graph, and the parent map built from it. */
  datatype Program = Program(calls: CallGraph, parents: map<string, Option<string>>)

  /**
   `callers` is the recorder's context stack and `current` the context last
   observed. `mainOpen` records a synthesised `#main` frame, `leafOpen` a
   synthesised chain of inlined callers.
   */
  datatype Shadow = Shadow(callers: seq<string>, current: Option<string>, mainOpen: bool, leafOpen: bool)

  const UNOBSERVED := Shadow([], None, false, false)

  /**
   One call-trace event: entering a frame (with the operand-stack top staged as
   arguments or not) or leaving one (with the callee's result attached or not).
   */
  datatype Mark =
    | Enter(name: string, staged: bool)
    | Leave(valued: bool)

  /** The context name the VM gives a procedure. */
  function RuntimeName(procedure: string): string {
    "#exec::" + procedure
  }

  function Prefixed(names: seq<string>): seq<string> {
    if names == [] then [] else Prefixed(Front(names)) + [RuntimeName(Last(names))]
  }

  function Enters(names: seq<string>): seq<Mark> {
    if names == [] then [] else Enters(Front(names)) + [Enter(Last(names), false)]
  }

  function Leaves(n: nat): seq<Mark> {
    if n == 0 then [] else Leaves(n - 1) + [Leave(false)]
  }

  /** The inlined callers between `#main` and a leaf, under their runtime names. */
  function InlinedCallers(chain: Option<seq<string>>): seq<string> {
    if chain.Some? && |chain.value| > 2 then Prefixed(chain.value[1..|chain.value| - 1]) else []
  }

  lemma {:induction false} PrefixedLength(names: seq<string>)
    ensures |Prefixed(names)| == |names|
  {
    if names != [] {
      PrefixedLength(Front(names));
    }
  }

  /**
   The first observed context: open `#main`, open an inlined chain of callers
   and the context itself, or open nothing.
   */
  function FirstObservation(callers: seq<string>, name: string): (Shadow, seq<Mark>) {
    if BareName(name) == MAIN then
      (Shadow([], Some(name), true, false), [Enter(name, false)])
    else if callers != [] then
      (Shadow(callers, Some(name), false, true), Enters(callers) + [Enter(name, false)])
    else
      (Shadow([], Some(name), false, false), [])
  }

  predicate CallerInvokesBoth(g: CallGraph, callers: seq<string>, prev: string, name: string) {
    && callers != []
    && Invokes(g, BareName(Last(callers)), BareName(prev))
    && Invokes(g, BareName(Last(callers)), BareName(name))
  }

  /** A context change from `prev` to `name`. */
  function ContextChange(g: Program, s: Shadow, prev: string, name: string): (Shadow, seq<Mark>) {
    if s.callers != [] && Last(s.callers) == name then
      (s.(callers := Front(s.callers), current := Some(name)), [Leave(true)])
    else if s.leafOpen && BareName(name) == MAIN && (forall c :: c in s.callers ==> BareName(c) != MAIN) then
      (Shadow([], Some(name), s.mainOpen, false), Leaves(|s.callers| + 1))
    else if CallerInvokesBoth(g.calls, s.callers, prev, name) && !Invokes(g.calls, BareName(prev), BareName(name)) then
      (s.(current := Some(name)), [Leave(false), Enter(name, true)])
    else
      (s.(callers := s.callers + [prev], current := Some(name)), [Enter(name, true)])
  }

  ghost function Observe(g: Program, s: Shadow, name: string): (Shadow, seq<Mark>) {
    match s.current
    case None => FirstObservation(InlinedCallers(MainChain(g.parents, BareName(name))), name)
    case Some(prev) => if prev == name then (s, []) else ContextChange(g, s, prev, name)
  }

  /** The shadow state and the marks after observing `names` in order. */
  ghost function ObserveAll(g: Program, s: Shadow, names: seq<string>): (Shadow, seq<Mark>) {
    if names == [] then (s, [])
    else
      var (s1, marks) := ObserveAll(g, s, Front(names));
      var (s2, more) := Observe(g, s1, Last(names));
      (s2, marks + more)
  }

  /** What the end of the trace closes: the callers, a synthesised frame, and the toplevel. */
  function Drain(s: Shadow): seq<Mark> {
    Leaves(|s.callers|) + (if s.mainOpen then Leaves(1) else []) + (if s.leafOpen then Leaves(1) else []) + Leaves(1)
  }

  // ----- Bracketing -----

  const TOPLEVEL := "<toplevel>"

  /**
   The writer's open frames after a sequence of marks, outermost first, or
   `None` once a mark arrives after the toplevel was closed.
   */
  function OpenFrames(marks: seq<Mark>): Option<seq<string>> {
    if marks == [] then Some([TOPLEVEL])
    else
      match OpenFrames(Front(marks))
      case None => None
      case Some(frames) =>
        if frames == [] then None
        else
          match Last(marks)
          case Enter(name, _) => Some(frames + [name])
          case Leave(_) => Some(Front(frames))
  }

  /** The frames of observed contexts that the writer was told about. */
  function RecordedStack(s: Shadow): seq<string> {
    if s.current.None? then []
    else
      var stack := s.callers + [s.current.value];
      if s.mainOpen || s.leafOpen then stack else stack[1..]
  }

  /** The first observation enters exactly the frames it leaves recorded. */
  lemma FirstEntersRecorded(callers: seq<string>, name: string)
    ensures var (s, marks) := FirstObservation(callers, name);
            && marks == Enters(RecordedStack(s))
            && s.current == Some(name) && Consistent(s)
            && (s.mainOpen || !s.leafOpen ==> s.callers == [])
            && (s.leafOpen ==> s.callers != [])
  {
    assert Front(callers + [name]) == callers;
    assert [name][1..] == [] && Front([name]) == [];
    assert [] + [name] == [name];
  }

  predicate Consistent(s: Shadow) {
    && !(s.mainOpen && s.leafOpen)
    && (s.current.None? ==> s == UNOBSERVED)
  }

  lemma OpenFramesAppend(marks: seq<Mark>, m: Mark)
    requires OpenFrames(marks).Some? && OpenFrames(marks).value != []
    ensures OpenFrames(marks + [m]) ==
            Some(if m.Enter? then OpenFrames(marks).value + [m.name] else Front(OpenFrames(marks).value))
  {
    assert Front(marks + [m]) == marks;
  }

  lemma {:induction false} OpenFramesEnters(marks: seq<Mark>, names: seq<string>)
    requires OpenFrames(marks).Some? && OpenFrames(marks).value != []
    ensures OpenFrames(marks + Enters(names)) == Some(OpenFrames(marks).value + names)
  {
    hide OpenFrames;
    if names == [] {
      assert marks + Enters(names) == marks;
      assert OpenFrames(marks).value + names == OpenFrames(marks).value;
    } else {
      OpenFramesEnters(marks, Front(names));
      OpenFramesAppend(marks + Enters(Front(names)), Enter(Last(names), false));
      assert marks + Enters(names) == marks + Enters(Front(names)) + [Enter(Last(names), false)];
      assert OpenFrames(marks).value + names == OpenFrames(marks).value + Front(names) + [Last(names)];
    }
  }

  lemma {:induction false} OpenFramesLeaves(marks: seq<Mark>, n: nat)
    requires OpenFrames(marks).Some? && n <= |OpenFrames(marks).value|
    ensures OpenFrames(marks + Leaves(n)) == Some(OpenFrames(marks).value[..|OpenFrames(marks).value| - n])
  {
    var frames := OpenFrames(marks).value;
    if n == 0 {
      assert marks + Leaves(n) == marks && frames[..|frames|] == frames;
    } else {
      OpenFramesLeaves(marks, n - 1);
      var open := frames[..|frames| - (n - 1)];
      OpenFramesAppend(marks + Leaves(n - 1), Leave(false));
      assert marks + Leaves(n - 1) + [Leave(false)] == marks + Leaves(n);
      assert Front(open) == frames[..|frames| - n];
    }
  }

  lemma FramesOnReturn(s: Shadow, s': Shadow, marks: seq<Mark>, name: string)
    requires s.current.Some? && s.callers != [] && Last(s.callers) == name
    requires s' == s.(callers := Front(s.callers), current := Some(name))
    requires OpenFrames(marks) == Some([TOPLEVEL] + RecordedStack(s))
    ensures OpenFrames(marks + [Leave(true)]) == Some([TOPLEVEL] + RecordedStack(s'))
  {
    hide OpenFrames;
    OpenFramesAppend(marks, Leave(true));
    var stack := s.callers + [s.current.value];
    assert Front(s.callers) + [name] == s.callers == Front(stack);
    assert Front(stack[1..]) == s.callers[1..];
    assert RecordedStack(s') == Front(RecordedStack(s));
    ConsFront(TOPLEVEL, RecordedStack(s));
  }

  lemma FramesOnSibling(s: Shadow, s': Shadow, marks: seq<Mark>, name: string)
    requires s.current.Some? && s.callers != []
    requires s' == s.(current := Some(name))
    requires OpenFrames(marks) == Some([TOPLEVEL] + RecordedStack(s))
    ensures OpenFrames(marks + [Leave(false), Enter(name, true)]) == Some([TOPLEVEL] + RecordedStack(s'))
  {
    OpenFramesAppend(marks, Leave(false));
    OpenFramesAppend(marks + [Leave(false)], Enter(name, true));
    assert marks + [Leave(false), Enter(name, true)] == marks + [Leave(false)] + [Enter(name, true)];
    assert RecordedStack(s') == Front(RecordedStack(s)) + [name];
    ConsFront(TOPLEVEL, RecordedStack(s));
    ConsSnoc(TOPLEVEL, Front(RecordedStack(s)), name);
  }

  lemma FramesOnCall(s: Shadow, s': Shadow, marks: seq<Mark>, name: string)
    requires s.current.Some?
    requires s' == s.(callers := s.callers + [s.current.value], current := Some(name))
    requires OpenFrames(marks) == Some([TOPLEVEL] + RecordedStack(s))
    ensures OpenFrames(marks + [Enter(name, true)]) == Some([TOPLEVEL] + RecordedStack(s'))
  {
    OpenFramesAppend(marks, Enter(name, true));
    assert RecordedStack(s') == RecordedStack(s) + [name];
    ConsSnoc(TOPLEVEL, RecordedStack(s), name);
  }

  lemma FramesOnDrain(s: Shadow, marks: seq<Mark>)
    requires s.current.Some? && (s.leafOpen || s.mainOpen)
    requires OpenFrames(marks) == Some([TOPLEVEL] + RecordedStack(s))
    ensures OpenFrames(marks + Leaves(|s.callers| + 1)) == Some([TOPLEVEL])
  {
    OpenFramesLeaves(marks, |s.callers| + 1);
    var frames := [TOPLEVEL] + RecordedStack(s);
    assert frames[..1] == [TOPLEVEL];
  }

  lemma FramesOnFirst(callers: seq<string>, marks: seq<Mark>, name: string)
    requires OpenFrames(marks) == Some([TOPLEVEL])
    ensures var (s', more) := FirstObservation(callers, name);
            Consistent(s') && OpenFrames(marks + more) == Some([TOPLEVEL] + RecordedStack(s'))
  {
    FirstEntersRecorded(callers, name);
    OpenFramesEnters(marks, RecordedStack(FirstObservation(callers, name).0));
  }

  lemma FramesOnChange(g: Program, s: Shadow, marks: seq<Mark>, prev: string, name: string)
    requires Consistent(s) && s.current == Some(prev)
    requires OpenFrames(marks) == Some([TOPLEVEL] + RecordedStack(s))
    ensures var (s', more) := ContextChange(g, s, prev, name);
            Consistent(s') && OpenFrames(marks + more) == Some([TOPLEVEL] + RecordedStack(s'))
  {
    var s' := ContextChange(g, s, prev, name).0;
    if s.callers != [] && Last(s.callers) == name {
      FramesOnReturn(s, s', marks, name);
    } else if s.leafOpen && BareName(name) == MAIN && (forall c :: c in s.callers ==> BareName(c) != MAIN) {
      FramesOnDrain(s, marks);
      assert [TOPLEVEL] + RecordedStack(s') == [TOPLEVEL];
    } else if CallerInvokesBoth(g.calls, s.callers, prev, name) && !Invokes(g.calls, BareName(prev), BareName(name)) {
      FramesOnSibling(s, s', marks, name);
    } else {
      FramesOnCall(s, s', marks, name);
    }
  }

  lemma ObserveKeepsFrames(g: Program, s: Shadow, marks: seq<Mark>, name: string)
    requires Consistent(s)
    requires OpenFrames(marks) == Some([TOPLEVEL] + RecordedStack(s))
    ensures var (s', more) := Observe(g, s, name);
            Consistent(s') && OpenFrames(marks + more) == Some([TOPLEVEL] + RecordedStack(s'))
  {
    if s.current.None? {
      assert [TOPLEVEL] + RecordedStack(s) == [TOPLEVEL];
      FramesOnFirst(InlinedCallers(MainChain(g.parents, BareName(name))), marks, name);
    } else if s.current.value != name {
      FramesOnChange(g, s, marks, s.current.value, name);
    } else {
      assert marks + [] == marks;
    }
  }

  /**
   On every run, faithful or not, the writer's open frames are the toplevel
   followed by the shadow stack and the current context, whose outermost entry
   is missing exactly when no synthesised frame stands for it.
   */
  lemma {:induction false} FramesRefineShadow(g: Program, names: seq<string>)
    ensures var (s, marks) := ObserveAll(g, UNOBSERVED, names);
            Consistent(s) && OpenFrames(marks) == Some([TOPLEVEL] + RecordedStack(s))
  {
    if names == [] {
      assert [TOPLEVEL] + RecordedStack(UNOBSERVED) == [TOPLEVEL];
    } else {
      FramesRefineShadow(g, Front(names));
      var (s, marks) := ObserveAll(g, UNOBSERVED, Front(names));
      ObserveKeepsFrames(g, s, marks, Last(names));
    }
  }

  /** The final drain closes every open frame, the toplevel last. */
  lemma DrainClosesAll(s: Shadow, marks: seq<Mark>)
    requires Consistent(s)
    requires OpenFrames(marks) == Some([TOPLEVEL] + RecordedStack(s))
    ensures OpenFrames(marks + Drain(s)) == Some([])
  {
    var n := |RecordedStack(s)| + 1;
    OpenFramesLeaves(marks, n);
    LeavesAdd(|s.callers|, 1);
    LeavesAdd(|s.callers| + 1, 1);
    assert Drain(s) == Leaves(n);
  }

  lemma {:induction false} LeavesAdd(m: nat, n: nat)
    ensures Leaves(m) + Leaves(n) == Leaves(m + n)
  {
    if n > 0 {
      LeavesAdd(m, n - 1);
    }
  }

  /** A bracketed run never has its toplevel closed before its last mark. */
  lemma {:induction false} ToplevelStaysOpen(marks: seq<Mark>, k: nat)
    requires k < |marks|
    requires OpenFrames(marks).Some?
    ensures OpenFrames(marks[..k]).Some? && OpenFrames(marks[..k]).value != []
    ensures OpenFrames(marks[..k]).value[0] == TOPLEVEL
  {
    if k < |marks| - 1 {
      ToplevelStaysOpen(Front(marks), k);
      assert Front(marks)[..k] == marks[..k];
    } else {
      ToplevelIsOutermost(marks[..k]);
    }
  }

  lemma {:induction false} ToplevelIsOutermost(marks: seq<Mark>)
    requires OpenFrames(marks).Some? && OpenFrames(marks).value != []
    ensures OpenFrames(marks).value[0] == TOPLEVEL
  {
    if marks != [] {
      ToplevelIsOutermost(Front(marks));
    }
  }

  // ----- Fidelity -----

  /**
   What truly happens between two observed operations. `Sibling(c)` is a
   boundary the assembler hides: the current callee returned and its caller
   invoked `c` before the caller was observed again. `Hidden` is every other
   change of the call stack, several frames ending or beginning unobserved.
   Together they are all the changes a call stack can make.
   */
  datatype Move =
    | Stay
    | Call(callee: string)
    | Return
    | Sibling(callee: string)
    | Hidden(closed: nat, entered: seq<string>)

  /**
   The moves any program can make with true call stack `stack`: its outermost
   frame does not end, and the begin block is not called. Nothing is asked of
   the scanned call graph, which misses calls.
   */
  predicate Possible(stack: seq<string>, m: Move)
    requires stack != []
  {
    match m
    case Stay => true
    case Call(c) => BareName(c) != MAIN
    case Return => |stack| >= 2
    case Sibling(c) => |stack| >= 2 && BareName(c) != MAIN
    case Hidden(closed, entered) =>
      && (closed >= 2 || |entered| >= 2)
      && closed < |stack|
      && forall c :: c in entered ==> BareName(c) != MAIN
  }

  function Moved(stack: seq<string>, m: Move): (r: seq<string>)
    requires stack != []
    ensures r != []
  {
    match m
    case Stay => stack
    case Call(c) => stack + [c]
    case Return => if |stack| == 1 then stack else Front(stack)
    case Sibling(c) => Front(stack) + [c]
    case Hidden(closed, entered) => (if closed < |stack| then stack[..|stack| - closed] else stack) + entered
  }

  function TrueMarks(m: Move): seq<Mark> {
    match m
    case Stay => []
    case Call(c) => [Enter(c, true)]
    case Return => [Leave(true)]
    case Sibling(c) => [Leave(false), Enter(c, true)]
    case Hidden(closed, entered) => Leaves(closed) + Enters(entered)
  }

  /** The recorder's test for a hidden boundary between two callees of the current caller. */
  predicate TakenForSibling(g: Program, stack: seq<string>, name: string)
    requires stack != []
  {
    && |stack| >= 2
    && var caller, left, entered := BareName(stack[|stack| - 2]), BareName(Last(stack)), BareName(name);
       Invokes(g.calls, caller, left) && Invokes(g.calls, caller, entered) && !Invokes(g.calls, left, entered)
  }

  /**
   The moves that context names and the scanned call graph reveal. A call or a
   replaced sibling must enter neither the context it leaves nor that context's
   caller; the graph must tell the two apart, by the caller invoking both
   contexts and the one left not invoking the other; a return must change the
   context; and nothing else may happen unobserved.
   */
  predicate Readable(g: Program, stack: seq<string>, m: Move)
    requires stack != []
  {
    match m
    case Stay => true
    case Call(c) => c != Last(stack) && (|stack| >= 2 ==> c != Last(Front(stack))) && !TakenForSibling(g, stack, c)
    case Return => |stack| >= 2 ==> Last(Front(stack)) != Last(stack)
    case Sibling(c) => c != Last(stack) && (|stack| >= 2 ==> c != Last(Front(stack))) && TakenForSibling(g, stack, c)
    case Hidden(_, _) => false
  }

  function StackAfter(stack: seq<string>, moves: seq<Move>): (r: seq<string>)
    requires stack != []
    ensures r != []
  {
    if moves == [] then stack else Moved(StackAfter(stack, Front(moves)), Last(moves))
  }

  function MarksAfter(moves: seq<Move>): seq<Mark> {
    if moves == [] then [] else MarksAfter(Front(moves)) + TrueMarks(Last(moves))
  }

  /** Every move of a run is possible where it is made. */
  ghost predicate AllPossible(stack: seq<string>, moves: seq<Move>)
    requires stack != []
  {
    moves != [] ==>
      AllPossible(stack, Front(moves)) && Possible(StackAfter(stack, Front(moves)), Last(moves))
  }

  ghost predicate AllReadable(g: Program, stack: seq<string>, moves: seq<Move>)
    requires stack != []
  {
    moves != [] ==>
      AllReadable(g, stack, Front(moves)) && Readable(g, StackAfter(stack, Front(moves)), Last(moves))
  }

  /** The context observed after each move. */
  function Observed(stack: seq<string>, moves: seq<Move>): seq<string>
    requires stack != []
  {
    if moves == [] then [] else Observed(stack, Front(moves)) + [Last(StackAfter(stack, moves))]
  }

  /** The shadow stack and current context are the true call stack. */
  predicate Mirrors(s: Shadow, stack: seq<string>) {
    s.current.Some? && s.callers + [s.current.value] == stack
  }

  /**
   After the contexts `seen` and then those of `moves`, the recorder's stack is
   the true one, and it has added exactly the true marks.
   */
  ghost predicate Tracks(g: Program, seen: seq<string>, stack: seq<string>, moves: seq<Move>)
    requires stack != []
  {
    var (s, marks) := ObserveAll(g, UNOBSERVED, seen + Observed(stack, moves));
    Mirrors(s, StackAfter(stack, moves)) && marks == ObserveAll(g, UNOBSERVED, seen).1 + MarksAfter(moves)
  }

  /** The recorder's state after the contexts `seen` and then those of `moves`. */
  ghost function ShadowAfter(g: Program, seen: seq<string>, stack: seq<string>, moves: seq<Move>): Shadow
    requires stack != []
  {
    ObserveAll(g, UNOBSERVED, seen + Observed(stack, moves)).0
  }

  /** A synthesised chain must not be drained by accident: nothing on the way is `#main`. */
  ghost predicate NoDrain(g: Program, s: Shadow, stack: seq<string>) {
    s.leafOpen ==> forall c :: c in stack ==> BareName(c) != MAIN
  }

  lemma NoDrainMoves(g: Program, s: Shadow, stack: seq<string>, m: Move)
    requires stack != [] && Possible(stack, m) && NoDrain(g, s, stack)
    ensures NoDrain(g, s, Moved(stack, m))
  {
  }

  /** What the recorder infers when `name` is observed on a mirrored stack. */
  function Inferred(g: Program, stack: seq<string>, name: string): Move
    requires stack != []
  {
    if name == Last(stack) then Stay
    else if |stack| >= 2 && name == Last(Front(stack)) then Return
    else if TakenForSibling(g, stack, name) then Sibling(name)
    else Call(name)
  }

  lemma ObserveInfers(g: Program, s: Shadow, stack: seq<string>, name: string)
    requires stack != [] && Mirrors(s, stack)
    requires s.leafOpen ==> BareName(name) != MAIN
    ensures var (s', marks) := Observe(g, s, name);
            var m := Inferred(g, stack, name);
            Mirrors(s', Moved(stack, m)) && marks == TrueMarks(m) && s'.leafOpen == s.leafOpen
  {
    assert s.callers == Front(stack) && s.current.value == Last(stack);
    var m := Inferred(g, stack, name);
    if m.Return? {
      assert Front(s.callers) + [name] == Moved(stack, m);
    }
  }

  lemma {:induction false} LeavesShape(n: nat)
    ensures |Leaves(n)| == n && forall i :: 0 <= i < n ==> Leaves(n)[i] == Leave(false)
  {
    if n > 0 {
      LeavesShape(n - 1);
    }
  }

  lemma {:induction false} EntersShape(names: seq<string>)
    ensures |Enters(names)| == |names| && forall i :: 0 <= i < |names| ==> Enters(names)[i] == Enter(names[i], false)
  {
    if names != [] {
      EntersShape(Front(names));
    }
  }

  /** Nothing the recorder infers has the marks of several unobserved changes. */
  lemma HiddenIsNeverInferred(g: Program, stack: seq<string>, name: string, closed: nat, entered: seq<string>)
    requires stack != [] && (closed >= 2 || |entered| >= 2)
    ensures TrueMarks(Inferred(g, stack, name)) != TrueMarks(Hidden(closed, entered))
  {
    LeavesShape(closed);
    EntersShape(entered);
    var marks := TrueMarks(Hidden(closed, entered));
    assert |marks| == closed + |entered|;
    if closed >= 2 {
      assert marks[1] == Leave(false);
    } else if closed == 0 {
      assert marks[0].Enter?;
    }
  }

  lemma InferredIffReadable(g: Program, stack: seq<string>, m: Move)
    requires stack != [] && Possible(stack, m)
    ensures Readable(g, stack, m) <==> Inferred(g, stack, Last(Moved(stack, m))) == m
    ensures Readable(g, stack, m) <==> TrueMarks(Inferred(g, stack, Last(Moved(stack, m)))) == TrueMarks(m)
  {
    if m.Hidden? {
      HiddenIsNeverInferred(g, stack, Last(Moved(stack, m)), m.closed, m.entered);
    }
  }

  /** One move is read correctly exactly when it is readable. */
  lemma MoveReadIffReadable(g: Program, s: Shadow, stack: seq<string>, m: Move)
    requires stack != [] && Mirrors(s, stack) && Possible(stack, m) && NoDrain(g, s, stack)
    ensures var (s', marks) := Observe(g, s, Last(Moved(stack, m)));
            (Readable(g, stack, m) <==> Mirrors(s', Moved(stack, m)) && marks == TrueMarks(m))
            && (Readable(g, stack, m) ==> s'.leafOpen == s.leafOpen)
  {
    NoDrainMoves(g, s, stack, m);
    var name := Last(Moved(stack, m));
    assert name in Moved(stack, m);
    ObserveInfers(g, s, stack, name);
    InferredIffReadable(g, stack, m);
  }

  lemma ObserveAllSnoc(g: Program, names: seq<string>, last: string)
    ensures var (s1, marks) := ObserveAll(g, UNOBSERVED, names);
            var (s2, more) := Observe(g, s1, last);
            ObserveAll(g, UNOBSERVED, names + [last]) == (s2, marks + more)
  {
    assert Front(names + [last]) == names;
  }

  lemma CancelPrefix<T>(a: seq<T>, b: seq<T>, c: seq<T>)
    ensures a + b == a + c <==> b == c
  {
    if a + b == a + c {
      assert b == (a + b)[|a|..] == (a + c)[|a|..] == c;
    }
  }

  /** One more move on a run tracked so far, `past` being the true marks since `first`. */
  lemma ReadMove(g: Program, s: Shadow, stack: seq<string>, m: Move, first: seq<Mark>, past: seq<Mark>)
    requires stack != [] && Mirrors(s, stack) && Possible(stack, m) && NoDrain(g, s, stack)
    ensures var (s', more) := Observe(g, s, Last(Moved(stack, m)));
            && (Readable(g, stack, m) <==>
                  Mirrors(s', Moved(stack, m)) && (first + past) + more == first + (past + TrueMarks(m)))
            && (Readable(g, stack, m) ==> s'.leafOpen == s.leafOpen && NoDrain(g, s', Moved(stack, m)))
  {
    hide Observe, Readable, TrueMarks, Moved, Possible, Mirrors;
    MoveReadIffReadable(g, s, stack, m);
    NoDrainMoves(g, s, stack, m);
    var more := Observe(g, s, Last(Moved(stack, m))).1;
    assert first + (past + TrueMarks(m)) == (first + past) + TrueMarks(m);
    CancelPrefix(first + past, more, TrueMarks(m));
  }

  lemma ObservedSnoc(g: Program, seen: seq<string>, stack: seq<string>, moves: seq<Move>)
    requires stack != [] && moves != []
    ensures var (s, marks) := ObserveAll(g, UNOBSERVED, seen + Observed(stack, Front(moves)));
            var (s', more) := Observe(g, s, Last(StackAfter(stack, moves)));
            ObserveAll(g, UNOBSERVED, seen + Observed(stack, moves)) == (s', marks + more)
  {
    var names, last := seen + Observed(stack, Front(moves)), Last(StackAfter(stack, moves));
    ObserveAllSnoc(g, names, last);
    assert seen + Observed(stack, moves) == names + [last];
  }

  lemma TracksStep(g: Program, seen: seq<string>, stack: seq<string>, moves: seq<Move>)
    requires stack != [] && moves != []
    requires Possible(StackAfter(stack, Front(moves)), Last(moves))
    requires Tracks(g, seen, stack, Front(moves))
    requires NoDrain(g, ShadowAfter(g, seen, stack, Front(moves)), StackAfter(stack, Front(moves)))
    ensures Tracks(g, seen, stack, moves) <==> Readable(g, StackAfter(stack, Front(moves)), Last(moves))
    ensures Tracks(g, seen, stack, moves) ==>
              && NoDrain(g, ShadowAfter(g, seen, stack, moves), StackAfter(stack, moves))
              && ShadowAfter(g, seen, stack, moves).leafOpen == ShadowAfter(g, seen, stack, Front(moves)).leafOpen
  {
    ObservedSnoc(g, seen, stack, moves);
    ReadMove(g, ShadowAfter(g, seen, stack, Front(moves)), StackAfter(stack, Front(moves)), Last(moves),
             ObserveAll(g, UNOBSERVED, seen).1, MarksAfter(Front(moves)));
  }

  /** The recorder agrees with the truth after every step of the run. */
  ghost predicate TracksThroughout(g: Program, seen: seq<string>, stack: seq<string>, moves: seq<Move>)
    requires stack != []
  {
    Tracks(g, seen, stack, moves) && (moves != [] ==> TracksThroughout(g, seen, stack, Front(moves)))
  }

  lemma {:induction false} TracksEveryPrefix(g: Program, seen: seq<string>, stack: seq<string>, moves: seq<Move>, k: nat)
    requires stack != [] && k <= |moves|
    requires TracksThroughout(g, seen, stack, moves)
    ensures Tracks(g, seen, stack, moves[..k])
  {
    if k < |moves| {
      TracksEveryPrefix(g, seen, stack, Front(moves), k);
      assert Front(moves)[..k] == moves[..k];
    } else {
      assert moves[..k] == moves;
    }
  }

  /**
   Trace fidelity from any mirrored stack: the recorder's call trace is the
   true one after every step of a run exactly when every move of it is readable.
   */
  lemma {:induction false} FidelityFrom(g: Program, seen: seq<string>, stack: seq<string>, moves: seq<Move>)
    requires stack != []
    requires var s := ObserveAll(g, UNOBSERVED, seen).0; Mirrors(s, stack) && NoDrain(g, s, stack)
    requires AllPossible(stack, moves)
    ensures TracksThroughout(g, seen, stack, moves) <==> AllReadable(g, stack, moves)
    ensures TracksThroughout(g, seen, stack, moves) ==>
              var s := ShadowAfter(g, seen, stack, moves);
              NoDrain(g, s, StackAfter(stack, moves)) && s.leafOpen == ObserveAll(g, UNOBSERVED, seen).0.leafOpen
  {
    if moves == [] {
      assert seen + Observed(stack, moves) == seen;
      assert ObserveAll(g, UNOBSERVED, seen).1 + MarksAfter(moves) == ObserveAll(g, UNOBSERVED, seen).1;
    } else {
      FidelityFrom(g, seen, stack, Front(moves));
      if TracksThroughout(g, seen, stack, Front(moves)) {
        TracksStep(g, seen, stack, moves);
      }
    }
  }

  lemma SeenOne(g: Program, name: string)
    ensures ObserveAll(g, UNOBSERVED, [name]) == Observe(g, UNOBSERVED, name)
  {
    ObserveAllSnoc(g, [], name);
    assert [] + [name] == [name];
    assert [] + Observe(g, UNOBSERVED, name).1 == Observe(g, UNOBSERVED, name).1;
  }

  /**
   A run that starts in the begin block: the emitted call trace is the true one
   after every step exactly when every move is readable.
   */
  lemma {:induction false} FidelityFromMain(g: Program, main: string, moves: seq<Move>)
    requires BareName(main) == MAIN
    requires AllPossible([main], moves)
    ensures ObserveAll(g, UNOBSERVED, [main]).1 == [Enter(main, false)]
    ensures TracksThroughout(g, [main], [main], moves) <==> AllReadable(g, [main], moves)
  {
    SeenOne(g, main);
    FidelityFrom(g, [main], [main], moves);
  }

  /**
   The call-graph condition under which calls and returns are always readable:
   no procedure invokes itself, and no two procedures invoke each other. Every
   acyclic graph meets it.
   */
  ghost predicate NoShortCycle(g: Program) {
    forall p, q :: Invokes(g.calls, p, q) ==> p != q && !Invokes(g.calls, q, p)
  }

  lemma AcyclicHasNoShortCycle(g: Program)
    requires forall path :: |path| >= 2 && CallPath(g.calls, path) ==> path[0] != Last(path)
    ensures NoShortCycle(g)
  {
    forall p, q | Invokes(g.calls, p, q) ensures p != q && !Invokes(g.calls, q, p) {
      assert Linked(g.calls, [p, q], 0);
      assert CallPath(g.calls, [p, q]);
      if Invokes(g.calls, q, p) {
        assert Linked(g.calls, [p, q, p], 0) && Linked(g.calls, [p, q, p], 1);
        assert CallPath(g.calls, [p, q, p]);
      }
    }
  }

  ghost predicate EdgesJoin(g: Program, stack: seq<string>) {
    forall i :: 0 <= i < |stack| - 1 ==> Joined(g, stack, i)
  }

  predicate Joined(g: Program, stack: seq<string>, i: nat)
    requires i + 1 < |stack|
  {
    Invokes(g.calls, BareName(stack[i]), BareName(stack[i + 1]))
  }

  /** The move follows calls the scanner found. */
  predicate Scanned(g: Program, stack: seq<string>, m: Move)
    requires stack != []
  {
    match m
    case Call(c) => Invokes(g.calls, BareName(Last(stack)), BareName(c))
    case Sibling(c) =>
      |stack| >= 2 ==>
        var caller := BareName(stack[|stack| - 2]);
        Invokes(g.calls, caller, BareName(Last(stack))) && Invokes(g.calls, caller, BareName(c))
    case _ => true
  }

  /** Every call and hidden sibling boundary of a run is in the scanned graph. */
  ghost predicate AllScanned(g: Program, stack: seq<string>, moves: seq<Move>)
    requires stack != []
  {
    moves != [] ==>
      AllScanned(g, stack, Front(moves)) && Scanned(g, StackAfter(stack, Front(moves)), Last(moves))
  }

  /** No sibling repeats its predecessor or could have been called by it, and nothing else goes unobserved. */
  ghost predicate SiblingsTellable(g: Program, stack: seq<string>, moves: seq<Move>)
    requires stack != []
  {
    moves != [] ==>
      && SiblingsTellable(g, stack, Front(moves))
      && Tellable(g, StackAfter(stack, Front(moves)), Last(moves))
  }

  predicate Tellable(g: Program, stack: seq<string>, m: Move)
    requires stack != []
  {
    match m
    case Sibling(c) => c != Last(stack) && !Invokes(g.calls, BareName(Last(stack)), BareName(c))
    case Hidden(_, _) => false
    case _ => true
  }

  lemma {:induction false} StackKeepsEdges(g: Program, main: string, moves: seq<Move>)
    requires AllPossible([main], moves) && AllScanned(g, [main], moves) && SiblingsTellable(g, [main], moves)
    ensures EdgesJoin(g, StackAfter([main], moves))
  {
    if moves != [] {
      StackKeepsEdges(g, main, Front(moves));
      var stack, moved := StackAfter([main], Front(moves)), StackAfter([main], moves);
      forall i | 0 <= i < |moved| - 1 ensures Joined(g, moved, i) {
        if i < |stack| - 1 {
          assert Joined(g, stack, i);
        }
      }
    }
  }

  lemma {:induction false} ReadableIffSiblingsTellable(g: Program, main: string, moves: seq<Move>)
    requires NoShortCycle(g)
    requires AllPossible([main], moves) && AllScanned(g, [main], moves)
    ensures AllReadable(g, [main], moves) <==> SiblingsTellable(g, [main], moves)
  {
    if moves != [] {
      ReadableIffSiblingsTellable(g, main, Front(moves));
      if SiblingsTellable(g, [main], Front(moves)) {
        StackKeepsEdges(g, main, Front(moves));
        ReadableOnEdges(g, StackAfter([main], Front(moves)), Last(moves));
      }
    }
  }

  lemma ReadableOnEdges(g: Program, stack: seq<string>, m: Move)
    requires NoShortCycle(g) && stack != [] && EdgesJoin(g, stack) && Possible(stack, m) && Scanned(g, stack, m)
    ensures Readable(g, stack, m) <==> Tellable(g, stack, m)
  {
    if |stack| >= 2 {
      assert Joined(g, stack, |stack| - 2);
      assert Last(Front(stack)) == stack[|stack| - 2];
    }
  }

  /**
   On such a graph, when the scanner found every call a run makes, a run from
   the begin block is recorded faithfully exactly when its hidden sibling
   boundaries can be told from calls and nothing else goes unobserved.
   */
  lemma FidelityWithoutShortCycles(g: Program, main: string, moves: seq<Move>)
    requires BareName(main) == MAIN
    requires NoShortCycle(g)
    requires AllPossible([main], moves) && AllScanned(g, [main], moves)
    ensures TracksThroughout(g, [main], [main], moves) <==> SiblingsTellable(g, [main], moves)
  {
    FidelityFromMain(g, main, moves);
    ReadableIffSiblingsTellable(g, main, moves);
  }

  // ----- Runs whose first callers were inlined -----

  /** No callee's name contains `#`, as in every call graph scanned from source. */
  ghost predicate NoHash(g: Program) {
    forall c :: c in Callees(g.calls) ==> '#' !in c
  }

  lemma {:induction false} AfterSeparatorSuffix(name: string, start: nat, i: nat) returns (j: nat)
    requires 2 <= start <= i <= |name| && name[start - 2] == ':' && name[start - 1] == ':'
    ensures start <= j <= |name| && AfterSeparator(name, i) == name[j..]
  {
    if name[i - 2] == ':' && name[i - 1] == ':' {
      j := i;
    } else {
      j := AfterSeparatorSuffix(name, start, i - 1);
    }
  }

  lemma RuntimeNameIsNotMain(procedure: string)
    requires '#' !in procedure
    ensures BareName(RuntimeName(procedure)) != MAIN
  {
    var name := RuntimeName(procedure);
    var j := AfterSeparatorSuffix(name, 7, |name|);
    assert MAIN[0] == '#';
    assert j < |name| ==> name[j] == procedure[j - 7] && procedure[j - 7] in procedure && name[j..][0] == name[j];
  }

  lemma {:induction false} PrefixedNotMain(names: seq<string>, c: string)
    requires forall n :: n in names ==> '#' !in n
    requires c in Prefixed(names)
    ensures BareName(c) != MAIN
  {
    if c in Prefixed(Front(names)) {
      PrefixedNotMain(Front(names), c);
    } else {
      assert Last(names) in names;
      RuntimeNameIsNotMain(Last(names));
    }
  }

  /**
   A run first observed inside a procedure whose callers were all inlined: the
   recorder opens exactly the frames of the only call path below `#main`.
   */
  lemma InlinedStart(g: Program, leaf: string, chain: seq<string>)
    requires BareName(leaf) != MAIN && IsParentMap(g.calls, g.parents)
    requires IsChainFromMain(g.parents, BareName(leaf), Some(chain)) && |chain| > 2
    ensures var (s, marks) := Observe(g, UNOBSERVED, leaf);
            && s == Shadow(Prefixed(chain[1..|chain| - 1]), Some(leaf), false, true)
            && OpenFrames(marks) == Some([TOPLEVEL] + (Prefixed(chain[1..|chain| - 1]) + [leaf]))
    ensures CallPath(g.calls, chain) && chain[0] == MAIN && Last(chain) == BareName(leaf)
  {
    FirstIsChain(g, leaf, chain);
    ChainIsCallPath(g.calls, g.parents, BareName(leaf), chain);
    var callers := Prefixed(chain[1..|chain| - 1]);
    FirstEntersRecorded(callers, leaf);
    OpenFramesEnters([], callers + [leaf]);
    assert [] + Enters(callers + [leaf]) == Enters(callers + [leaf]);
  }

  lemma FirstIsChain(g: Program, leaf: string, chain: seq<string>)
    requires BareName(leaf) != MAIN
    requires IsChainFromMain(g.parents, BareName(leaf), Some(chain)) && |chain| > 2
    ensures var callers := Prefixed(chain[1..|chain| - 1]);
            callers != [] && Observe(g, UNOBSERVED, leaf) == FirstObservation(callers, leaf)
  {
    MainChainIsChain(g.parents, BareName(leaf));
    ChainUnique(g.parents, BareName(leaf), MainChain(g.parents, BareName(leaf)), Some(chain));
    PrefixedLength(chain[1..|chain| - 1]);
  }

  /** Below `#main`, every procedure of the chain is a callee. */
  lemma ChainBelowMain(g: Program, chain: seq<string>, i: nat)
    requires CallPath(g.calls, chain) && 1 <= i < |chain|
    ensures chain[i] in Callees(g.calls)
  {
    assert Linked(g.calls, chain, i - 1);
  }

  /** Nothing in an inlined chain below `#main` is `#main` itself. */
  lemma InlinedNoDrain(g: Program, chain: seq<string>, leaf: string, s: Shadow)
    requires NoHash(g) && BareName(leaf) != MAIN
    requires CallPath(g.calls, chain) && |chain| > 2
    ensures NoDrain(g, s, Prefixed(chain[1..|chain| - 1]) + [leaf])
  {
    var names := chain[1..|chain| - 1];
    assert '#' in MAIN by { assert MAIN[0] == '#'; }
    forall n | n in names ensures '#' !in n {
      var i :| 0 <= i < |names| && names[i] == n;
      ChainBelowMain(g, chain, i + 1);
    }
    forall c | c in Prefixed(names) ensures BareName(c) != MAIN {
      PrefixedNotMain(names, c);
    }
  }

  /** Observing the begin block at last closes precisely the frames that are open. */
  lemma DrainIsExact(g: Program, s: Shadow, stack: seq<string>, main: string)
    requires stack != [] && Mirrors(s, stack) && s.leafOpen && NoDrain(g, s, stack)
    requires BareName(main) == MAIN
    ensures var (after, marks) := Observe(g, s, main);
            Mirrors(after, [main]) && !after.leafOpen && marks == Leaves(|stack|)
  {
    assert s.callers == Front(stack) && s.current.value == Last(stack);
    forall c | c in s.callers ensures BareName(c) != MAIN { assert c in stack; }
    assert Last(stack) in stack;
  }
}
