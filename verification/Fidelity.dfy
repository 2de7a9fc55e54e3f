/**
 Fidelity when the recorder knows only the inner part of the true call stack:
 it opens no frame for `#main` or for the first context unless it synthesises
 one. `above` are the true frames outside the ones it knows. Default induction
 over moves is off where it only costs.
 */
module Fidelity {
  import opened Common
  import opened Ancestry
  import opened Text
  import opened CallInference

  /** How many of the frames open before a move it ends. */
  function Ends(m: Move): nat {
    match m
    case Return => 1
    case Sibling(_) => 1
    case Hidden(closed, _) => closed
    case _ => 0
  }

  /** No move ends the outermost frame the recorder knows. */
  ghost predicate KeepsBottom(above: seq<string>, stack: seq<string>, moves: seq<Move>)
    requires stack != []
  {
    moves != [] ==>
      && KeepsBottom(above, stack, Front(moves))
      && |StackAfter(above + stack, Front(moves))| > |above| + Ends(Last(moves))
  }

  /**
   After the contexts `seen` and then those of `moves`, the recorder's stack is
   the true one without `above`, and it has added exactly the true marks.
   */
  ghost predicate TracksBelow(g: Program, seen: seq<string>, above: seq<string>, stack: seq<string>, moves: seq<Move>)
    requires stack != []
  {
    var (s, marks) := ObserveAll(g, UNOBSERVED, seen + Observed(above + stack, moves));
    && s.current.Some?
    && above + (s.callers + [s.current.value]) == StackAfter(above + stack, moves)
    && marks == ObserveAll(g, UNOBSERVED, seen).1 + MarksAfter(moves)
  }

  ghost predicate TracksBelowThroughout(g: Program, seen: seq<string>, above: seq<string>, stack: seq<string>, moves: seq<Move>)
    requires stack != []
  {
    TracksBelow(g, seen, above, stack, moves)
    && (moves != [] ==> TracksBelowThroughout(g, seen, above, stack, Front(moves)))
  }

  lemma MovedBelow(above: seq<string>, stack: seq<string>, full: seq<string>, m: Move, moved: seq<string>)
    requires full == above + stack && stack != [] && Possible(full, m) && |stack| > Ends(m) && moved == Moved(full, m)
    ensures Possible(stack, m) && moved == above + Moved(stack, m)
  {
  }

  /** Such a run is a run of the known frames alone, under the same contexts. */
  lemma {:induction false} AboveStays(above: seq<string>, stack: seq<string>, moves: seq<Move>)
    requires stack != [] && AllPossible(above + stack, moves) && KeepsBottom(above, stack, moves)
    ensures StackAfter(above + stack, moves) == above + StackAfter(stack, moves)
    ensures AllPossible(stack, moves)
    ensures Observed(above + stack, moves) == Observed(stack, moves)
  {
    hide Moved, Possible;
    if moves != [] {
      AboveStays(above, stack, Front(moves));
      MovedBelow(above, StackAfter(stack, Front(moves)), StackAfter(above + stack, Front(moves)), Last(moves), StackAfter(above + stack, moves));
    }
  }

  lemma TracksBelowIsTracks(g: Program, seen: seq<string>, above: seq<string>, stack: seq<string>, moves: seq<Move>)
    requires stack != [] && AllPossible(above + stack, moves) && KeepsBottom(above, stack, moves)
    ensures TracksBelow(g, seen, above, stack, moves) <==> Tracks(g, seen, stack, moves)
  {
    AboveStays(above, stack, moves);
    var s := ObserveAll(g, UNOBSERVED, seen + Observed(stack, moves)).0;
    if s.current.Some? {
      CancelPrefix(above, s.callers + [s.current.value], StackAfter(stack, moves));
    }
  }

  lemma {:induction false} ThroughoutBelow(g: Program, seen: seq<string>, above: seq<string>, stack: seq<string>, moves: seq<Move>)
    requires stack != [] && AllPossible(above + stack, moves) && KeepsBottom(above, stack, moves)
    ensures TracksBelowThroughout(g, seen, above, stack, moves) <==> TracksThroughout(g, seen, stack, moves)
  {
    hide TracksBelow, Tracks;
    TracksBelowIsTracks(g, seen, above, stack, moves);
    if moves != [] {
      ThroughoutBelow(g, seen, above, stack, Front(moves));
    }
  }

  /** Several unobserved changes are never read; a drain that closes what they close leaves `#main` too many. */
  lemma HiddenIsMisread(g: Program, s: Shadow, above: seq<string>, known: seq<string>, m: Move)
    requires known != [] && Mirrors(s, known) && NoDrain(g, s, known)
    requires Possible(above + known, m) && m.Hidden? && m.closed >= |known|
    ensures var now := Moved(above + known, m);
            var (s', marks) := Observe(g, s, Last(now));
            !(marks == TrueMarks(m) && s'.current.Some? && above + (s'.callers + [s'.current.value]) == now)
  {
    var now := Moved(above + known, m);
    var name := Last(now);
    if s.leafOpen && BareName(name) == MAIN {
      assert forall c :: c in s.callers ==> c in known;
      assert s.current.value in known;
      assert m.entered == [];
      assert |now| <= |above|;
    } else {
      ObserveInfers(g, s, known, name);
      HiddenIsNeverInferred(g, known, name, m.closed, m.entered);
    }
  }

  /** A move that ends the outermost known frame is never read as what it is. */
  lemma LeavingBottomIsMisread(g: Program, s: Shadow, above: seq<string>, known: seq<string>, m: Move)
    requires known != [] && Mirrors(s, known) && NoDrain(g, s, known)
    requires Possible(above + known, m) && Ends(m) >= |known|
    ensures var now := Moved(above + known, m);
            var (s', marks) := Observe(g, s, Last(now));
            !(marks == TrueMarks(m) && s'.current.Some? && above + (s'.callers + [s'.current.value]) == now)
  {
    if m.Hidden? {
      HiddenIsMisread(g, s, above, known, m);
    } else {
      assert s.callers == [];
      assert Leaves(1) == [Leave(false)] by { assert Leaves(0) == []; }
    }
  }

  lemma EndsAll(above: seq<string>, stack: seq<string>, moves: seq<Move>)
    requires stack != [] && moves != [] && AllPossible(above + stack, moves)
    requires KeepsBottom(above, stack, Front(moves)) && !KeepsBottom(above, stack, moves)
    ensures Ends(Last(moves)) >= |StackAfter(stack, Front(moves))|
  {
    AboveStays(above, stack, Front(moves));
  }

  lemma LastTrueMarks(moves: seq<Move>)
    requires moves != []
    ensures MarksAfter(moves) == MarksAfter(Front(moves)) + TrueMarks(Last(moves))
  {
  }

  lemma LeftBottom(g: Program, seen: seq<string>, above: seq<string>, stack: seq<string>, moves: seq<Move>)
    requires stack != [] && moves != [] && AllPossible(above + stack, moves)
    requires KeepsBottom(above, stack, Front(moves)) && !KeepsBottom(above, stack, moves)
    requires TracksBelow(g, seen, above, stack, Front(moves))
    requires NoDrain(g, ShadowAfter(g, seen, stack, Front(moves)), StackAfter(stack, Front(moves)))
    ensures !TracksBelow(g, seen, above, stack, moves)
  {
    hide Observe, ObserveAll, Observed, MarksAfter, TrueMarks, NoDrain, Possible, Moved, KeepsBottom;
    AboveStays(above, stack, Front(moves));
    var known, m := StackAfter(stack, Front(moves)), Last(moves);
    EndsAll(above, stack, moves);
    LastTrueMarks(moves);
    var (s, marks) := ObserveAll(g, UNOBSERVED, seen + Observed(above + stack, Front(moves)));
    CancelPrefix(above, s.callers + [s.current.value], known);
    ObservedSnoc(g, seen, above + stack, moves);
    LeavingBottomIsMisread(g, s, above, known, m);
    var first, past := ObserveAll(g, UNOBSERVED, seen).1, MarksAfter(Front(moves));
    assert first + (past + TrueMarks(m)) == (first + past) + TrueMarks(m);
    CancelPrefix(first + past, Observe(g, s, Last(StackAfter(above + stack, moves))).1, TrueMarks(m));
  }

  /**
   The exact condition, from any state in which the recorder knows the inner
   part `stack` of the true stack: its stack and calls are the true ones after
   every move if and only if no move ends the outermost frame it knows and
   every move is readable on the frames it knows.
   */
  lemma {:induction false} FidelityBelow(g: Program, seen: seq<string>, above: seq<string>, stack: seq<string>, moves: seq<Move>)
    requires stack != []
    requires var s := ObserveAll(g, UNOBSERVED, seen).0; Mirrors(s, stack) && NoDrain(g, s, stack)
    requires AllPossible(above + stack, moves)
    ensures TracksBelowThroughout(g, seen, above, stack, moves) <==>
            KeepsBottom(above, stack, moves) && AllReadable(g, stack, moves)
  {
    hide TracksBelow;
    if KeepsBottom(above, stack, moves) {
      AboveStays(above, stack, moves);
      ThroughoutBelow(g, seen, above, stack, moves);
      FidelityFrom(g, seen, stack, moves);
    } else {
      FidelityBelow(g, seen, above, stack, Front(moves));
      if TracksBelowThroughout(g, seen, above, stack, moves) {
        AboveStays(above, stack, Front(moves));
        ThroughoutBelow(g, seen, above, stack, Front(moves));
        FidelityFrom(g, seen, stack, Front(moves));
        LeftBottom(g, seen, above, stack, moves);
      }
    }
  }

  /** A chain is drained for `#main` only while no frame of `#main` is among its callers. */
  lemma MainAmongCallersIsNoDrain(g: Program, s: Shadow, main: string, c: string)
    requires s.current.Some? && s.current.value != main && BareName(main) == MAIN
    requires c in s.callers && BareName(c) == MAIN
    ensures var s' := Observe(g, s, main).0;
            && s'.leafOpen == s.leafOpen && s'.current == Some(main)
            && (s'.callers == Front(s.callers) || s'.callers == s.callers || s'.callers == s.callers + [s.current.value])
  {
  }

  // ----- The starts without a frame for everything -----

  /** The first context gets no frame: it is not `#main` and has no inlined chain. */
  ghost predicate StartsFrameless(g: Program, first: string) {
    BareName(first) != MAIN && InlinedCallers(MainChain(g.parents, BareName(first))) == []
  }

  lemma FramelessStart(g: Program, first: string)
    requires StartsFrameless(g, first)
    ensures ObserveAll(g, UNOBSERVED, [first]) == (Shadow([], Some(first), false, false), [])
  {
    SeenOne(g, first);
  }

  /**
   A run first observed in a procedure the recorder opens no frame for, under
   any true callers `above`: what happens below it is recorded truly, if and
   only if every move is readable and none returns from or replaces it.
   */
  lemma {:induction false} FidelityFromFramelessStart(g: Program, above: seq<string>, first: string, moves: seq<Move>)
    requires StartsFrameless(g, first)
    requires AllPossible(above + [first], moves)
    ensures TracksBelowThroughout(g, [first], above, [first], moves) <==>
            KeepsBottom(above, [first], moves) && AllReadable(g, [first], moves)
  {
    FramelessStart(g, first);
    FidelityBelow(g, [first], above, [first], moves);
  }

  lemma OnePossible(stack: seq<string>, m: Move)
    requires stack != []
    ensures AllPossible(stack, [m]) <==> Possible(stack, m)
    ensures forall g :: AllReadable(g, stack, [m]) <==> Readable(g, stack, m)
  {
    assert Front([m]) == [];
  }

  /**
   Why readability is asked of the known frames only: a call back to the caller
   the recorder never saw is not readable on the true stack, yet recorded truly.
   */
  lemma CallToUnseenCallerIsRead(g: Program, caller: string, first: string)
    requires StartsFrameless(g, first) && caller != first && BareName(caller) != MAIN
    ensures var moves := [Call(caller)];
            && AllPossible([caller] + [first], moves) && !AllReadable(g, [caller] + [first], moves)
            && TracksBelowThroughout(g, [first], [caller], [first], moves)
  {
    var moves := [Call(caller)];
    assert Front(moves) == [];
    assert [caller] + [first] == [caller, first] && Front([caller, first]) == [caller];
    OnePossible([first], Call(caller));
    OnePossible([caller, first], Call(caller));
    assert !CallerInvokesBoth(g.calls, Front([first]), first, caller);
    FidelityFromFramelessStart(g, [caller], first, moves);
  }

  /** The frames the recorder opens for a chain of inlined callers and their leaf. */
  function ChainStack(leaf: string, chain: seq<string>): (stack: seq<string>)
    ensures stack != []
  {
    (if |chain| >= 2 then Prefixed(chain[1..|chain| - 1]) else []) + [leaf]
  }

  /** `chain` is the inlined chain of a first context `leaf`. */
  ghost predicate StartsInlined(g: Program, leaf: string, chain: seq<string>) {
    && BareName(leaf) != MAIN
    && IsChainFromMain(g.parents, BareName(leaf), Some(chain)) && |chain| > 2
  }

  lemma InlinedStartMirrors(g: Program, leaf: string, chain: seq<string>)
    requires NoHash(g) && IsParentMap(g.calls, g.parents) && StartsInlined(g, leaf, chain)
    ensures var (s, marks) := ObserveAll(g, UNOBSERVED, [leaf]);
            && Mirrors(s, ChainStack(leaf, chain)) && NoDrain(g, s, ChainStack(leaf, chain))
            && s.leafOpen && !s.mainOpen && marks == Enters(ChainStack(leaf, chain))
  {
    InlinedStart(g, leaf, chain);
    SeenOne(g, leaf);
    InlinedNoDrain(g, chain, leaf, Observe(g, UNOBSERVED, leaf).0);
    FirstIsChain(g, leaf, chain);
    FirstEntersRecorded(Prefixed(chain[1..|chain| - 1]), leaf);
  }

  /** The same for a run first observed in an inlined chain; `above` is then `#main`. */
  lemma {:induction false} FidelityFromInlinedStart(g: Program, above: seq<string>, leaf: string, chain: seq<string>, moves: seq<Move>)
    requires NoHash(g) && IsParentMap(g.calls, g.parents) && StartsInlined(g, leaf, chain)
    requires AllPossible(above + ChainStack(leaf, chain), moves)
    ensures TracksBelowThroughout(g, [leaf], above, ChainStack(leaf, chain), moves) <==>
            KeepsBottom(above, ChainStack(leaf, chain), moves) && AllReadable(g, ChainStack(leaf, chain), moves)
  {
    InlinedStartMirrors(g, leaf, chain);
    FidelityBelow(g, [leaf], above, ChainStack(leaf, chain), moves);
  }

  /** When `#main` surfaces after such a run, the open frames are closed and `#main` runs without a frame. */
  lemma SurfacedMain(g: Program, seen: seq<string>, stack: seq<string>, main: string)
    requires stack != [] && BareName(main) == MAIN
    requires var s := ObserveAll(g, UNOBSERVED, seen).0; Mirrors(s, stack) && s.leafOpen && !s.mainOpen && NoDrain(g, s, stack)
    ensures ObserveAll(g, UNOBSERVED, seen + [main]) ==
            (Shadow([], Some(main), false, false), ObserveAll(g, UNOBSERVED, seen).1 + Leaves(|stack|))
  {
    ObserveAllSnoc(g, seen, main);
    DrainIsExact(g, ObserveAll(g, UNOBSERVED, seen).0, stack, main);
  }

  /** The recorder's state after a readable run in an inlined chain. */
  lemma ChainTracked(g: Program, leaf: string, chain: seq<string>, moves: seq<Move>)
    requires NoHash(g) && IsParentMap(g.calls, g.parents) && StartsInlined(g, leaf, chain)
    requires AllPossible(ChainStack(leaf, chain), moves) && AllReadable(g, ChainStack(leaf, chain), moves)
    ensures var stack := ChainStack(leaf, chain);
            var (s, marks) := ObserveAll(g, UNOBSERVED, [leaf] + Observed(stack, moves));
            && Mirrors(s, StackAfter(stack, moves)) && NoDrain(g, s, StackAfter(stack, moves))
            && s.leafOpen && !s.mainOpen && marks == Enters(stack) + MarksAfter(moves)
  {
    hide AllPossible, AllReadable, Observed, ChainStack, NoDrain, StackAfter, MarksAfter;
    InlinedStartMirrors(g, leaf, chain);
    FidelityFrom(g, [leaf], ChainStack(leaf, chain), moves);
    MainFlagStays(g, [leaf], Observed(ChainStack(leaf, chain), moves));
  }

  lemma MainFlagStep(g: Program, s: Shadow, name: string)
    requires s.current.Some?
    ensures Observe(g, s, name).0.current.Some? && Observe(g, s, name).0.mainOpen == s.mainOpen
  {
  }

  /** A synthesised `#main` frame stays, and none is synthesised later. */
  lemma {:induction false} MainFlagStays(g: Program, seen: seq<string>, names: seq<string>)
    requires ObserveAll(g, UNOBSERVED, seen).0.current.Some?
    ensures var s := ObserveAll(g, UNOBSERVED, seen + names).0;
            s.current.Some? && s.mainOpen == ObserveAll(g, UNOBSERVED, seen).0.mainOpen
  {
    hide Observe;
    if names == [] {
      assert seen + names == seen;
    } else {
      MainFlagStays(g, seen, Front(names));
      MainFlagStep(g, ObserveAll(g, UNOBSERVED, seen + Front(names)).0, Last(names));
      ObserveAllSnoc(g, seen + Front(names), Last(names));
      assert seen + names == seen + Front(names) + [Last(names)];
    }
  }

  // ----- Every way a recording can begin -----

  /**
   How the contexts of a run begin: in `#main`; inside an inlined chain; inside
   one whose frames were closed when `#main` surfaced after the moves
   `unwound`; or in a procedure the recorder opens no frame for.
   */
  datatype Entry =
    | InMain(main: string)
    | InChain(leaf: string, chain: seq<string>)
    | MainSurfaced(leaf: string, chain: seq<string>, unwound: seq<Move>, main: string)
    | WithoutFrame(first: string)

  /** The contexts observed so far. */
  function Seen(e: Entry): seq<string> {
    match e
    case InMain(main) => [main]
    case InChain(leaf, chain) => [leaf]
    case MainSurfaced(leaf, chain, unwound, main) => [leaf] + Observed(ChainStack(leaf, chain), unwound) + [main]
    case WithoutFrame(first) => [first]
  }

  /** The true frames the recorder knows, outermost first. */
  function Known(e: Entry): (stack: seq<string>)
    ensures stack != []
  {
    match e
    case InMain(main) => [main]
    case InChain(leaf, chain) => ChainStack(leaf, chain)
    case MainSurfaced(_, _, _, main) => [main]
    case WithoutFrame(first) => [first]
  }

  /** What has been recorded so far. */
  function Opened(e: Entry): seq<Mark> {
    match e
    case InMain(main) => [Enter(main, false)]
    case InChain(leaf, chain) => Enters(ChainStack(leaf, chain))
    case MainSurfaced(leaf, chain, unwound, main) =>
      var stack := ChainStack(leaf, chain);
      Enters(stack) + MarksAfter(unwound) + Leaves(|StackAfter(stack, unwound)|)
    case WithoutFrame(first) => []
  }

  /** The outermost known frame has a frame of its own in the trace. */
  predicate HasFrame(e: Entry) {
    e.InMain? || e.InChain?
  }

  ghost predicate Begins(g: Program, e: Entry) {
    match e
    case InMain(main) => BareName(main) == MAIN
    case InChain(leaf, chain) => StartsInlined(g, leaf, chain)
    case MainSurfaced(leaf, chain, unwound, main) =>
      && StartsInlined(g, leaf, chain) && BareName(main) == MAIN
      && AllPossible(ChainStack(leaf, chain), unwound) && AllReadable(g, ChainStack(leaf, chain), unwound)
    case WithoutFrame(first) => StartsFrameless(g, first)
  }

  predicate Synthesised(s: Shadow) {
    s.mainOpen || s.leafOpen
  }

  lemma EntryState(g: Program, e: Entry)
    requires NoHash(g) && IsParentMap(g.calls, g.parents) && Begins(g, e)
    ensures var (s, marks) := ObserveAll(g, UNOBSERVED, Seen(e));
            && Mirrors(s, Known(e)) && NoDrain(g, s, Known(e))
            && marks == Opened(e) && (Synthesised(s) <==> HasFrame(e))
  {
    hide ObserveAll, ChainStack, AllPossible, AllReadable, StackAfter, Observed, MarksAfter, NoHash;
    match e
    case InMain(main) =>
      SeenOne(g, main);
    case InChain(leaf, chain) =>
      InlinedStartMirrors(g, leaf, chain);
    case MainSurfaced(leaf, chain, unwound, main) =>
      ChainTracked(g, leaf, chain, unwound);
      SurfacedMain(g, [leaf] + Observed(ChainStack(leaf, chain), unwound), StackAfter(ChainStack(leaf, chain), unwound), main);
    case WithoutFrame(first) =>
      FramelessStart(g, first);
  }

  // ----- Inputs that are misread -----

  lemma TwoMoves(stack: seq<string>, m: Move, n: Move)
    requires stack != []
    ensures StackAfter(stack, [m]) == Moved(stack, m)
    ensures StackAfter(stack, [m, n]) == Moved(Moved(stack, m), n)
    ensures Observed(stack, [m, n]) == [Last(Moved(stack, m)), Last(Moved(Moved(stack, m), n))]
    ensures MarksAfter([m, n]) == TrueMarks(m) + TrueMarks(n)
  {
    hide Moved, TrueMarks;
    assert Front([m, n]) == [m] && Front([m]) == [];
    assert MarksAfter([m]) == [] + TrueMarks(m) == TrueMarks(m);
    assert Observed(stack, [m]) == [] + [Last(StackAfter(stack, [m]))];
  }

  lemma TwoPossible(g: Program, stack: seq<string>, m: Move, n: Move)
    requires stack != [] && Possible(stack, m) && Possible(Moved(stack, m), n)
    ensures AllPossible(stack, [m, n])
    ensures Readable(g, stack, m) && Readable(g, Moved(stack, m), n) ==> AllReadable(g, stack, [m, n])
  {
    TwoMoves(stack, m, n);
    assert Front([m, n]) == [m] && Front([m]) == [];
  }

  lemma ThreeSeen(g: Program, a: string, b: string, c: string)
    ensures var (s1, m1) := Observe(g, UNOBSERVED, a);
            var (s2, m2) := Observe(g, s1, b);
            var (s3, m3) := Observe(g, s2, c);
            ObserveAll(g, UNOBSERVED, [a, b, c]) == (s3, m1 + m2 + m3)
  {
    SeenOne(g, a);
    ObserveAllSnoc(g, [a], b);
    ObserveAllSnoc(g, [a, b], c);
    assert [a] + [b] == [a, b] && [a, b] + [c] == [a, b, c];
  }

  /**
   `begin exec.w exec.r end`, first observed in `w`: every move is possible and
   readable on the true stack, yet `w`'s return is lost and `#main` is entered
   instead of returned to.
   */
  lemma FramelessSiblingIsMisread(g: Program, main: string, w: string, r: string)
    requires StartsFrameless(g, w) && BareName(main) == MAIN
    requires Invokes(g.calls, MAIN, BareName(w)) && Invokes(g.calls, MAIN, BareName(r))
    requires !Invokes(g.calls, BareName(w), BareName(r)) && w != r && r != main && w != main && BareName(r) != MAIN
    ensures var moves := [Sibling(r), Return];
            && AllPossible([main, w], moves) && AllReadable(g, [main, w], moves)
            && MarksAfter(moves) == [Leave(false), Enter(r, true), Leave(true)]
            && ObserveAll(g, UNOBSERVED, [w] + Observed([main, w], moves)).1 == [Enter(r, true), Enter(main, true)]
  {
    var stack := [main, w];
    assert Front(stack) == [main] && Moved(stack, Sibling(r)) == [main, r] && Front([main, r]) == [main];
    TwoMoves(stack, Sibling(r), Return);
    TwoPossible(g, stack, Sibling(r), Return);
    assert [w] + [r, main] == [w, r, main];
    ThreeSeen(g, w, r, main);
    assert [] + [w] == [w];
  }

  lemma FourSeen(g: Program, a: string, b: string, c: string, d: string)
    ensures var (s, marks) := ObserveAll(g, UNOBSERVED, [a, b, c]);
            var (s', more) := Observe(g, s, d);
            ObserveAll(g, UNOBSERVED, [a, b, c, d]) == (s', marks + more)
  {
    ObserveAllSnoc(g, [a, b, c], d);
    assert [a, b, c] + [d] == [a, b, c, d];
  }

  lemma CalledBack(g: Program, main: string, a: string, b: string)
    requires BareName(main) == MAIN && a != main && b != main && a != b
    requires Invokes(g.calls, BareName(a), BareName(b))
    ensures ObserveAll(g, UNOBSERVED, [main, a, b, a]).1 == [Enter(main, false), Enter(a, true), Enter(b, true), Leave(true)]
  {
    hide BareName, ObserveAll;
    ThreeSeen(g, main, a, b);
    FourSeen(g, main, a, b, a);
    var s1 := Observe(g, UNOBSERVED, main).0;
    assert s1 == Shadow([], Some(main), true, false);
    var s2 := Observe(g, s1, a).0;
    assert s2 == Shadow([main], Some(a), true, false) by { assert [] + [main] == [main]; }
    var s3 := Observe(g, s2, b).0;
    assert s3 == Shadow([main, a], Some(b), true, false) by { assert [main] + [a] == [main, a]; }
  }

  /** Two procedures that call each other: calling back is read as returning. */
  lemma CallBackIsMisread(g: Program, main: string, a: string, b: string)
    requires BareName(main) == MAIN && a != main && b != main && a != b
    requires BareName(a) != MAIN && BareName(b) != MAIN && Invokes(g.calls, BareName(a), BareName(b))
    ensures var moves := [Call(a), Call(b), Call(a)];
            && AllPossible([main], moves) && !AllReadable(g, [main], moves)
            && MarksAfter(moves) == [Enter(a, true), Enter(b, true), Enter(a, true)]
            && ObserveAll(g, UNOBSERVED, [main] + Observed([main], moves)).1
               == [Enter(main, false), Enter(a, true), Enter(b, true), Leave(true)]
  {
    hide ObserveAll, BareName, Invokes;
    var two, moves := [Call(a), Call(b)], [Call(a), Call(b), Call(a)];
    assert Moved([main], Call(a)) == [main, a] && Moved([main, a], Call(b)) == [main, a, b];
    assert Front(moves) == two;
    TwoMoves([main], Call(a), Call(b));
    TwoPossible(g, [main], Call(a), Call(b));
    assert Front([main, a, b]) == [main, a];
    assert [main] + ([a, b] + [a]) == [main, a, b, a];
    CalledBack(g, main, a, b);
  }

  lemma OneCall(g: Program, main: string, a: string, b: string)
    requires BareName(main) == MAIN && a != main
    ensures var (s, marks) := ObserveAll(g, UNOBSERVED, [main, a, b]);
            var (s', more) := Observe(g, Shadow([main], Some(a), true, false), b);
            s == s' && marks == [Enter(main, false), Enter(a, true)] + more
  {
    hide BareName, ObserveAll;
    ThreeSeen(g, main, a, b);
    var s1 := Observe(g, UNOBSERVED, main).0;
    assert s1 == Shadow([], Some(main), true, false);
    assert [] + [main] == [main];
  }

  /**
   A call the scanner missed: `b` is called by `a`, the graph knows only that
   `#main` calls both, and `a` is recorded as ended.
   */
  lemma MissedCallIsMisread(g: Program, main: string, a: string, b: string)
    requires BareName(main) == MAIN && BareName(a) != MAIN && BareName(b) != MAIN && a != b && a != main && b != main
    requires Invokes(g.calls, MAIN, BareName(a)) && Invokes(g.calls, MAIN, BareName(b))
    requires !Invokes(g.calls, BareName(a), BareName(b))
    ensures var moves := [Call(a), Call(b)];
            && AllPossible([main], moves) && !AllReadable(g, [main], moves)
            && MarksAfter(moves) == [Enter(a, true), Enter(b, true)]
            && ObserveAll(g, UNOBSERVED, [main] + Observed([main], moves)).1
               == [Enter(main, false), Enter(a, true), Leave(false), Enter(b, true)]
  {
    var moves := [Call(a), Call(b)];
    assert Moved([main], Call(a)) == [main, a] && Front([main, a]) == [main];
    TwoMoves([main], Call(a), Call(b));
    TwoPossible(g, [main], Call(a), Call(b));
    assert Front(moves) == [Call(a)];
    assert [main] + [a, b] == [main, a, b];
    OneCall(g, main, a, b);
  }

  /** Two frames that end between observed operations: `#main` is entered once more instead. */
  lemma TwoReturnsAreMisread(g: Program, main: string, outer: string, inner: string)
    requires BareName(main) == MAIN && BareName(outer) != MAIN && BareName(inner) != MAIN
    requires main != outer && outer != inner && inner != main
    requires !TakenForSibling(g, [main, outer], inner) && !Invokes(g.calls, BareName(outer), MAIN)
    ensures var moves := [Call(outer), Call(inner), Hidden(2, [])];
            && AllPossible([main], moves) && !AllReadable(g, [main], moves)
            && MarksAfter(moves) == [Enter(outer, true), Enter(inner, true), Leave(false), Leave(false)]
            && ObserveAll(g, UNOBSERVED, [main] + Observed([main], moves)).1
               == [Enter(main, false), Enter(outer, true), Enter(inner, true), Enter(main, true)]
  {
    hide ObserveAll, BareName, Invokes;
    var two, moves := [Call(outer), Call(inner)], [Call(outer), Call(inner), Hidden(2, [])];
    assert Moved([main], Call(outer)) == [main, outer] && Moved([main, outer], Call(inner)) == [main, outer, inner];
    assert Moved([main, outer, inner], Hidden(2, [])) == [main];
    assert Front(moves) == two;
    TwoMoves([main], Call(outer), Call(inner));
    TwoPossible(g, [main], Call(outer), Call(inner));
    assert Leaves(2) == [Leave(false), Leave(false)] by { assert Leaves(1) == [] + [Leave(false)]; }
    assert [main] + ([outer, inner] + [main]) == [main, outer, inner, main];
    EnteredOnceMore(g, main, outer, inner);
  }

  lemma EnteredOnceMore(g: Program, main: string, outer: string, inner: string)
    requires BareName(main) == MAIN && main != outer && outer != inner && inner != main
    requires !TakenForSibling(g, [main, outer], inner) && !Invokes(g.calls, BareName(outer), MAIN)
    ensures ObserveAll(g, UNOBSERVED, [main, outer, inner, main]).1
            == [Enter(main, false), Enter(outer, true), Enter(inner, true), Enter(main, true)]
  {
    hide ObserveAll, BareName, Invokes;
    assert Front([main, outer]) == [main] && [main] + [outer] == [main, outer];
    OneCall(g, main, outer, inner);
    FourSeen(g, main, outer, inner, main);
    assert ObserveAll(g, UNOBSERVED, [main, outer, inner]).0 == Shadow([main, outer], Some(inner), true, false);
  }

  // ----- The smallest such program -----

  /** A runtime name without further separators stands for its procedure. */
  lemma BareOfRuntime(procedure: string)
    requires ':' !in procedure
    ensures BareName(RuntimeName(procedure)) == procedure
  {
    BareOfPath("#exec", procedure);
    assert RuntimeName(procedure) == "#exec" + "::" + procedure;
  }

  /** `begin exec.w exec.r end` and its parent map. */
  const SIBLINGS := Program(map[MAIN := {"w", "r"}], map["w" := Some(MAIN), "r" := Some(MAIN)])

  lemma ParentMeansFrameless(g: Program, procedure: string)
    requires ':' !in procedure && procedure != MAIN
    requires procedure in g.parents && g.parents[procedure] == Some(MAIN)
    ensures StartsFrameless(g, RuntimeName(procedure))
  {
    BareOfRuntime(procedure);
    var chain := MainChain(g.parents, procedure);
    MainChainIsChain(g.parents, procedure);
    assert Ancestor(g.parents, procedure, 0) == Some(procedure);
    assert Ancestor(g.parents, procedure, 1) == Some(MAIN);
    assert chain.Some? ==> |chain.value| <= 2;
  }

  /** Every hypothesis of `FramelessSiblingIsMisread` is met by that program. */
  lemma SiblingsAreMisread()
    ensures IsParentMap(SIBLINGS.calls, SIBLINGS.parents)
    ensures var main, w, r := RuntimeName(MAIN), RuntimeName("w"), RuntimeName("r");
            var moves := [Sibling(r), Return];
            && AllPossible([main, w], moves) && AllReadable(SIBLINGS, [main, w], moves)
            && MarksAfter(moves) == [Leave(false), Enter(r, true), Leave(true)]
            && ObserveAll(SIBLINGS, UNOBSERVED, [w] + Observed([main, w], moves)).1 == [Enter(r, true), Enter(main, true)]
  {
    var main, w, r := RuntimeName(MAIN), RuntimeName("w"), RuntimeName("r");
    assert "w"[0] != "r"[0] && MAIN[0] == '#' && w[7] == 'w' && r[7] == 'r' && main[7] == '#';
    forall j | 0 <= j < |MAIN| ensures MAIN[j] != ':' {
    }
    BareOfRuntime(MAIN);
    BareOfRuntime("w");
    BareOfRuntime("r");
    ParentMeansFrameless(SIBLINGS, "w");
    SiblingParents();
    FramelessSiblingIsMisread(SIBLINGS, main, w, r);
  }

  lemma SiblingParents()
    ensures IsParentMap(SIBLINGS.calls, SIBLINGS.parents)
  {
    var g, parents := SIBLINGS.calls, SIBLINGS.parents;
    assert g[MAIN] == {"w", "r"};
    assert Callees(g) == {"w", "r"};
    forall c | c in parents ensures CallersOf(g, c) == {MAIN} {
    }
  }
}
