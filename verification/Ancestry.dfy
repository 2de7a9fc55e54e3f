/**
 The inverted call graph (`build_parent_map`) and the walk from a procedure up
 to the begin block (`chain_from_main`).
 */
module Ancestry {
  import opened Common

  /** Bare procedure name to the bare names of the procedures it invokes. */
  type CallGraph = map<string, set<string>>

  /** The bare name of the implicit `begin ... end` body. */
  const MAIN := "#main"

  /** The bound on the walk. */
  const WALK_BOUND := 256

  predicate Invokes(g: CallGraph, caller: string, callee: string) {
    caller in g && callee in g[caller]
  }

  function CallersOf(g: CallGraph, callee: string): set<string> {
    set p | p in g && callee in g[p]
  }

  function Callees(g: CallGraph): set<string> {
    set p, c | p in g && c in g[p] :: c
  }

  /** What the parent map must be: the only caller of a callee, or `None` when it has several. */
  ghost predicate IsParentMap(g: CallGraph, parents: map<string, Option<string>>) {
    && parents.Keys == Callees(g)
    && forall c :: c in parents ==>
         (forall p :: parents[c] == Some(p) <==> CallersOf(g, c) == {p})
  }

  lemma ParentMapUnique(g: CallGraph, m1: map<string, Option<string>>, m2: map<string, Option<string>>)
    requires IsParentMap(g, m1) && IsParentMap(g, m2)
    ensures m1 == m2
  {
    forall c | c in m1 ensures m1[c] == m2[c] {
      if m1[c].Some? {
        assert m1[c] == Some(m1[c].value);
        assert m2[c] == Some(m1[c].value);
      } else if m2[c].Some? {
        assert m2[c] == Some(m2[c].value);
        assert m1[c] == Some(m2[c].value);
      }
    }
  }

  /** `None` marks exactly the callees with two or more callers. */
  lemma NoneMeansSeveralCallers(g: CallGraph, parents: map<string, Option<string>>, c: string)
    requires IsParentMap(g, parents)
    ensures c in parents <==> CallersOf(g, c) != {}
    ensures c in parents ==> (parents[c].None? <==> |CallersOf(g, c)| >= 2)
  {
    if c in parents {
      assert exists p :: p in g && c in g[p];
      var p :| p in g && c in g[p];
      assert p in CallersOf(g, c);
      if |CallersOf(g, c)| == 1 {
        assert CallersOf(g, c) - {p} == {} by {
          assert |CallersOf(g, c) - {p}| == 0;
        }
        assert CallersOf(g, c) == {p};
        assert parents[c] == Some(p);
      }
      if parents[c].Some? {
        assert parents[c] == Some(parents[c].value);
        assert CallersOf(g, c) == {parents[c].value};
      }
    } else {
      forall p ensures p !in CallersOf(g, c) {
        assert Invokes(g, p, c) ==> c in Callees(g);
      }
    }
  }

  /** The callers pushed for `c` so far are a duplicate-free listing of the callers visited so far. */
  ghost predicate Collected(g: CallGraph, lists: map<string, seq<string>>, done: set<string>, caller: string, callees: set<string>) {
    && (forall c :: c in lists ==> lists[c] != [] && Distinct(lists[c]))
    && (forall c, p :: c in lists && p in lists[c] ==> Pushed(g, done, caller, callees, p, c))
    && (forall c, p :: Pushed(g, done, caller, callees, p, c) ==> c in lists && p in lists[c])
  }

  ghost predicate Pushed(g: CallGraph, done: set<string>, caller: string, callees: set<string>, p: string, c: string) {
    (p in done && Invokes(g, p, c)) || (p == caller && c in callees)
  }

  lemma PushKeepsCollected(g: CallGraph, lists: map<string, seq<string>>, done: set<string>,
                             caller: string, callees: set<string>, callee: string)
    requires Collected(g, lists, done, caller, callees)
    requires caller !in done && callee !in callees
    ensures var before := if callee in lists then lists[callee] else [];
            Collected(g, lists[callee := before + [caller]], done, caller, callees + {callee})
  {
    var before := if callee in lists then lists[callee] else [];
    var lists' := lists[callee := before + [caller]];
    assert !Pushed(g, done, caller, callees, caller, callee);
    assert caller !in before;
    forall c, p | c in lists' && p in lists'[c] ensures Pushed(g, done, caller, callees + {callee}, p, c) {
      if c == callee && p == caller {
      } else {
        assert c in lists && p in lists[c];
        assert Pushed(g, done, caller, callees, p, c);
      }
    }
    forall c, p | Pushed(g, done, caller, callees + {callee}, p, c) ensures c in lists' && p in lists'[c] {
      if p == caller && c == callee {
        assert lists'[c][|before|] == caller;
      } else {
        assert Pushed(g, done, caller, callees, p, c);
      }
    }
  }

  lemma CallerDone(g: CallGraph, lists: map<string, seq<string>>, done: set<string>, caller: string)
    requires caller in g && caller !in done
    requires Collected(g, lists, done, caller, g[caller])
    ensures forall next :: Collected(g, lists, done + {caller}, next, {})
  {
    forall next ensures Collected(g, lists, done + {caller}, next, {}) {
      forall c, p ensures Pushed(g, done, caller, g[caller], p, c) <==> Pushed(g, done + {caller}, next, {}, p, c) { }
    }
  }

  /**
   Invert the call graph. Hash-map and hash-set iteration order is arbitrary
   here; the result is the parent map whatever the order.
   */
  method BuildParentMap(g: CallGraph) returns (parents: map<string, Option<string>>)
    ensures IsParentMap(g, parents)
  {
    var lists: map<string, seq<string>> := map[];
    var callers := g.Keys;
    ghost var done: set<string> := {};
    assert forall next :: Collected(g, lists, done, next, {});
    while callers != {}
      invariant callers <= g.Keys && done == g.Keys - callers
      invariant forall next :: Collected(g, lists, done, next, {})
      decreases callers
    {
      var caller :| caller in callers;
      var callees := g[caller];
      ghost var visited: set<string> := {};
      while callees != {}
        invariant callees <= g[caller] && visited == g[caller] - callees
        invariant Collected(g, lists, done, caller, visited)
        decreases callees
      {
        var callee :| callee in callees;
        PushKeepsCollected(g, lists, done, caller, visited, callee);
        var before := if callee in lists then lists[callee] else [];
        lists := lists[callee := before + [caller]];
        callees := callees - {callee};
        visited := visited + {callee};
      }
      assert visited == g[caller];
      CallerDone(g, lists, done, caller);
      callers := callers - {caller};
      done := done + {caller};
    }
    assert done == g.Keys;
    assert Collected(g, lists, done, "", {});
    ListsAreCallers(g, lists);
    parents := map c | c in lists :: if |lists[c]| == 1 then Some(lists[c][0]) else None;
  }

  lemma ListsAreCallers(g: CallGraph, lists: map<string, seq<string>>)
    requires Collected(g, lists, g.Keys, "", {})
    ensures lists.Keys == Callees(g)
    ensures forall c, p :: c in lists ==> ((|lists[c]| == 1 && lists[c][0] == p) <==> CallersOf(g, c) == {p})
  {
    forall c ensures c in lists <==> c in Callees(g) {
      if c in lists {
        var p := lists[c][0];
        assert p in lists[c];
        assert Pushed(g, g.Keys, "", {}, p, c);
      }
      if c in Callees(g) {
        var p :| p in g && c in g[p];
        assert Pushed(g, g.Keys, "", {}, p, c);
      }
    }
    forall c, p | c in lists ensures (|lists[c]| == 1 && lists[c][0] == p) <==> CallersOf(g, c) == {p} {
      forall q ensures q in lists[c] <==> q in CallersOf(g, c) {
        assert Pushed(g, g.Keys, "", {}, q, c) <==> Invokes(g, q, c);
      }
      assert lists[c][0] in lists[c];
      assert |lists[c]| > 1 ==> lists[c][1] in lists[c] && lists[c][0] != lists[c][1];
    }
  }

  // ----- The walk to `#main` -----

  /** The only caller of `x`, when the parent map has one. */
  function Parent(parents: map<string, Option<string>>, x: string): Option<string> {
    if x in parents then parents[x] else None
  }

  /** The `k`-th ancestor of `leaf` along unique callers, if there is one. */
  function Ancestor(parents: map<string, Option<string>>, leaf: string, k: nat): Option<string> {
    if k == 0 then Some(leaf)
    else
      match Ancestor(parents, leaf, k - 1)
      case None => None
      case Some(x) => Parent(parents, x)
  }

  /** The first ancestor (at distance at least one) that is `#main` sits at distance `k`. */
  ghost predicate ReachesMainAt(parents: map<string, Option<string>>, leaf: string, k: nat) {
    && 1 <= k
    && Ancestor(parents, leaf, k) == Some(MAIN)
    && forall j :: 1 <= j < k ==> Ancestor(parents, leaf, j) != Some(MAIN)
  }

  /** The outermost-first chain from the `k`-th ancestor down to `leaf`. */
  ghost function ChainOf(parents: map<string, Option<string>>, leaf: string, k: nat): (chain: seq<string>)
    requires Ancestor(parents, leaf, k).Some?
    ensures |chain| == k + 1
  {
    if k == 0 then [leaf]
    else [Ancestor(parents, leaf, k).value] + ChainOf(parents, leaf, k - 1)
  }

  /** The result `chain_from_main` must give. */
  ghost predicate IsChainFromMain(parents: map<string, Option<string>>, leaf: string, result: Option<seq<string>>) {
    match result
    case Some(chain) =>
      2 <= |chain| <= WALK_BOUND + 1 && ReachesMainAt(parents, leaf, |chain| - 1) && chain == ChainOf(parents, leaf, |chain| - 1)
    case None =>
      forall k :: 1 <= k <= WALK_BOUND ==> Ancestor(parents, leaf, k) != Some(MAIN)
  }

  function Reversed<T>(s: seq<T>): (r: seq<T>)
    ensures |r| == |s|
    ensures forall i :: 0 <= i < |s| ==> r[i] == s[|s| - 1 - i]
  {
    if s == [] then [] else [Last(s)] + Reversed(Front(s))
  }

  lemma {:induction false} AncestorStops(parents: map<string, Option<string>>, leaf: string, j: nat, k: nat)
    requires j <= k
    requires Ancestor(parents, leaf, j) == None
    ensures Ancestor(parents, leaf, k) == None
  {
    if j < k {
      AncestorStops(parents, leaf, j, k - 1);
    }
  }

  method ChainFromMain(parents: map<string, Option<string>>, leaf: string) returns (result: Option<seq<string>>)
    ensures IsChainFromMain(parents, leaf, result)
  {
    var chain := [leaf];
    var current := leaf;
    for i := 0 to WALK_BOUND
      invariant Ancestor(parents, leaf, i) == Some(current)
      invariant Reversed(chain) == ChainOf(parents, leaf, i)
      invariant forall j :: 1 <= j <= i ==> Ancestor(parents, leaf, j) != Some(MAIN)
    {
      if current in parents && parents[current].Some? {
        var parent := parents[current].value;
        assert Ancestor(parents, leaf, i + 1) == Some(parent);
        chain := chain + [parent];
        assert Front(chain) + [parent] == chain;
        if parent == MAIN {
          return Some(Reversed(chain));
        }
        current := parent;
      } else {
        assert Ancestor(parents, leaf, i + 1) == None;
        forall k | 1 <= k <= WALK_BOUND ensures Ancestor(parents, leaf, k) != Some(MAIN) {
          if i + 1 <= k {
            AncestorStops(parents, leaf, i + 1, k);
          }
        }
        return None;
      }
    }
    return None;
  }

  // ----- What the chain means -----

  /** A call path: consecutive procedures are joined by call-graph edges. */
  ghost predicate CallPath(g: CallGraph, path: seq<string>) {
    forall i :: 0 <= i < |path| - 1 ==> Linked(g, path, i)
  }

  predicate Linked(g: CallGraph, path: seq<string>, i: nat)
    requires i + 1 < |path|
  {
    Invokes(g, path[i], path[i + 1])
  }

  lemma {:induction false} ChainIndex(parents: map<string, Option<string>>, leaf: string, k: nat, i: nat)
    requires i <= k
    requires Ancestor(parents, leaf, k).Some?
    ensures Ancestor(parents, leaf, k - i) == Some(ChainOf(parents, leaf, k)[i])
  {
    if i > 0 {
      ChainIndex(parents, leaf, k - 1, i - 1);
    }
  }

  lemma {:induction false} AncestorShift(parents: map<string, Option<string>>, leaf: string, i: nat, j: nat, n: nat)
    requires Ancestor(parents, leaf, i) == Ancestor(parents, leaf, j)
    ensures Ancestor(parents, leaf, i + n) == Ancestor(parents, leaf, j + n)
  {
    if n > 0 {
      AncestorShift(parents, leaf, i, j, n - 1);
    }
  }

  /** Up to the first `#main`, the walk never visits a procedure twice. */
  lemma WalkIsDistinct(parents: map<string, Option<string>>, leaf: string, k: nat, i: nat, j: nat)
    requires ReachesMainAt(parents, leaf, k)
    requires i < j <= k
    requires leaf != MAIN || 1 <= i
    ensures Ancestor(parents, leaf, i) != Ancestor(parents, leaf, j)
  {
    if Ancestor(parents, leaf, i) == Ancestor(parents, leaf, j) {
      AncestorShift(parents, leaf, i, j, k - j);
    }
  }

  lemma AncestorIsCaller(g: CallGraph, parents: map<string, Option<string>>, leaf: string, k: nat)
    requires IsParentMap(g, parents)
    requires 1 <= k && Ancestor(parents, leaf, k).Some?
    ensures Ancestor(parents, leaf, k - 1).Some?
    ensures CallersOf(g, Ancestor(parents, leaf, k - 1).value) == {Ancestor(parents, leaf, k).value}
    ensures Invokes(g, Ancestor(parents, leaf, k).value, Ancestor(parents, leaf, k - 1).value)
  {
    var below, above := Ancestor(parents, leaf, k - 1).value, Ancestor(parents, leaf, k).value;
    assert parents[below] == Some(above);
    assert above in CallersOf(g, below);
  }

  /**
   A returned chain starts at `#main`, ends at the leaf, follows call-graph
   edges, and visits no procedure twice.
   */
  lemma ChainIsCallPath(g: CallGraph, parents: map<string, Option<string>>, leaf: string, chain: seq<string>)
    requires IsParentMap(g, parents)
    requires IsChainFromMain(parents, leaf, Some(chain))
    ensures |chain| >= 2 && chain[0] == MAIN && Last(chain) == leaf
    ensures CallPath(g, chain)
    ensures leaf != MAIN ==> Distinct(chain)
  {
    var k := |chain| - 1;
    forall i | 0 <= i <= k ensures Ancestor(parents, leaf, k - i) == Some(chain[i]) {
      ChainIndex(parents, leaf, k, i);
    }
    assert Ancestor(parents, leaf, k - 0) == Some(chain[0]);
    assert Ancestor(parents, leaf, k - k) == Some(chain[k]);
    forall i | 0 <= i < k ensures Linked(g, chain, i) {
      assert Ancestor(parents, leaf, k - i) == Some(chain[i]);
      AncestorIsCaller(g, parents, leaf, k - i);
      assert Ancestor(parents, leaf, k - (i + 1)) == Some(chain[i + 1]);
    }
    if leaf != MAIN {
      forall i, j | 0 <= i < j < |chain| ensures chain[i] != chain[j] {
        WalkIsDistinct(parents, leaf, k, k - j, k - i);
      }
    }
  }

  /** Read upwards from its end, a call path to the leaf can only follow the unique callers. */
  lemma {:induction false} PathFollowsWalk(g: CallGraph, parents: map<string, Option<string>>, leaf: string, k: nat, path: seq<string>, d: nat)
    requires IsParentMap(g, parents)
    requires ReachesMainAt(parents, leaf, k)
    requires path != [] && Last(path) == leaf && CallPath(g, path)
    requires d <= k && d < |path|
    ensures Ancestor(parents, leaf, d) == Some(path[|path| - 1 - d])
  {
    if d > 0 {
      PathFollowsWalk(g, parents, leaf, k, path, d - 1);
      var i := |path| - 1 - d;
      assert Linked(g, path, i);
      assert path[i] in CallersOf(g, path[i + 1]);
      SomeBelow(parents, leaf, d, k);
      AncestorIsCaller(g, parents, leaf, d);
    }
  }

  lemma SomeBelow(parents: map<string, Option<string>>, leaf: string, d: nat, k: nat)
    requires d <= k && Ancestor(parents, leaf, k).Some?
    ensures Ancestor(parents, leaf, d).Some?
  {
    if Ancestor(parents, leaf, d).None? {
      AncestorStops(parents, leaf, d, k);
      assert false;
    }
  }

  /**
   When nothing calls `#main`, the returned chain is the only call path from
   `#main` to the leaf.
   */
  lemma ChainIsOnlyPath(g: CallGraph, parents: map<string, Option<string>>, leaf: string, chain: seq<string>, path: seq<string>)
    requires IsParentMap(g, parents)
    requires MAIN !in Callees(g)
    requires IsChainFromMain(parents, leaf, Some(chain))
    requires path != [] && path[0] == MAIN && Last(path) == leaf && CallPath(g, path)
    ensures path == chain
  {
    var k, n := |chain| - 1, |path| - 1;
    AncestorIsCaller(g, parents, leaf, 1) by { SomeBelow(parents, leaf, 1, k); }
    assert leaf in Callees(g);
    if n < k {
      PathFollowsWalk(g, parents, leaf, k, path, n);
      assert false;
    } else if n > k {
      assert Linked(g, path, n - k - 1);
      PathFollowsWalk(g, parents, leaf, k, path, k);
      assert false;
    }
    forall i | 0 <= i <= k ensures path[i] == chain[i] {
      PathFollowsWalk(g, parents, leaf, k, path, k - i);
      ChainIndex(parents, leaf, k, i);
    }
  }

  lemma {:induction false} FirstMain(parents: map<string, Option<string>>, leaf: string, k: nat) returns (first: nat)
    requires 1 <= k && Ancestor(parents, leaf, k) == Some(MAIN)
    ensures first <= k && ReachesMainAt(parents, leaf, first)
    decreases k
  {
    if j :| 1 <= j < k && Ancestor(parents, leaf, j) == Some(MAIN) {
      first := FirstMain(parents, leaf, j);
    } else {
      first := k;
    }
  }

  lemma WalkFitsCallers(g: CallGraph, parents: map<string, Option<string>>, leaf: string, k: nat)
    requires IsParentMap(g, parents)
    requires ReachesMainAt(parents, leaf, k)
    ensures k <= |g|
  {
    forall i: nat | i <= k ensures Ancestor(parents, leaf, i).Some? {
      SomeBelow(parents, leaf, i, k);
    }
    var walk := seq(k, i requires 0 <= i < k => Ancestor(parents, leaf, i + 1).value);
    forall i, j | 0 <= i < j < k ensures walk[i] != walk[j] {
      WalkIsDistinct(parents, leaf, k, i + 1, j + 1);
    }
    forall x | x in walk ensures x in g.Keys {
      var i :| 0 <= i < k && walk[i] == x;
      AncestorIsCaller(g, parents, leaf, i + 1);
    }
    DistinctFits(walk, g.Keys);
    assert |g| == |g.Keys|;
  }

  /**
   With at most 256 procedure bodies in the source, the bound on the walk only
   cuts off cycles: a chain comes back exactly when the unique-caller walk
   reaches `#main` at all.
   */
  lemma BoundOnlyCutsCycles(g: CallGraph, parents: map<string, Option<string>>, leaf: string, result: Option<seq<string>>)
    requires IsParentMap(g, parents)
    requires |g| <= 256
    requires IsChainFromMain(parents, leaf, result)
    ensures result.Some? <==> exists k :: 1 <= k && Ancestor(parents, leaf, k) == Some(MAIN)
  {
    if k :| 1 <= k && Ancestor(parents, leaf, k) == Some(MAIN) {
      var first := FirstMain(parents, leaf, k);
      WalkFitsCallers(g, parents, leaf, first);
    }
    if result.Some? {
      assert Ancestor(parents, leaf, |result.value| - 1) == Some(MAIN);
    }
  }

  /** Whatever the graph: a chain comes back exactly when the walk reaches `#main` within 256 steps. */
  lemma ChainWithinBound(parents: map<string, Option<string>>, leaf: string, result: Option<seq<string>>)
    requires IsChainFromMain(parents, leaf, result)
    ensures result.Some? <==> exists k :: 1 <= k <= 256 && Ancestor(parents, leaf, k) == Some("#main")
    ensures result.Some? ==> |result.value| <= 257
  {
    if result.Some? {
      assert Ancestor(parents, leaf, |result.value| - 1) == Some(MAIN);
    }
  }

  /** The chain is a function of its inputs, so any two correct results agree. */
  lemma ChainUnique(parents: map<string, Option<string>>, leaf: string, r1: Option<seq<string>>, r2: Option<seq<string>>)
    requires IsChainFromMain(parents, leaf, r1) && IsChainFromMain(parents, leaf, r2)
    ensures r1 == r2
  {
    assert r1.Some? ==> Ancestor(parents, leaf, |r1.value| - 1) == Some(MAIN);
    assert r2.Some? ==> Ancestor(parents, leaf, |r2.value| - 1) == Some(MAIN);
    if r1.Some? && r2.Some? {
      var k1, k2 := |r1.value| - 1, |r2.value| - 1;
      assert k1 == k2;
    }
  }

  /** The chain from `#main` to a leaf, as a value. */
  ghost function MainChain(parents: map<string, Option<string>>, leaf: string): Option<seq<string>> {
    if k: nat :| k <= WALK_BOUND && ReachesMainAt(parents, leaf, k) then Some(ChainOf(parents, leaf, k)) else None
  }

  lemma MainChainIsChain(parents: map<string, Option<string>>, leaf: string)
    ensures IsChainFromMain(parents, leaf, MainChain(parents, leaf))
  {
    forall k | 1 <= k <= WALK_BOUND && Ancestor(parents, leaf, k) == Some(MAIN)
      ensures exists first: nat :: first <= WALK_BOUND && ReachesMainAt(parents, leaf, first)
    {
      var first := FirstMain(parents, leaf, k);
    }
  }
}
