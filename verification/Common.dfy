/** Small shared datatypes and sequence facts. */
module Common {

  datatype Option<+T> = None | Some(value: T)

  const U32_RANGE := 0x1_0000_0000
  const U64_RANGE := 0x1_0000_0000_0000_0000

  function Last<T>(s: seq<T>): T
    requires s != []
  {
    s[|s| - 1]
  }

  function Front<T>(s: seq<T>): seq<T>
    requires s != []
  {
    s[..|s| - 1]
  }

  lemma ConsFront<T>(x: T, s: seq<T>)
    requires s != []
    ensures Front([x] + s) == [x] + Front(s)
  {
  }

  lemma ConsSnoc<T>(x: T, s: seq<T>, y: T)
    ensures [x] + (s + [y]) == [x] + s + [y]
  {
  }

  ghost predicate Distinct<T>(s: seq<T>) {
    forall i, j :: 0 <= i < j < |s| ==> s[i] != s[j]
  }

  /** The values `f` extracts from `s`, in order. */
  function Project<T, U>(f: T -> Option<U>, s: seq<T>): seq<U> {
    if s == [] then []
    else Project(f, Front(s)) + (if f(Last(s)).Some? then [f(Last(s)).value] else [])
  }

  lemma {:induction false} ProjectConcat<T, U>(f: T -> Option<U>, a: seq<T>, b: seq<T>)
    ensures Project(f, a + b) == Project(f, a) + Project(f, b)
  {
    if b == [] {
      assert a + b == a;
    } else {
      ProjectConcat(f, a, Front(b));
      assert Front(a + b) == a + Front(b);
    }
  }

  lemma {:induction false} ProjectNone<T, U>(f: T -> Option<U>, s: seq<T>)
    requires forall x :: x in s ==> f(x) == None
    ensures Project(f, s) == []
  {
    if s != [] {
      ProjectNone(f, Front(s));
    }
  }

  lemma {:induction false} ProjectAgrees<T, U>(f: T -> Option<U>, g: T -> Option<U>, s: seq<T>)
    requires forall x :: x in s ==> f(x) == g(x)
    ensures Project(f, s) == Project(g, s)
  {
    if s != [] {
      ProjectAgrees(f, g, Front(s));
    }
  }

  /** The concatenation of what `f` makes of each element. */
  function ConcatMap<T, U>(f: T -> seq<U>, s: seq<T>): seq<U> {
    if s == [] then [] else ConcatMap(f, Front(s)) + f(Last(s))
  }

  lemma {:induction false} ConcatMapConcat<T, U>(f: T -> seq<U>, a: seq<T>, b: seq<T>)
    ensures ConcatMap(f, a + b) == ConcatMap(f, a) + ConcatMap(f, b)
  {
    if b == [] {
      assert a + b == a;
    } else {
      ConcatMapConcat(f, a, Front(b));
      assert Front(a + b) == a + Front(b);
    }
  }

  lemma ConcatMapOne<T, U>(f: T -> seq<U>, x: T)
    ensures ConcatMap(f, [x]) == f(x)
  {
    assert Front([x]) == [];
  }

  lemma ConcatMapNext<T, U>(f: T -> seq<U>, s: seq<T>, i: nat)
    requires i < |s|
    ensures ConcatMap(f, s[..i + 1]) == ConcatMap(f, s[..i]) + f(s[i])
  {
    assert Front(s[..i + 1]) == s[..i];
  }

  /** A sequence of distinct elements of a set is no longer than the set (pigeonhole). */
  lemma {:induction false} DistinctFits<T>(s: seq<T>, members: set<T>)
    requires Distinct(s)
    requires forall x :: x in s ==> x in members
    ensures |s| <= |members|
  {
    if s != [] {
      var front, last := Front(s), Last(s);
      assert last !in front;
      forall x | x in front ensures x in members - {last} { }
      DistinctFits(front, members - {last});
    }
  }
}
