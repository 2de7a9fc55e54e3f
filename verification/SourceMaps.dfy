/**
 Byte offsets to line numbers: the table of line starts, its binary search, and
 the line count stated for the trace's path table.
 */
module SourceMaps {
  import opened Common

  type byte = b: int | 0 <= b < 0x100

  const NEWLINE: byte := 10

  predicate NewlineAt(source: seq<byte>, i: int) {
    0 <= i < |source| && source[i] == NEWLINE
  }

  function NewlinesBefore(source: seq<byte>, offset: nat): nat {
    if offset == 0 then 0
    else NewlinesBefore(source, offset - 1) + (if NewlineAt(source, offset - 1) then 1 else 0)
  }

  /** The 1-based line of a byte offset, by counting newlines. */
  function LineAt(source: seq<byte>, offset: nat): (line: nat)
    ensures line >= 1
  {
    1 + NewlinesBefore(source, offset)
  }

  /** `source_line_count`: newline count plus one. */
  function SourceLineCount(source: seq<byte>): nat {
    CountNewlines(source) + 1
  }

  function CountNewlines(source: seq<byte>): nat {
    if source == [] then 0
    else CountNewlines(Front(source)) + (if Last(source) == NEWLINE then 1 else 0)
  }

  /** The line starts found in the first `n` bytes, truncated to 32 bits. */
  function LineStarts(source: seq<byte>, n: nat): (starts: seq<nat>)
    ensures starts != []
  {
    if n == 0 then [0]
    else LineStarts(source, n - 1) + (if NewlineAt(source, n - 1) then [n % U32_RANGE] else [])
  }

  datatype SourceMap = SourceMap(path: string, source: seq<byte>, lineOffsets: seq<nat>) {
    ghost predicate Valid() {
      lineOffsets == LineStarts(source, |source|)
    }
  }

  /** No line starts past what a 32-bit offset can name; true of every source under 4 GiB. */
  ghost predicate Indexable(source: seq<byte>) {
    forall i :: NewlineAt(source, i) ==> i + 1 < U32_RANGE
  }

  ghost predicate StrictlyIncreasing(s: seq<nat>) {
    forall i, j :: 0 <= i < j < |s| ==> s[i] < s[j]
  }

  method FromSource(path: string, source: seq<byte>) returns (m: SourceMap)
    ensures m.Valid() && m.path == path && m.source == source
  {
    var lineOffsets := [0];
    for i := 0 to |source|
      invariant lineOffsets == LineStarts(source, i)
    {
      if source[i] == NEWLINE {
        lineOffsets := lineOffsets + [(i + 1) % U32_RANGE];
      }
    }
    return SourceMap(path, source, lineOffsets);
  }

  lemma {:induction false} LineStartsSorted(source: seq<byte>, n: nat)
    requires Indexable(source)
    ensures StrictlyIncreasing(LineStarts(source, n))
    ensures LineStarts(source, n)[0] == 0
    ensures forall k :: 0 <= k < |LineStarts(source, n)| ==> LineStarts(source, n)[k] <= n
    ensures |LineStarts(source, n)| == LineAt(source, n)
  {
    if n > 0 {
      LineStartsSorted(source, n - 1);
    }
  }

  /** Line starts found after offset `b` all lie beyond it. */
  lemma {:induction false} LineStartsExtend(source: seq<byte>, b: nat, n: nat)
    requires b <= n && Indexable(source)
    ensures LineStarts(source, b) <= LineStarts(source, n)
    ensures forall k :: |LineStarts(source, b)| <= k < |LineStarts(source, n)| ==> LineStarts(source, n)[k] > b
  {
    if b < n {
      LineStartsExtend(source, b, n - 1);
    }
  }

  lemma {:induction false} NoNewlinesPastEnd(source: seq<byte>, b: nat)
    requires |source| <= b
    ensures NewlinesBefore(source, b) == NewlinesBefore(source, |source|)
  {
    if |source| < b {
      NoNewlinesPastEnd(source, b - 1);
    }
  }

  /** Where the table splits at an offset is the offset's line. */
  lemma SplitIsLine(source: seq<byte>, b: nat, k: nat)
    requires Indexable(source)
    requires k <= |LineStarts(source, |source|)|
    requires forall i :: 0 <= i < k ==> LineStarts(source, |source|)[i] <= b
    requires forall i :: k <= i < |LineStarts(source, |source|)| ==> LineStarts(source, |source|)[i] > b
    ensures k == LineAt(source, b)
  {
    var table, b' := LineStarts(source, |source|), if b < |source| then b else |source|;
    LineStartsSorted(source, b');
    LineStartsExtend(source, b', |source|);
    if |source| <= b {
      NoNewlinesPastEnd(source, b);
    }
    var m := |LineStarts(source, b')|;
    assert LineStarts(source, b')[m - 1] == table[m - 1] <= b' <= b;
    assert m < |table| ==> table[m] > b;
  }

  /** The standard library's binary search; on keys out of order it promises no more than a bound. */
  method BinarySearch(table: seq<nat>, key: nat) returns (found: bool, index: nat)
    ensures index <= |table|
    ensures found ==> index < |table| && table[index] == key
    ensures StrictlyIncreasing(table) && !found ==>
              (forall i :: 0 <= i < index ==> table[i] < key) && (forall i :: index <= i < |table| ==> table[i] > key)
  {
    var low, high := 0, |table|;
    while low < high
      invariant 0 <= low <= high <= |table|
      invariant StrictlyIncreasing(table) ==> forall i :: 0 <= i < low ==> table[i] < key
      invariant StrictlyIncreasing(table) ==> forall i :: high <= i < |table| ==> table[i] > key
    {
      var mid := low + (high - low) / 2;
      if table[mid] < key {
        low := mid + 1;
      } else if table[mid] > key {
        high := mid;
      } else {
        return true, mid;
      }
    }
    return false, low;
  }

  /** The lookup agrees with counting newlines, cut to 32 bits, unless the table itself wrapped. */
  method ByteToLine(m: SourceMap, byteOffset: nat) returns (line: nat)
    requires m.Valid()
    ensures Indexable(m.source) ==> line == LineAt(m.source, byteOffset) % U32_RANGE
    ensures line < U32_RANGE
  {
    if Indexable(m.source) {
      LineStartsSorted(m.source, |m.source|);
    }
    var found, index := BinarySearch(m.lineOffsets, byteOffset);
    line := if found then (index + 1) % U32_RANGE else index % U32_RANGE;
    if Indexable(m.source) {
      SplitIsLine(m.source, byteOffset, if found then index + 1 else index);
    }
  }

  lemma {:induction false} LineAtMonotone(source: seq<byte>, a: nat, b: nat)
    requires a <= b
    ensures LineAt(source, a) <= LineAt(source, b)
  {
    if a < b {
      LineAtMonotone(source, a, b - 1);
    }
  }

  lemma {:induction false} CountIsNewlinesBefore(source: seq<byte>, n: nat)
    requires n <= |source|
    ensures CountNewlines(source[..n]) == NewlinesBefore(source, n)
  {
    if n > 0 {
      CountIsNewlinesBefore(source, n - 1);
      assert Front(source[..n]) == source[..n - 1];
    }
  }

  /**
   Every offset, even one past the end of the text, names a line the path table
   admits, because the line table has one entry per line of the file.
   */
  lemma EveryLineIsCounted(source: seq<byte>, offset: nat)
    ensures 1 <= LineAt(source, offset) <= SourceLineCount(source)
    ensures Indexable(source) ==> |LineStarts(source, |source|)| == SourceLineCount(source)
  {
    if Indexable(source) {
      LineStartsSorted(source, |source|);
    }
    CountIsNewlinesBefore(source, |source|);
    assert source[..|source|] == source;
    if offset <= |source| {
      LineAtMonotone(source, offset, |source|);
    } else {
      NoNewlinesPastEnd(source, offset);
    }
  }

  /** Every line of the source has a 32-bit start and a 32-bit number. */
  ghost predicate Mappable(source: seq<byte>) {
    Indexable(source) && SourceLineCount(source) < U32_RANGE
  }

  lemma {:induction false} NewlinesFit(source: seq<byte>, n: nat, k: nat)
    requires k <= n && forall i :: k <= i < n ==> !NewlineAt(source, i)
    ensures NewlinesBefore(source, n) == NewlinesBefore(source, k) <= k
  {
    if k < n {
      NewlinesFit(source, n - 1, k);
    } else if n > 0 {
      NewlinesFit(source, n - 1, n - 1);
    }
  }

  /**
   Cutting line numbers to 32 bits is harmless at every 32-bit offset exactly
   when the line count itself fits; 2^32 - 1 leading newlines break it, at the
   largest offset.
   */
  lemma LineNumbersFit(source: seq<byte>)
    requires Indexable(source)
    ensures SourceLineCount(source) < U32_RANGE <==>
            forall b :: 0 <= b < U32_RANGE ==> LineAt(source, b) % U32_RANGE == LineAt(source, b)
    ensures SourceLineCount(source) >= U32_RANGE ==> LineAt(source, U32_RANGE - 1) % U32_RANGE == 0
  {
    var top := U32_RANGE - 1;
    forall b | SourceLineCount(source) < U32_RANGE && 0 <= b < U32_RANGE
      ensures LineAt(source, b) % U32_RANGE == LineAt(source, b)
    {
      EveryLineIsCounted(source, b);
    }
    if SourceLineCount(source) >= U32_RANGE {
      CountIsNewlinesBefore(source, |source|);
      assert source[..|source|] == source;
      if |source| <= top {
        NewlinesFit(source, |source|, |source|);
        NoNewlinesPastEnd(source, top);
      } else {
        NewlinesFit(source, |source|, top);
      }
      assert LineAt(source, top) == U32_RANGE;
    }
  }

  function NewlineRun(n: nat): (source: seq<byte>)
    ensures |source| == n && forall i :: 0 <= i < n ==> source[i] == NEWLINE
  {
    seq(n, i => NEWLINE)
  }

  lemma {:induction false} NewlineRunLines(n: nat, k: nat)
    requires k <= n
    ensures LineAt(NewlineRun(n), k) == k + 1
  {
    if k > 0 {
      NewlineRunLines(n, k - 1);
    }
  }

  /** Such a source: the last of its offsets is given line 0. */
  lemma LineNumberWraps()
    ensures Indexable(NewlineRun(U32_RANGE - 1))
    ensures LineAt(NewlineRun(U32_RANGE - 1), U32_RANGE - 1) % U32_RANGE == 0
  {
    NewlineRunLines(U32_RANGE - 1, U32_RANGE - 1);
  }

  /** Every source under 2^32 - 1 bytes is mapped without loss. */
  lemma SmallSourcesAreMappable(source: seq<byte>)
    requires |source| < U32_RANGE - 1
    ensures Mappable(source)
  {
    NewlinesFit(source, |source|, |source|);
    CountIsNewlinesBefore(source, |source|);
    assert source[..|source|] == source;
  }

  // ----- Several files -----

  /** The path and text last added under each URI. */
  type Files = map<string, (string, seq<byte>)>

  class MultiSourceMap {
    var maps: map<string, SourceMap>

    /** Every map belongs to its file and can be looked up. */
    ghost predicate Valid()
      reads this
    {
      forall uri :: uri in maps ==> maps[uri].Valid()
    }

    ghost function Abs(): Files
      reads this
    {
      map uri | uri in maps :: (maps[uri].path, maps[uri].source)
    }

    constructor ()
      ensures Valid() && Abs() == map[]
    {
      maps := map[];
    }

    method AddFile(uri: string, path: string, source: seq<byte>)
      requires Valid()
      modifies this
      ensures Valid() && Abs() == old(Abs())[uri := (path, source)]
    {
      var m := FromSource(path, source);
      maps := maps[uri := m];
    }

    /** The path and line of an offset in the file last added under `uri`. */
    method Resolve(uri: string, byteOffset: nat) returns (place: Option<(string, nat)>)
      requires Valid()
      ensures place.Some? <==> uri in Abs()
      ensures place.Some? ==> place.value.0 == Abs()[uri].0
      ensures place.Some? && Indexable(Abs()[uri].1) ==> place.value.1 == LineAt(Abs()[uri].1, byteOffset) % U32_RANGE
    {
      if uri !in maps {
        return None;
      }
      var line := ByteToLine(maps[uri], byteOffset);
      return Some((maps[uri].path, line));
    }
  }
}
