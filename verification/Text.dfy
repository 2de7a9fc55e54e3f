/** The string operations the recorder borrows from the Rust standard library. */
module Text {
  import opened Common

  // ----- Trimming -----

  /** Characters with the Unicode White_Space property, which `str::trim` removes. */
  predicate IsWhite(c: char) {
    || '\U{0009}' <= c <= '\U{000D}'
    || c == ' '
    || c == '\U{0085}'
    || c == '\U{00A0}'
    || c == '\U{1680}'
    || '\U{2000}' <= c <= '\U{200A}'
    || c == '\U{2028}'
    || c == '\U{2029}'
    || c == '\U{202F}'
    || c == '\U{205F}'
    || c == '\U{3000}'
  }

  function TrimStart(s: string): string {
    if s != [] && IsWhite(s[0]) then TrimStart(s[1..]) else s
  }

  function TrimEnd(s: string): string {
    if s != [] && IsWhite(Last(s)) then TrimEnd(Front(s)) else s
  }

  function Trim(s: string): string {
    TrimEnd(TrimStart(s))
  }

  lemma TrimEmpty()
    ensures Trim("") == ""
  {
  }

  lemma {:induction false} TrimStartSuffix(s: string)
    ensures var t := TrimStart(s);
            |t| <= |s| && t == s[|s| - |t|..] && (t == [] || !IsWhite(t[0]))
  {
    if s != [] && IsWhite(s[0]) {
      TrimStartSuffix(s[1..]);
    }
  }

  lemma {:induction false} TrimEndPrefix(s: string)
    ensures var t := TrimEnd(s);
            |t| <= |s| && t == s[..|t|] && (t == [] || !IsWhite(Last(t)))
  {
    if s != [] && IsWhite(Last(s)) {
      TrimEndPrefix(Front(s));
    }
  }

  lemma TrimWithin(s: string, c: char)
    requires c in Trim(s)
    ensures c in s
  {
    TrimStartSuffix(s);
    TrimEndPrefix(TrimStart(s));
    assert c in TrimStart(s);
  }

  predicate AllWhite(s: string) {
    forall i :: 0 <= i < |s| ==> IsWhite(s[i])
  }

  lemma {:induction false} TrimStartPadded(pad: string, s: string)
    requires AllWhite(pad)
    ensures TrimStart(pad + s) == TrimStart(s)
  {
    if pad == [] {
      assert pad + s == s;
    } else {
      assert (pad + s)[1..] == pad[1..] + s;
      TrimStartPadded(pad[1..], s);
    }
  }

  lemma {:induction false} TrimEndPadded(s: string, pad: string)
    requires AllWhite(pad)
    ensures TrimEnd(s + pad) == TrimEnd(s)
  {
    if pad == [] {
      assert s + pad == s;
    } else {
      assert Front(s + pad) == s + Front(pad);
      TrimEndPadded(s, Front(pad));
    }
  }

  lemma TrimPadded(before: string, s: string, after: string)
    requires AllWhite(before) && AllWhite(after)
    requires s == [] || (!IsWhite(s[0]) && !IsWhite(Last(s)))
    ensures Trim(before + s + after) == s
  {
    if s == [] {
      assert before + s + after == before + after;
      TrimStartPadded(before, after);
      TrimStartPadded(after, []);
      assert after + [] == after;
    } else {
      assert before + s + after == before + (s + after);
      TrimStartPadded(before, s + after);
      TrimEndPadded(s, after);
    }
  }

  lemma {:induction false} TrimStartFront(s: string)
    requires s != [] && IsWhite(Last(s))
    ensures if TrimStart(s) == [] then TrimStart(Front(s)) == []
            else IsWhite(Last(TrimStart(s))) && TrimStart(Front(s)) == Front(TrimStart(s))
  {
    if IsWhite(s[0]) && |s| > 1 {
      assert Front(s)[1..] == Front(s[1..]);
      TrimStartFront(s[1..]);
    }
  }

  /** Dropping a final white character first changes nothing. */
  lemma TrimDropsEnd(s: string)
    requires s != [] && IsWhite(Last(s))
    ensures Trim(Front(s)) == Trim(s)
  {
    TrimStartFront(s);
  }

  // ----- Cutting -----

  predicate HasPrefix(s: string, p: string) {
    p <= s
  }

  function StripPrefix(s: string, p: string): Option<string> {
    if HasPrefix(s, p) then Some(s[|p|..]) else None
  }

  /** The first index of `c`, or the length of the text without one. */
  function IndexOf(s: string, c: char): (i: nat)
    ensures i <= |s|
  {
    if s == [] || s[0] == c then 0 else 1 + IndexOf(s[1..], c)
  }

  lemma {:induction false} IndexOfFacts(s: string, c: char)
    ensures var i := IndexOf(s, c);
            && (i < |s| ==> s[i] == c)
            && c !in s[..i]
            && (c in s <==> i < |s|)
  {
    if s != [] && s[0] != c {
      IndexOfFacts(s[1..], c);
      var i := IndexOf(s, c);
      assert s[..i] == [s[0]] + s[1..][..i - 1];
    }
  }

  lemma {:induction false} IndexOfFirst(a: string, c: char, b: string)
    requires c !in a
    ensures IndexOf(a + [c] + b, c) == |a|
  {
    if a != [] {
      IndexOfFirst(a[1..], c, b);
      assert (a + [c] + b)[1..] == a[1..] + [c] + b;
    }
  }

  /** `str::split` on one character: always at least one piece. */
  function Split(s: string, c: char): seq<string>
    decreases |s|
  {
    var i := IndexOf(s, c);
    if i == |s| then [s] else [s[..i]] + Split(s[i + 1..], c)
  }

  lemma SplitJoined(a: string, c: char, b: string)
    requires c !in a
    ensures Split(a + [c] + b, c) == [a] + Split(b, c)
  {
    var s := a + [c] + b;
    var i := IndexOf(s, c);
    IndexOfFirst(a, c, b);
    assert s[..i] == a && s[i + 1..] == b;
  }

  /** `split_whitespace`: the maximal blocks of non-white characters. */
  function Words(s: string): seq<string>
    decreases |s|
  {
    TrimStartSuffix(s);
    var t := TrimStart(s);
    if t == [] then []
    else
      var n := WordLength(t);
      [t[..n]] + Words(t[n..])
  }

  function WordLength(s: string): (n: nat)
    ensures n <= |s|
    ensures s != [] && !IsWhite(s[0]) ==> n > 0
  {
    if s == [] || IsWhite(s[0]) then 0 else 1 + WordLength(s[1..])
  }

  /** What follows the last `::` (`rsplit("::").next()`), or the whole name without one. */
  function BareName(name: string): string {
    AfterSeparator(name, |name|)
  }

  function AfterSeparator(name: string, i: nat): string
    requires i <= |name|
  {
    if i < 2 then name
    else if name[i - 2] == ':' && name[i - 1] == ':' then name[i..]
    else AfterSeparator(name, i - 1)
  }

  // ----- Lines -----

  function StripReturn(line: string): string {
    if line != [] && Last(line) == '\r' then Front(line) else line
  }

  /** `str::lines`: newline-terminated pieces, without their `\n` or `\r\n`. */
  function Lines(s: string): seq<string>
    decreases |s|
  {
    if s == [] then []
    else
      var i := IndexOf(s, '\n');
      if i == |s| then [s] else [StripReturn(s[..i])] + Lines(s[i + 1..])
  }

  lemma LinesHead(a: string, b: string)
    requires '\n' !in a
    ensures Lines(a + "\n" + b) == [StripReturn(a)] + Lines(b)
  {
    var s := a + "\n" + b;
    var i := IndexOf(s, '\n');
    IndexOfFirst(a, '\n', b);
    assert s[..i] == a && s[i + 1..] == b;
  }

  lemma LinesLast(a: string)
    requires '\n' !in a
    ensures Lines(a) == if a == [] then [] else [a]
  {
    IndexOfFacts(a, '\n');
  }

  /** Lines with a line feed after each. */
  function Terminated(lines: seq<string>): string {
    if lines == [] then "" else lines[0] + "\n" + Terminated(lines[1..])
  }

  function Stripped(lines: seq<string>): seq<string> {
    if lines == [] then [] else [StripReturn(lines[0])] + Stripped(lines[1..])
  }

  lemma {:induction false} LinesOfTerminated(lines: seq<string>)
    requires forall l :: l in lines ==> '\n' !in l
    ensures Lines(Terminated(lines)) == Stripped(lines)
  {
    hide StripReturn;
    if lines == [] {
      LinesLast("");
    } else {
      assert lines[0] in lines && forall l :: l in lines[1..] ==> l in lines;
      LinesOfTerminated(lines[1..]);
      LinesHead(lines[0], Terminated(lines[1..]));
    }
  }

  lemma {:induction false} TerminatedConcat(a: seq<string>, b: seq<string>)
    ensures Terminated(a + b) == Terminated(a) + Terminated(b)
  {
    if a == [] {
      assert a + b == b;
    } else {
      TerminatedConcat(a[1..], b);
      assert (a + b)[1..] == a[1..] + b;
      assert a[0] + "\n" + (Terminated(a[1..]) + Terminated(b)) == a[0] + "\n" + Terminated(a[1..]) + Terminated(b);
    }
  }

  lemma TrimIgnoresReturn(line: string)
    ensures Trim(StripReturn(line)) == Trim(line)
  {
    if line != [] && Last(line) == '\r' {
      TrimDropsEnd(line);
    }
  }

  // ----- Numbers -----

  function DigitValue(c: char, radix: nat): Option<nat> {
    var v :=
      if '0' <= c <= '9' then c as int - '0' as int
      else if 'a' <= c <= 'z' then c as int - 'a' as int + 10
      else if 'A' <= c <= 'Z' then c as int - 'A' as int + 10
      else radix;
    if v < radix then Some(v) else None
  }

  function ParseDigits(s: string, radix: nat): Option<nat> {
    if s == [] then Some(0)
    else
      match (ParseDigits(Front(s), radix), DigitValue(Last(s), radix))
      case (Some(v), Some(d)) => Some(v * radix + d)
      case _ => None
  }

  /**
   Rust's unsigned `from_str_radix`: an optional `+`, then at least one digit,
   with an error on overflow.
   */
  function ParseUnsigned(s: string, radix: nat, range: nat): Option<nat> {
    if s == [] then None
    else
      var digits := if s[0] == '+' then s[1..] else s;
      if digits == [] then None
      else
        match ParseDigits(digits, radix)
        case Some(v) => if v < range then Some(v) else None
        case None => None
  }

  function Digit(d: nat): (c: char)
    requires d < 10
    ensures '0' <= c <= '9' && DigitValue(c, 10) == Some(d)
  {
    ('0' as int + d) as char
  }

  function Decimal(n: nat): string {
    if n < 10 then [Digit(n)] else Decimal(n / 10) + [Digit(n % 10)]
  }

  predicate IsDigits(s: string) {
    s != [] && forall i :: 0 <= i < |s| ==> '0' <= s[i] <= '9'
  }

  lemma {:induction false} DecimalIsDigits(n: nat)
    ensures IsDigits(Decimal(n))
  {
    if n >= 10 {
      DecimalIsDigits(n / 10);
    }
  }

  lemma {:induction false} DecimalDigits(n: nat)
    ensures ParseDigits(Decimal(n), 10) == Some(n)
  {
    if n < 10 {
      assert Front(Decimal(n)) == [];
    } else {
      DecimalDigits(n / 10);
      assert Front(Decimal(n)) == Decimal(n / 10);
    }
  }

  lemma DecimalRoundTrip(n: nat, range: nat)
    ensures ParseUnsigned(Decimal(n), 10, range) == if n < range then Some(n) else None
  {
    DecimalDigits(n);
    DecimalIsDigits(n);
    assert Decimal(n)[0] != '+';
  }

  function Zeros(n: nat): string {
    if n == 0 then "" else Zeros(n - 1) + "0"
  }

  /** Text that spells a number in decimal: any leading zeros, and one optional sign before them. */
  ghost predicate Spells(text: string, n: nat) {
    exists zeros: nat :: text == Zeros(zeros) + Decimal(n) || text == "+" + (Zeros(zeros) + Decimal(n))
  }

  lemma {:induction false} ZerosParse(zeros: nat)
    ensures ParseDigits(Zeros(zeros), 10) == Some(0)
  {
    if zeros > 0 {
      ZerosParse(zeros - 1);
      assert Front(Zeros(zeros)) == Zeros(zeros - 1);
    }
  }

  lemma {:induction false} PaddedParse(zeros: nat, n: nat)
    ensures ParseDigits(Zeros(zeros) + Decimal(n), 10) == Some(n)
  {
    var s := Zeros(zeros) + Decimal(n);
    if n < 10 {
      ZerosParse(zeros);
      assert Front(s) == Zeros(zeros) && Last(s) == Digit(n);
    } else {
      PaddedParse(zeros, n / 10);
      assert Front(s) == Zeros(zeros) + Decimal(n / 10) && Last(s) == Digit(n % 10);
    }
  }

  lemma DecimalNext(n: nat, d: nat)
    requires d < 10 && n > 0
    ensures Decimal(10 * n + d) == Decimal(n) + [Digit(d)]
  {
    assert (10 * n + d) / 10 == n && (10 * n + d) % 10 == d;
  }

  lemma DigitOfValue(c: char, d: nat)
    requires DigitValue(c, 10) == Some(d)
    ensures d < 10 && c == Digit(d)
  {
  }

  lemma {:induction false} DigitsSpell(s: string, n: nat) returns (zeros: nat)
    requires s != [] && ParseDigits(s, 10) == Some(n)
    ensures s == Zeros(zeros) + Decimal(n)
  {
    var d := DigitValue(Last(s), 10).value;
    DigitOfValue(Last(s), d);
    assert s == Front(s) + [Last(s)];
    if |s| == 1 {
      assert Front(s) == [];
      zeros := 0;
    } else {
      var before := ParseDigits(Front(s), 10).value;
      var z := DigitsSpell(Front(s), before);
      if before == 0 {
        zeros := z + 1;
        assert Decimal(0) == "0";
      } else {
        zeros := z;
        DecimalNext(before, d);
      }
    }
  }

  lemma {:induction false} PaddedStart(zeros: nat, n: nat)
    ensures var s := Zeros(zeros) + Decimal(n); s != [] && s[0] != '+'
  {
    if zeros > 0 {
      PaddedStart(zeros - 1, n);
      assert Zeros(zeros)[0] == '0' by { ZerosStart(zeros); }
    } else {
      DecimalIsDigits(n);
      assert Zeros(0) + Decimal(n) == Decimal(n);
    }
  }

  lemma {:induction false} ZerosStart(zeros: nat)
    requires zeros > 0
    ensures Zeros(zeros) != [] && Zeros(zeros)[0] == '0'
  {
    if zeros > 1 {
      ZerosStart(zeros - 1);
    }
  }

  /** Exactly the spellings of numbers below `range` are parsed. */
  lemma ParsedExactlyWhenSpelled(text: string, n: nat, range: nat)
    ensures ParseUnsigned(text, 10, range) == Some(n) <==> Spells(text, n) && n < range
  {
    if ParseUnsigned(text, 10, range) == Some(n) {
      var digits := if text[0] == '+' then text[1..] else text;
      var zeros := DigitsSpell(digits, n);
      assert text[0] == '+' ==> text == "+" + digits;
    }
    if Spells(text, n) && n < range {
      var zeros: nat :| text == Zeros(zeros) + Decimal(n) || text == "+" + (Zeros(zeros) + Decimal(n));
      PaddedStart(zeros, n);
      PaddedParse(zeros, n);
      assert text[0] == '+' ==> text[1..] == Zeros(zeros) + Decimal(n);
    }
  }

  // ----- Hexadecimal -----

  function HexDigit(d: nat, upper: bool): (c: char)
    requires d < 16
    ensures DigitValue(c, 16) == Some(d) && !IsWhite(c) && c != '+' && c != ',' && c != '\n'
  {
    if d < 10 then Digit(d) else if upper then ('A' as int + d - 10) as char else ('a' as int + d - 10) as char
  }

  function Hexadecimal(n: nat, upper: bool): string {
    if n < 16 then [HexDigit(n, upper)] else Hexadecimal(n / 16, upper) + [HexDigit(n % 16, upper)]
  }

  lemma {:induction false} HexDigits(n: nat, upper: bool)
    ensures var s := Hexadecimal(n, upper);
            && ParseDigits(s, 16) == Some(n) && s != [] && s[0] != '+'
            && forall i :: 0 <= i < |s| ==> !IsWhite(s[i]) && s[i] != ',' && s[i] != '\n'
  {
    if n < 16 {
      assert Front(Hexadecimal(n, upper)) == [];
    } else {
      HexDigits(n / 16, upper);
      assert Front(Hexadecimal(n, upper)) == Hexadecimal(n / 16, upper);
    }
  }

  lemma HexRoundTrip(n: nat, upper: bool, range: nat)
    ensures ParseUnsigned(Hexadecimal(n, upper), 16, range) == if n < range then Some(n) else None
  {
    HexDigits(n, upper);
  }

  // ----- Bare names -----

  lemma {:induction false} NoSeparatorAfter(name: string, start: nat, i: nat)
    requires start <= i <= |name| && forall j :: start <= j < |name| ==> name[j] != ':'
    requires start >= 2 && name[start - 2] == ':' && name[start - 1] == ':'
    ensures AfterSeparator(name, i) == name[start..]
  {
    if i > start {
      NoSeparatorAfter(name, start, i - 1);
    }
  }

  /** The bare name is what follows the last separator. */
  lemma BareOfPath(path: string, name: string)
    requires ':' !in name
    ensures BareName(path + "::" + name) == name
  {
    var full := path + "::" + name;
    forall j | |path| + 2 <= j < |full| ensures full[j] != ':' {
      assert full[j] == name[j - |path| - 2] && full[j] in name;
    }
    NoSeparatorAfter(full, |path| + 2, |full|);
  }

  lemma {:induction false} NoSeparator(name: string, i: nat)
    requires i <= |name| && ':' !in name
    ensures AfterSeparator(name, i) == name
  {
    if i >= 2 {
      NoSeparator(name, i - 1);
    }
  }

  lemma BareOfPlain(name: string)
    requires ':' !in name
    ensures BareName(name) == name
  {
    NoSeparator(name, |name|);
  }
}
