/**
 Inputs declared in the comments of a MASM source: initial stacks as
 `# <tag>: V0, V1, ...` lines, and a kernel module as a block of `# > ` lines.
 */
module Declarations {
  import opened Common
  import opened Text

  // ----- Declared stacks -----

  /** The two stacks share one grammar and differ in their tag. */
  const OPERAND_STACK := "operand_stack:"
  const ADVICE_STACK := "advice_stack:"

  /** A decimal or `0x` hexadecimal 64-bit literal; anything else is dropped. */
  function ParseToken(token: string): seq<nat> {
    var hex := if HasPrefix(token, "0x") then StripPrefix(token, "0x") else StripPrefix(token, "0X");
    var parsed :=
      if hex.Some? then ParseUnsigned(hex.value, 16, U64_RANGE) else ParseUnsigned(token, 10, U64_RANGE);
    if parsed.Some? then [parsed.value] else []
  }

  function ParsePiece(piece: string): seq<nat> {
    if Trim(piece) == [] then [] else ParseToken(Trim(piece))
  }

  function PieceFn(): string -> seq<nat> {
    piece => ParsePiece(piece)
  }

  function ParseValues(values: string): seq<nat> {
    if values == [] then [] else ConcatMap(PieceFn(), Split(values, ','))
  }

  function ParseBody(tag: string, body: string): seq<nat> {
    if HasPrefix(body, tag) then ParseValues(Trim(body[|tag|..])) else []
  }

  /** The values one line declares for `tag`, once its outer white space is gone. */
  function ParseTrimmed(tag: string, trimmed: string): seq<nat> {
    if HasPrefix(trimmed, "#") then ParseBody(tag, Trim(trimmed[1..])) else []
  }

  function LineFn(tag: string): string -> seq<nat> {
    line => ParseTrimmed(tag, Trim(line))
  }

  /** What a source declares for `tag`: its lines' values in order. */
  function Declared(tag: string, source: string): seq<nat> {
    ConcatMap(LineFn(tag), Lines(source))
  }

  method PushPieces(pieces: seq<string>, out: seq<nat>) returns (out': seq<nat>)
    ensures out' == out + ConcatMap(PieceFn(), pieces)
  {
    out' := out;
    for i := 0 to |pieces|
      invariant out' == out + ConcatMap(PieceFn(), pieces[..i])
    {
      ConcatMapNext(PieceFn(), pieces, i);
      out' := PushPiece(pieces[i], out');
    }
    assert pieces[..|pieces|] == pieces;
  }

  method PushPiece(piece: string, out: seq<nat>) returns (out': seq<nat>)
    ensures out' == out + PieceFn()(piece)
  {
    var token := Trim(piece);
    out' := if token == [] then out else out + ParseToken(token);
  }

  method PushLine(tag: string, line: string, out: seq<nat>) returns (out': seq<nat>)
    ensures out' == out + LineFn(tag)(line)
  {
    hide Trim, Split, ConcatMap, PieceFn;
    out' := out;
    var trimmed := Trim(line);
    if !HasPrefix(trimmed, "#") {
      return;
    }
    var body := Trim(trimmed[1..]);
    if !HasPrefix(body, tag) {
      return;
    }
    var values := Trim(body[|tag|..]);
    if values == [] {
      return;
    }
    out' := PushPieces(Split(values, ','), out);
  }

  method PushLines(tag: string, lines: seq<string>) returns (out: seq<nat>)
    ensures out == ConcatMap(LineFn(tag), lines)
  {
    hide LineFn, Trim;
    out := [];
    for i := 0 to |lines|
      invariant out == ConcatMap(LineFn(tag), lines[..i])
    {
      ConcatMapNext(LineFn(tag), lines, i);
      out := PushLine(tag, lines[i], out);
    }
    assert lines[..|lines|] == lines;
  }

  /** `parse_operand_stack` and `parse_advice_stack`. */
  method ParseStack(tag: string, source: string) returns (out: seq<nat>)
    ensures out == Declared(tag, source)
  {
    out := PushLines(tag, Lines(source));
  }

  // ----- Homomorphism -----

  lemma LineFnIgnoresReturn(tag: string, line: string)
    ensures LineFn(tag)(StripReturn(line)) == LineFn(tag)(line)
  {
    TrimIgnoresReturn(line);
  }

  /** A terminated line parses like the line itself, whatever its terminator. */
  lemma DeclaredHead(tag: string, line: string, rest: string)
    requires '\n' !in line
    ensures Declared(tag, line + "\n" + rest) == LineFn(tag)(line) + Declared(tag, rest)
  {
    LinesHead(line, rest);
    ConcatMapConcat(LineFn(tag), [StripReturn(line)], Lines(rest));
    ConcatMapOne(LineFn(tag), StripReturn(line));
    LineFnIgnoresReturn(tag, line);
  }

  lemma EmptyLine(tag: string)
    ensures LineFn(tag)("") == []
  {
    hide ParseBody, Trim;
    TrimEmpty();
  }

  lemma DeclaredLast(tag: string, line: string)
    requires '\n' !in line
    ensures Declared(tag, line) == LineFn(tag)(line)
  {
    hide LineFn, Lines;
    LinesLast(line);
    if line == [] {
      EmptyLine(tag);
    } else {
      ConcatMapOne(LineFn(tag), line);
    }
  }

  /** Declarations may be split over lines and sources: parsing is a homomorphism. */
  lemma {:induction false} DeclaredConcat(tag: string, a: string, b: string)
    ensures Declared(tag, a + "\n" + b) == Declared(tag, a) + Declared(tag, b)
    decreases |a|
  {
    hide *;
    if '\n' !in a {
      DeclaredHead(tag, a, b);
      DeclaredLast(tag, a);
    } else {
      var line, rest := FirstLine(a);
      LineBreak(line, rest, b);
      DeclaredHead(tag, line, rest + "\n" + b);
      DeclaredHead(tag, line, rest);
      DeclaredConcat(tag, rest, b);
    }
  }

  lemma FirstLine(a: string) returns (line: string, rest: string)
    requires '\n' in a
    ensures a == line + "\n" + rest && '\n' !in line && |rest| < |a|
  {
    IndexOfFacts(a, '\n');
    var i := IndexOf(a, '\n');
    line, rest := a[..i], a[i + 1..];
  }

  lemma LineBreak(line: string, rest: string, b: string)
    ensures line + "\n" + rest + "\n" + b == line + "\n" + (rest + "\n" + b)
  {
  }

  // ----- Round trip -----

  /** A token of a declaration: a number in decimal or hexadecimal, or something that starts like neither. */
  datatype Written = InDecimal(n: nat) | InHex(n: nat, bigX: bool, upper: bool) | Other(text: string)

  function Spelled(w: Written): string {
    match w
    case InDecimal(n) => Decimal(n)
    case InHex(n, bigX, upper) => (if bigX then "0X" else "0x") + Hexadecimal(n, upper)
    case Other(text) => text
  }

  /** What a token declares: its number if that fits 64 bits, nothing otherwise. */
  function Meant(w: Written): seq<nat> {
    if !w.Other? && w.n < U64_RANGE then [w.n] else []
  }

  function MeantAll(tokens: seq<Written>): seq<nat> {
    if tokens == [] then [] else Meant(tokens[0]) + MeantAll(tokens[1..])
  }

  /** Other tokens hold neither white space nor commas, and do not start like a number. */
  predicate WellSpelled(w: Written) {
    w.Other? ==>
      && w.text != [] && !('0' <= w.text[0] <= '9') && w.text[0] != '+'
      && forall i :: 0 <= i < |w.text| ==> IsTokenChar(w.text[i])
  }

  predicate IsTokenChar(c: char) {
    !IsWhite(c) && c != ',' && c != '\n'
  }

  /** `T0, T1, ...`. */
  function Listed(tokens: seq<Written>): string {
    if tokens == [] then ""
    else if |tokens| == 1 then Spelled(tokens[0])
    else Spelled(tokens[0]) + "," + " " + Listed(tokens[1..])
  }

  function RenderStack(tag: string, tokens: seq<Written>): string {
    "# " + tag + " " + Listed(tokens)
  }

  lemma DigitsAreDecimal(d: string)
    requires IsDigits(d)
    ensures !HasPrefix(d, "0x") && !HasPrefix(d, "0X")
  {
    assert "0x"[1] == 'x' && "0X"[1] == 'X';
    assert |d| >= 2 ==> d[1] != 'x' && d[1] != 'X';
  }

  lemma {:induction false} BadDigit(s: string)
    requires s != [] && !('0' <= s[0] <= '9')
    ensures ParseDigits(s, 10) == None
  {
    if |s| == 1 {
      assert Front(s) == [] && Last(s) == s[0];
    } else {
      BadDigit(Front(s));
    }
  }

  /** Each kind of token declares what it means. */
  lemma TokenMeaning(w: Written)
    requires WellSpelled(w)
    ensures ParseToken(Spelled(w)) == Meant(w)
  {
    match w
    case InDecimal(n) =>
      DecimalRoundTrip(n, U64_RANGE);
      DecimalIsDigits(n);
      DigitsAreDecimal(Decimal(n));
    case InHex(n, bigX, upper) =>
      HexRoundTrip(n, upper, U64_RANGE);
      HexPrefix(Hexadecimal(n, upper), bigX);
    case Other(text) =>
      BadDigit(text);
      assert "0x"[0] == '0' && "0X"[0] == '0';
  }

  lemma HexPrefix(digits: string, bigX: bool)
    ensures var token := (if bigX then "0X" else "0x") + digits;
            var hex := if HasPrefix(token, "0x") then StripPrefix(token, "0x") else StripPrefix(token, "0X");
            hex == Some(digits)
  {
    var token := (if bigX then "0X" else "0x") + digits;
    assert token[..2] == (if bigX then "0X" else "0x") && token[2..] == digits;
    assert token[1] == (if bigX then 'X' else 'x') && "0x"[1] == 'x';
  }

  lemma SpelledChars(w: Written)
    requires WellSpelled(w)
    ensures var s := Spelled(w); s != [] && forall i :: 0 <= i < |s| ==> IsTokenChar(s[i])
  {
    hide Decimal, Hexadecimal;
    match w
    case InDecimal(n) =>
      DecimalIsDigits(n);
      DigitsAreTokens(Decimal(n));
    case InHex(n, bigX, upper) =>
      HexChars(n, bigX, upper);
    case Other(text) =>
  }

  lemma DigitsAreTokens(s: string)
    requires IsDigits(s)
    ensures forall i :: 0 <= i < |s| ==> IsTokenChar(s[i])
  {
  }

  lemma HexChars(n: nat, bigX: bool, upper: bool)
    ensures var s := (if bigX then "0X" else "0x") + Hexadecimal(n, upper);
            s != [] && forall i :: 0 <= i < |s| ==> IsTokenChar(s[i])
  {
    hide Hexadecimal;
    HexDigits(n, upper);
    var digits := Hexadecimal(n, upper);
    assert forall i :: 0 <= i < |digits| ==> IsTokenChar(digits[i]);
    TokenConcat(if bigX then "0X" else "0x", digits);
  }

  lemma TokenConcat(a: string, b: string)
    requires (a == "0X" || a == "0x") && forall i :: 0 <= i < |b| ==> IsTokenChar(b[i])
    ensures forall i :: 0 <= i < |a + b| ==> IsTokenChar((a + b)[i])
  {
    assert IsTokenChar('0') && IsTokenChar('x') && IsTokenChar('X');
  }

  lemma PieceOfToken(pad: string, w: Written)
    requires AllWhite(pad) && WellSpelled(w)
    ensures PieceFn()(pad + Spelled(w)) == Meant(w)
  {
    hide ParseToken, Spelled, IsWhite, Meant;
    SpelledChars(w);
    var s := Spelled(w);
    assert IsTokenChar(s[0]) && IsTokenChar(s[|s| - 1]) && Last(s) == s[|s| - 1];
    HashIsBlack();
    TrimPadded(pad, s, "");
    assert pad + s + "" == pad + s;
    TokenMeaning(w);
  }

  lemma SplitWhole(s: string, c: char)
    requires c !in s
    ensures Split(s, c) == [s]
  {
    IndexOfFacts(s, c);
  }

  lemma {:induction false} ListedPieces(tokens: seq<Written>, pad: string)
    requires tokens != [] && forall w :: w in tokens ==> WellSpelled(w)
    requires pad == "" || pad == " "
    ensures ConcatMap(PieceFn(), Split(pad + Listed(tokens), ',')) == MeantAll(tokens)
  {
    hide Split, PieceFn, ConcatMap, Spelled, Meant, IsWhite;
    HashIsBlack();
    var w, rest := tokens[0], tokens[1..];
    assert w in tokens && forall v :: v in rest ==> v in tokens;
    var first := pad + Spelled(w);
    PieceOfToken(pad, w);
    SpelledChars(w);
    NoComma(pad, Spelled(w));
    if rest == [] {
      SplitWhole(first, ',');
      ConcatMapOne(PieceFn(), first);
      assert Meant(w) + MeantAll(rest) == Meant(w);
    } else {
      var tail := " " + Listed(rest);
      assert pad + Listed(tokens) == first + [','] + tail;
      SplitJoined(first, ',', tail);
      ListedPieces(rest, " ");
      ConcatMapConcat(PieceFn(), [first], Split(tail, ','));
      ConcatMapOne(PieceFn(), first);
    }
  }

  lemma NoComma(pad: string, s: string)
    requires (pad == "" || pad == " ") && forall i :: 0 <= i < |s| ==> IsTokenChar(s[i])
    ensures ',' !in pad + s && '\n' !in pad + s
  {
  }

  lemma {:induction false} ListedEnds(tokens: seq<Written>)
    requires tokens != [] && forall w :: w in tokens ==> WellSpelled(w)
    ensures Listed(tokens) != []
    ensures !IsWhite(Listed(tokens)[0]) && !IsWhite(Last(Listed(tokens)))
    ensures '\n' !in Listed(tokens)
  {
    hide Spelled, IsWhite, WellSpelled;
    var s := Spelled(tokens[0]);
    assert tokens[0] in tokens;
    SpelledChars(tokens[0]);
    assert IsTokenChar(s[0]) && IsTokenChar(s[|s| - 1]);
    NoComma("", s);
    assert "" + s == s;
    if |tokens| > 1 {
      assert forall w :: w in tokens[1..] ==> w in tokens;
      ListedEnds(tokens[1..]);
    }
  }

  /** A stack tag: text that starts and ends with something other than white space. */
  predicate IsTag(tag: string) {
    tag != [] && !IsWhite(tag[0]) && !IsWhite(Last(tag)) && '\n' !in tag
  }

  lemma HashIsBlack()
    ensures !IsWhite('#') && AllWhite("") && AllWhite(" ")
  {
  }

  lemma CommentBody(tag: string, body: string, tail: string)
    requires body != [] && !IsWhite(body[0]) && !IsWhite(Last(body)) && AllWhite(tail)
    ensures LineFn(tag)("# " + body + tail) == ParseBody(tag, body)
  {
    hide Trim, ParseBody, IsWhite;
    HashIsBlack();
    var trimmed := "# " + body;
    TrimPadded("", trimmed, tail);
    assert "" + trimmed + tail == trimmed + tail;
    TrimPadded(" ", body, "");
    assert trimmed[1..] == " " + body + "";
  }

  lemma TaggedValues(tag: string, listed: string)
    requires listed == [] || (!IsWhite(listed[0]) && !IsWhite(Last(listed)))
    ensures ParseBody(tag, tag + " " + listed) == ParseValues(listed)
  {
    var body := tag + " " + listed;
    TrimPadded(" ", listed, "");
    assert body[|tag|..] == " " + listed + "";
    assert HasPrefix(body, tag);
  }

  lemma BareTag(tag: string)
    ensures ParseBody(tag, tag) == []
  {
    assert tag[|tag|..] == [];
  }

  lemma EmptyRoundTrip(tag: string)
    requires IsTag(tag)
    ensures LineFn(tag)("# " + tag + " ") == []
  {
    hide LineFn, IsWhite, ParseBody;
    HashIsBlack();
    CommentBody(tag, tag, " ");
    BareTag(tag);
  }

  lemma ListedRoundTrip(tag: string, listed: string)
    requires IsTag(tag) && listed != [] && !IsWhite(listed[0]) && !IsWhite(Last(listed))
    ensures LineFn(tag)("# " + tag + " " + listed) == ConcatMap(PieceFn(), Split(listed, ','))
  {
    hide LineFn, IsWhite, ParseBody, ConcatMap, PieceFn, Split;
    HashIsBlack();
    var body := tag + " " + listed;
    assert "# " + tag + " " + listed == "# " + body + "";
    CommentBody(tag, body, "");
    TaggedValues(tag, listed);
  }

  /**
   Parsing the rendering of any tokens gives the numbers they spell, in decimal
   or hexadecimal; numbers over 64 bits and other tokens are dropped.
   */
  lemma StackRoundTrip(tag: string, tokens: seq<Written>)
    requires IsTag(tag)
    requires forall w :: w in tokens ==> WellSpelled(w)
    ensures Declared(tag, RenderStack(tag, tokens)) == MeantAll(tokens)
  {
    hide LineFn, IsWhite, ConcatMap, PieceFn, Split, Declared, WellSpelled;
    var listed := Listed(tokens);
    if tokens == [] {
      assert "# " + tag + " " + "" == "# " + tag + " ";
      EmptyRoundTrip(tag);
    } else {
      ListedEnds(tokens);
      ListedPieces(tokens, "");
      assert "" + listed == listed;
      ListedRoundTrip(tag, listed);
    }
    assert '\n' !in "# " + tag + " " + listed;
    DeclaredLast(tag, RenderStack(tag, tokens));
  }

  lemma StackTags()
    ensures IsTag(OPERAND_STACK) && IsTag(ADVICE_STACK)
  {
    assert OPERAND_STACK[0] == 'o' && Last(OPERAND_STACK) == ':';
    assert ADVICE_STACK[0] == 'a' && Last(ADVICE_STACK) == ':';
  }

  /** Both declared stacks round-trip, each from its own line. */
  lemma DeclaredStacksRoundTrip(tokens: seq<Written>)
    requires forall w :: w in tokens ==> WellSpelled(w)
    ensures Declared(OPERAND_STACK, "# " + "operand_stack:" + " " + Listed(tokens)) == MeantAll(tokens)
    ensures Declared(ADVICE_STACK, "# " + "advice_stack:" + " " + Listed(tokens)) == MeantAll(tokens)
  {
    hide Declared, IsTag, WellSpelled, Listed;
    StackTags();
    StackRoundTrip(OPERAND_STACK, tokens);
    StackRoundTrip(ADVICE_STACK, tokens);
  }

  function InDecimals(values: seq<nat>): seq<Written> {
    if values == [] then [] else [InDecimal(values[0])] + InDecimals(values[1..])
  }

  /** In particular, any 64-bit values come back from their decimals. */
  lemma {:induction false} DecimalsMean(values: seq<nat>)
    requires forall v :: v in values ==> v < U64_RANGE
    ensures MeantAll(InDecimals(values)) == values
    ensures forall w :: w in InDecimals(values) ==> WellSpelled(w)
  {
    if values != [] {
      assert values[0] in values && forall v :: v in values[1..] ==> v in values;
      DecimalsMean(values[1..]);
      assert InDecimals(values)[1..] == InDecimals(values[1..]);
    }
  }

  /** A line that is no comment, or a comment on something else, declares nothing. */
  lemma OtherLinesDeclareNothing(tag: string, line: string)
    requires '\n' !in line && tag != ""
    requires !HasPrefix(Trim(line), "#") || !HasPrefix(Trim(Trim(line)[1..]), tag)
    ensures Declared(tag, line) == []
  {
    hide Trim;
    DeclaredLast(tag, line);
  }
}
