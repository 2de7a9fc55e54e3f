/**
 MASM source as it is written: procedures and the begin block, with calls,
 other instructions, indentation and comments; and what the scanners read back.
 */
module SourceText {
  import opened Common
  import opened Ancestry
  import opened Text
  import opened SourceScan
  import opened ProcLocals

  // ----- The text -----

  /** An instruction: an invocation, possibly through a path, or any other token. */
  datatype Word = Invoke(kind: CallKind, path: string, callee: string) | Plain(text: string)

  /** What a line says, apart from its layout. */
  datatype Content = Header(exported: bool, name: string, locals: nat) | Begin | Finish | Instructions(words: seq<Word>)

  datatype SourceLine = SourceLine(indent: string, content: Content, gap: string, comment: string)

  /** Lines before the body, which belong to none and may include `end`, then the body itself. */
  datatype Body = Body(before: seq<SourceLine>, header: SourceLine, code: seq<SourceLine>, finish: SourceLine)

  function KindPrefix(kind: CallKind): string {
    match kind
    case Exec => "exec."
    case Call => "call."
    case SysCall => "syscall."
  }

  function Spelled(w: Word): string {
    match w
    case Invoke(kind, path, callee) => KindPrefix(kind) + (if path == "" then callee else path + "::" + callee)
    case Plain(text) => text
  }

  function SpelledAll(words: seq<Word>): seq<string> {
    if words == [] then [] else [Spelled(words[0])] + SpelledAll(words[1..])
  }

  function Spaced(tokens: seq<string>): string {
    if tokens == [] then "" else if |tokens| == 1 then tokens[0] else tokens[0] + " " + Spaced(tokens[1..])
  }

  function CodeText(c: Content): string {
    match c
    case Header(exported, name, locals) => (if exported then "export." else "proc.") + name + "." + Decimal(locals)
    case Begin => "begin"
    case Finish => "end"
    case Instructions(words) => Spaced(SpelledAll(words))
  }

  function LineText(l: SourceLine): string {
    l.indent + CodeText(l.content) + l.gap + l.comment
  }

  function LineTexts(lines: seq<SourceLine>): seq<string> {
    if lines == [] then [] else [LineText(lines[0])] + LineTexts(lines[1..])
  }

  function BodyLines(b: Body): seq<SourceLine> {
    b.before + [b.header] + b.code + [b.finish]
  }

  function AllLines(bodies: seq<Body>): seq<SourceLine> {
    if bodies == [] then [] else AllLines(Front(bodies)) + BodyLines(Last(bodies))
  }

  /** The source text. */
  function Rendered(bodies: seq<Body>): string {
    Terminated(LineTexts(AllLines(bodies)))
  }

  // ----- Which texts are meant -----

  predicate IsTokenText(s: string) {
    s != "" && forall i :: 0 <= i < |s| ==> !IsWhite(s[i]) && s[i] != '#'
  }

  predicate IsName(s: string) {
    forall i :: 0 <= i < |s| ==> !IsWhite(s[i]) && s[i] != '#' && s[i] != '.' && s[i] != ':'
  }

  predicate IsWord(w: Word) {
    match w
    case Invoke(_, path, callee) => IsTokenText(Spelled(w)) && ':' !in callee
    case Plain(text) =>
      IsTokenText(text) && !HasPrefix(text, "exec.") && !HasPrefix(text, "call.") && !HasPrefix(text, "syscall.")
  }

  predicate IsContent(c: Content) {
    match c
    case Header(_, name, _) => IsName(name)
    case Begin => true
    case Finish => true
    case Instructions(words) =>
      && (forall w :: w in words ==> IsWord(w))
      && (words != [] ==> !HasPrefix(Spelled(words[0]), "proc.") && !HasPrefix(Spelled(words[0]), "export."))
      && (|words| == 1 ==> Spelled(words[0]) != "begin" && Spelled(words[0]) != "end")
  }

  predicate IsLayout(s: string) {
    AllWhite(s) && '\n' !in s
  }

  predicate IsLine(l: SourceLine) {
    && IsLayout(l.indent) && IsLayout(l.gap) && IsContent(l.content)
    && '\n' !in l.comment && (l.comment != "" ==> l.comment[0] == '#')
  }

  predicate IsCodeLine(l: SourceLine) {
    IsLine(l) && l.content.Instructions?
  }

  predicate IsOutsideLine(l: SourceLine) {
    IsLine(l) && (l.content.Instructions? || l.content.Finish?)
  }

  predicate IsBody(b: Body) {
    && (forall l :: l in b.before ==> IsOutsideLine(l))
    && IsLine(b.header) && (b.header.content.Header? || b.header.content.Begin?)
    && (forall l :: l in b.code ==> IsCodeLine(l))
    && IsLine(b.finish) && b.finish.content.Finish?
  }

  ghost predicate AreBodies(bodies: seq<Body>) {
    forall b :: b in bodies ==> IsBody(b)
  }

  // ----- What such a text says -----

  function BodyName(b: Body): string {
    if b.header.content.Header? then b.header.content.name else "#main"
  }

  function Names(bodies: seq<Body>): set<string> {
    set b | b in bodies :: BodyName(b)
  }

  function WordUses(caller: string, words: seq<Word>): seq<CallSite> {
    if words == [] then []
    else
      (match words[0]
       case Invoke(kind, _, callee) => [CallSite(caller, callee, kind)]
       case Plain(_) => [])
      + WordUses(caller, words[1..])
  }

  function CodeUses(caller: string, code: seq<SourceLine>): seq<CallSite> {
    if code == [] then []
    else
      CodeUses(caller, Front(code))
      + (if Last(code).content.Instructions? then WordUses(caller, Last(code).content.words) else [])
  }

  /** Every invocation of every body, in order. */
  function Uses(bodies: seq<Body>): seq<CallSite> {
    if bodies == [] then [] else Uses(Front(bodies)) + CodeUses(BodyName(Last(bodies)), Last(bodies).code)
  }

  // ----- One line -----

  lemma {:induction false} TrimEndBlack(a: string, b: string)
    requires b != [] && !IsWhite(b[0])
    ensures TrimEnd(a + b) == a + TrimEnd(b) && TrimEnd(b) != [] && TrimEnd(b)[0] == b[0]
  {
    if IsWhite(Last(b)) {
      assert Front(a + b) == a + Front(b) && Front(b)[0] == b[0];
      TrimEndBlack(a, Front(b));
    }
  }

  lemma {:induction false} TrimStartBlack(a: string, b: string)
    requires b != [] && !IsWhite(b[0])
    ensures TrimStart(a + b) == TrimStart(a) + b
  {
    if a == [] {
      assert a + b == b;
    } else if IsWhite(a[0]) {
      assert (a + b)[1..] == a[1..] + b;
      TrimStartBlack(a[1..], b);
    }
  }

  lemma {:induction false} TrimStartTwice(s: string)
    ensures TrimStart(TrimStart(s)) == TrimStart(s)
  {
    TrimStartSuffix(s);
  }

  lemma {:induction false} TrimTwice(s: string)
    ensures Trim(Trim(s)) == Trim(s)
  {
    hide TrimStart, TrimEnd;
    TrimStartSuffix(s);
    var t := TrimStart(s);
    TrimEndPrefix(t);
    var u := TrimEnd(t);
    assert "" + u + "" == u;
    assert u != [] ==> u[0] == t[0];
    TrimPadded("", u, "");
  }

  /** A comment is cut, white space before it included. */
  lemma CommentIsCut(a: string, comment: string)
    requires '#' !in a && (comment != "" ==> comment[0] == '#')
    ensures Code(a + comment) == Trim(a)
  {
    hide TrimStart, TrimEnd, IsWhite, IndexOf;
    if comment == "" {
      assert a + comment == a;
      NoCommentToCut(a);
    } else {
      assert !IsWhite(comment[0]) by { HashIsBlack(); }
      TrimStartBlack(a, comment);
      var start := TrimStart(a);
      TrimEndBlack(start, comment);
      TrimStartSuffix(a);
      var rest := TrimEnd(comment);
      assert '#' !in start;
      IndexOfFirst(start, '#', rest[1..]);
      assert start + rest == start + ['#'] + rest[1..];
      assert (start + rest)[..|start|] == start;
      TrimStartTwice(a);
    }
  }

  lemma HashIsBlack()
    ensures !IsWhite('#')
  {
  }

  lemma NoCommentToCut(a: string)
    requires '#' !in a
    ensures Code(a) == Trim(a)
  {
    hide Trim;
    var trimmed := Trim(a);
    forall c | c in trimmed ensures c in a { TrimWithin(a, c); }
    IndexOfFacts(trimmed, '#');
    assert trimmed[..|trimmed|] == trimmed;
    TrimTwice(a);
  }

  /** Code begins and ends with something other than white space, and holds no comment. */
  predicate IsCode(s: string) {
    '#' !in s && '\n' !in s && (s == [] || (!IsWhite(s[0]) && !IsWhite(Last(s))))
  }

  lemma CodeOfLine(l: SourceLine)
    requires IsLine(l) && IsCode(CodeText(l.content))
    ensures Code(LineText(l)) == CodeText(l.content) && '\n' !in LineText(l)
  {
    hide Code, CodeText, Trim;
    var text := CodeText(l.content);
    var a := l.indent + text + l.gap;
    WhiteHasNoHash(l.indent);
    WhiteHasNoHash(l.gap);
    CommentIsCut(a, l.comment);
    TrimPadded(l.indent, text, l.gap);
  }

  lemma WhiteHasNoHash(s: string)
    requires AllWhite(s)
    ensures '#' !in s
  {
    HashIsBlack();
  }

  // ----- Tokens -----

  lemma {:induction false} WordEnds(w: string, rest: string)
    requires (forall i :: 0 <= i < |w| ==> !IsWhite(w[i])) && (rest == [] || IsWhite(rest[0]))
    ensures WordLength(w + rest) == |w|
  {
    hide IsWhite;
    if w == [] {
      assert w + rest == rest;
    } else {
      assert (w + rest)[1..] == w[1..] + rest;
      WordEnds(w[1..], rest);
    }
  }

  lemma WordsHead(w: string, rest: string)
    requires IsTokenText(w) && (rest == [] || IsWhite(rest[0]))
    ensures Words(w + rest) == [w] + Words(rest)
  {
    WordEnds(w, rest);
    var s := w + rest;
    assert TrimStart(s) == s by { assert s[0] == w[0]; }
    assert s[..|w|] == w && s[|w|..] == rest;
  }

  lemma WordsSkipSpace(s: string)
    ensures Words(" " + s) == Words(s)
  {
    assert (" " + s)[1..] == s;
    assert TrimStart(" " + s) == TrimStart(s);
  }

  lemma {:induction false} WordsOfSpaced(tokens: seq<string>)
    requires forall t :: t in tokens ==> IsTokenText(t)
    ensures Words(Spaced(tokens)) == tokens
  {
    hide Words, IsTokenText;
    if tokens == [] {
      assert Words("") == [] by { NoWords(); }
    } else {
      var w := tokens[0];
      assert w in tokens && forall t :: t in tokens[1..] ==> t in tokens;
      if |tokens| == 1 {
        WordsHead(w, "");
        assert w + "" == w;
        NoWords();
      } else {
        var rest := Spaced(tokens[1..]);
        WordsHead(w, " " + rest);
        assert w + " " + rest == w + (" " + rest);
        WordsSkipSpace(rest);
        WordsOfSpaced(tokens[1..]);
      }
    }
  }

  lemma NoWords()
    ensures Words("") == []
  {
  }

  lemma {:induction false} SpacedEnds(tokens: seq<string>)
    requires tokens != [] && forall t :: t in tokens ==> IsTokenText(t)
    ensures var s := Spaced(tokens);
            && s != [] && tokens[0] != [] && s[0] == tokens[0][0] && IsCode(s)
            && tokens[0] <= s && (|tokens| > 1 ==> tokens[0] + " " <= s)
  {
    var w := tokens[0];
    assert w in tokens && IsTokenText(w) && !IsWhite(w[0]) && !IsWhite(w[|w| - 1]);
    assert forall t :: t in tokens[1..] ==> t in tokens;
    assert '\n' !in w && '#' !in w;
    if |tokens| > 1 {
      SpacedEnds(tokens[1..]);
    }
  }

  lemma {:induction false} SpelledTokens(words: seq<Word>)
    requires forall w :: w in words ==> IsWord(w)
    ensures |SpelledAll(words)| == |words| && forall t :: t in SpelledAll(words) ==> IsTokenText(t)
  {
    hide IsTokenText;
    if words != [] {
      assert words[0] in words && IsWord(words[0]) && forall w :: w in words[1..] ==> w in words;
      SpelledTokens(words[1..]);
    }
  }

  lemma TokenUse(caller: string, w: Word)
    requires IsWord(w)
    ensures TokenCall(caller, Spelled(w)) == WordUses(caller, [w])
  {
    hide BareName;
    assert [w][1..] == [];
    match w
    case Invoke(kind, path, callee) =>
      var target := if path == "" then callee else path + "::" + callee;
      var token := KindPrefix(kind) + target;
      if path == "" {
        BareOfPlain(callee);
      } else {
        BareOfPath(path, callee);
      }
      match kind {
        case Exec =>
          assert token[0] == 'e' && token[..5] == "exec." && token[5..] == target;
        case Call =>
          assert token[0] == 'c' && token[..5] == "call." && token[5..] == target;
        case SysCall =>
          assert token[..8] == "syscall." && token[8..] == target;
      }
    case Plain(text) =>
  }

  lemma {:induction false} TokenUses(caller: string, words: seq<Word>)
    requires forall w :: w in words ==> IsWord(w)
    ensures TokenCalls(caller, SpelledAll(words)) == WordUses(caller, words)
    decreases |words|
  {
    hide IsWord, TokenCall, Spelled;
    if words != [] {
      var before, last := Front(words), Last(words);
      assert last in words && forall w :: w in before ==> w in words;
      TokenUses(caller, before);
      TokenUse(caller, last);
      SpelledSnoc(before, last);
      UsesSnoc(caller, before, last);
      assert before + [last] == words;
    }
  }

  lemma {:induction false} SpelledSnoc(words: seq<Word>, w: Word)
    ensures SpelledAll(words + [w]) == SpelledAll(words) + [Spelled(w)]
    ensures Front(SpelledAll(words) + [Spelled(w)]) == SpelledAll(words)
  {
    hide Spelled;
    if words == [] {
      assert words + [w] == [w] && [w][1..] == [];
    } else {
      SpelledSnoc(words[1..], w);
      assert (words + [w])[1..] == words[1..] + [w];
    }
  }

  lemma {:induction false} UsesSnoc(caller: string, words: seq<Word>, w: Word)
    ensures WordUses(caller, words + [w]) == WordUses(caller, words) + WordUses(caller, [w])
  {
    if words == [] {
      assert words + [w] == [w];
    } else {
      UsesSnoc(caller, words[1..], w);
      assert (words + [w])[1..] == words[1..] + [w];
    }
  }

  // ----- Forms -----

  function FormIs(c: Content): LineForm {
    match c
    case Header(_, name, _) => Opens(name)
    case Begin => Opens("#main")
    case Finish => Closes
    case Instructions(words) => if words == [] then Blank else Runs(SpelledAll(words))
  }

  lemma HeaderPieces(exported: bool, name: string, locals: nat)
    requires IsName(name)
    ensures var text := CodeText(Header(exported, name, locals));
            && Split(text, '.') == [if exported then "export" else "proc", name, Decimal(locals)]
            && IsCode(text)
            && (HasPrefix(text, "proc.") || HasPrefix(text, "export."))
  {
    hide Split, IsWhite;
    var word, digits := if exported then "export" else "proc", Decimal(locals);
    var text := CodeText(Header(exported, name, locals));
    DecimalIsDigits(locals);
    SplitJoined(word, '.', name + "." + digits);
    assert text == word + ['.'] + (name + "." + digits);
    SplitJoined(name, '.', digits);
    assert name + "." + digits == name + ['.'] + digits;
    SplitAlone(digits);
    HeaderEnds(word, name, digits);
  }

  lemma SplitAlone(digits: string)
    requires IsDigits(digits)
    ensures Split(digits, '.') == [digits]
  {
    IndexOfFacts(digits, '.');
  }

  lemma HeaderEnds(word: string, name: string, digits: string)
    requires word == "export" || word == "proc"
    requires IsName(name) && IsDigits(digits)
    ensures IsCode(word + "." + name + "." + digits)
  {
    var text := word + "." + name + "." + digits;
    assert text[0] == word[0] && Last(text) == digits[|digits| - 1];
    forall i | 0 <= i < |text| ensures text[i] != '#' && text[i] != '\n' {
      if i < |word| + 1 {
      } else if i < |word| + 1 + |name| {
        assert text[i] == name[i - |word| - 1];
      }
    }
  }

  lemma ContentForm(c: Content)
    requires IsContent(c)
    ensures IsCode(CodeText(c)) && CodeForm(CodeText(c)) == FormIs(c)
  {
    hide Split, Words;
    match c
    case Header(exported, name, locals) =>
      HeaderPieces(exported, name, locals);
    case Begin =>
      assert "begin"[0] == 'b' && Last("begin") == 'n';
    case Finish =>
      assert "end"[0] == 'e' && "end"[1] == 'n' && "export."[1] == 'x' && Last("end") == 'd' && "end" != "begin";
    case Instructions(words) =>
      SpelledTokens(words);
      if words != [] {
        var tokens := SpelledAll(words);
        SpacedEnds(tokens);
        WordsOfSpaced(tokens);
        NoKeyword(tokens);
      }
  }

  /** A prefix without a space is a prefix of the first token. */
  lemma PrefixOfToken(w: string, s: string, p: string)
    requires w <= s && (w == s || w + " " <= s) && ' ' !in p
    ensures HasPrefix(s, p) ==> HasPrefix(w, p)
  {
    if |w| < |p| {
      assert p[|w|] in p;
      assert w != s ==> s[|w|] == (w + " ")[|w|] == ' ';
      assert |p| <= |s| ==> s[..|p|][|w|] == s[|w|];
    } else {
      assert s[..|p|] == w[..|p|];
    }
  }

  /** A line of instructions is no header, `begin` or `end`. */
  lemma NoKeyword(tokens: seq<string>)
    requires tokens != [] && forall t :: t in tokens ==> IsTokenText(t)
    requires !HasPrefix(tokens[0], "proc.") && !HasPrefix(tokens[0], "export.")
    requires |tokens| == 1 ==> tokens[0] != "begin" && tokens[0] != "end"
    ensures var s := Spaced(tokens);
            !HasPrefix(s, "proc.") && !HasPrefix(s, "export.") && s != "begin" && s != "end" && s != ""
  {
    hide IsTokenText;
    var w, s := tokens[0], Spaced(tokens);
    assert w in tokens;
    SpacedEnds(tokens);
    assert |tokens| == 1 ==> s == w;
    NotSpaced(s, w, |tokens| == 1);
  }

  lemma NotSpaced(s: string, w: string, alone: bool)
    requires w <= s && s != "" && (if alone then s == w else w + " " <= s)
    requires !HasPrefix(w, "proc.") && !HasPrefix(w, "export.")
    requires alone ==> w != "begin" && w != "end"
    ensures !HasPrefix(s, "proc.") && !HasPrefix(s, "export.") && s != "begin" && s != "end"
  {
    hide HasPrefix;
    PrefixOfToken(w, s, "proc.");
    PrefixOfToken(w, s, "export.");
    if !alone {
      assert s[|w|] == (w + " ")[|w|] == ' ' && s[|w|] in s;
      assert ' ' !in "begin" && ' ' !in "end";
    }
  }

  lemma FormOfLine(l: SourceLine)
    requires IsLine(l)
    ensures FormOf(LineText(l)) == FormIs(l.content) && '\n' !in LineText(l)
  {
    hide IsContent, CodeText, Code, CodeForm, FormIs;
    ContentForm(l.content);
    CodeOfLine(l);
  }

  // ----- The whole source -----

  function FormsIs(lines: seq<SourceLine>): (forms: seq<LineForm>)
    ensures |forms| == |lines|
  {
    if lines == [] then [] else FormsIs(Front(lines)) + [FormIs(Last(lines).content)]
  }

  lemma {:induction false} FormsIsConcat(a: seq<SourceLine>, b: seq<SourceLine>)
    ensures FormsIs(a + b) == FormsIs(a) + FormsIs(b)
  {
    hide FormIs;
    if b == [] {
      assert a + b == a;
    } else {
      FormsIsConcat(a, Front(b));
      assert Front(a + b) == a + Front(b);
    }
  }

  lemma {:induction false} TextsSnoc(lines: seq<SourceLine>, l: SourceLine)
    ensures LineTexts(lines + [l]) == LineTexts(lines) + [LineText(l)]
  {
    hide LineText;
    if lines == [] {
      assert lines + [l] == [l] && [l][1..] == [];
    } else {
      TextsSnoc(lines[1..], l);
      assert (lines + [l])[1..] == lines[1..] + [l];
    }
  }

  lemma {:induction false} StrippedSnoc(texts: seq<string>, t: string)
    ensures Stripped(texts + [t]) == Stripped(texts) + [StripReturn(t)]
  {
    hide StripReturn;
    if texts == [] {
      assert texts + [t] == [t] && [t][1..] == [];
    } else {
      StrippedSnoc(texts[1..], t);
      assert (texts + [t])[1..] == texts[1..] + [t];
    }
  }

  lemma FormIgnoresReturn(line: string)
    ensures FormOf(StripReturn(line)) == FormOf(line)
  {
    hide Trim, CodeForm;
    TrimIgnoresReturn(line);
  }

  lemma {:induction false} TextForms(lines: seq<SourceLine>)
    requires forall l :: l in lines ==> IsLine(l)
    ensures FormsOf(Stripped(LineTexts(lines))) == FormsIs(lines)
    ensures forall t :: t in LineTexts(lines) ==> '\n' !in t
    decreases |lines|
  {
    hide IsLine, LineText, FormOf, FormIs, StripReturn;
    if lines != [] {
      var before, last := Front(lines), Last(lines);
      assert last in lines && forall l :: l in before ==> l in lines;
      assert lines == before + [last];
      TextForms(before);
      TextsSnoc(before, last);
      StrippedSnoc(LineTexts(before), LineText(last));
      FormOfLine(last);
      FormIgnoresReturn(LineText(last));
      assert Front(Stripped(LineTexts(before)) + [StripReturn(LineText(last))]) == Stripped(LineTexts(before));
    }
  }

  lemma BodiesAreLines(bodies: seq<Body>)
    requires AreBodies(bodies)
    ensures forall l :: l in AllLines(bodies) ==> IsLine(l)
  {
    hide IsLine;
    if bodies != [] {
      assert Last(bodies) in bodies && forall b :: b in Front(bodies) ==> b in bodies;
      BodiesAreLines(Front(bodies));
    }
  }

  lemma {:induction false} CodeScans(forms: seq<LineForm>, name: string, code: seq<SourceLine>)
    requires BodyAfter(forms) == Some(name)
    requires forall l :: l in code ==> IsCodeLine(l)
    ensures var more := forms + FormsIs(code);
            && BodyAfter(more) == Some(name) && Bodies(more) == Bodies(forms)
            && CallSites(more) == CallSites(forms) + CodeUses(name, code)
    decreases |code|
  {
    hide BodyAfter, Bodies, CallSites, TokenCalls, IsLine, SpelledAll;
    if code == [] {
      assert forms + FormsIs(code) == forms;
      assert CallSites(forms) + [] == CallSites(forms);
    } else {
      var before, last := Front(code), Last(code);
      assert last in code && forall l :: l in before ==> l in code;
      CodeScans(forms, name, before);
      OneMoreForm(forms + FormsIs(before), FormIs(last.content));
      assert forms + FormsIs(code) == forms + FormsIs(before) + [FormIs(last.content)];
      LineUses(name, last);
      var sites, first, more := CallSites(forms), CodeUses(name, before), WordUses(name, last.content.words);
      assert sites + first + more == sites + (first + more);
      assert sites + first + [] == sites + first;
    }
  }

  lemma LineUses(name: string, l: SourceLine)
    requires IsCodeLine(l)
    ensures var form, uses := FormIs(l.content), WordUses(name, l.content.words);
            (form.Blank? && uses == []) || (form.Runs? && TokenCalls(name, form.tokens) == uses)
  {
    hide IsWord, TokenCalls, SpelledAll;
    TokenUses(name, l.content.words);
  }

  lemma {:induction false} OutsideForms(lines: seq<SourceLine>)
    requires forall l :: l in lines ==> IsOutsideLine(l)
    ensures forall f :: f in FormsIs(lines) ==> !f.Opens?
  {
    if lines != [] {
      assert Last(lines) in lines && forall l :: l in Front(lines) ==> l in lines;
      OutsideForms(Front(lines));
    }
  }

  lemma BodyScans(forms: seq<LineForm>, b: Body)
    requires BodyAfter(forms) == None && IsBody(b)
    ensures var more := forms + FormsIs(BodyLines(b));
            && BodyAfter(more) == None && Bodies(more) == Bodies(forms) + {BodyName(b)}
            && CallSites(more) == CallSites(forms) + CodeUses(BodyName(b), b.code)
  {
    hide BodyAfter, Bodies, CallSites, FormsIs, IsLine, CodeUses;
    var name := BodyName(b);
    var f1 := forms + FormsIs(b.before);
    var f2 := f1 + [Opens(name)];
    var f3 := f2 + FormsIs(b.code);
    OutsideForms(b.before);
    CallsAfterEndAreMissed(forms, FormsIs(b.before));
    OneMoreForm(f1, Opens(name));
    CodeScans(f2, name, b.code);
    OneMoreForm(f3, Closes);
    BodyForms(b);
    assert forms + FormsIs(BodyLines(b)) == f3 + [Closes];
  }

  lemma BodyForms(b: Body)
    requires IsBody(b)
    ensures FormsIs(BodyLines(b)) == FormsIs(b.before) + [Opens(BodyName(b))] + FormsIs(b.code) + [Closes]
  {
    FormsIsConcat(b.before + [b.header] + b.code, [b.finish]);
    FormsIsConcat(b.before + [b.header], b.code);
    FormsIsConcat(b.before, [b.header]);
    assert Front([b.finish]) == [] && Front([b.header]) == [];
  }

  lemma {:induction false} BodiesScan(bodies: seq<Body>)
    requires AreBodies(bodies)
    ensures var forms := FormsIs(AllLines(bodies));
            BodyAfter(forms) == None && Bodies(forms) == Names(bodies) && CallSites(forms) == Uses(bodies)
    decreases |bodies|
  {
    hide FormsIs, IsBody, CodeUses, BodyName, BodyLines;
    if bodies == [] {
      NoForms();
    } else {
      var before, last := Front(bodies), Last(bodies);
      assert last in bodies && forall b :: b in before ==> b in bodies;
      assert bodies == before + [last];
      BodiesScan(before);
      BodyScans(FormsIs(AllLines(before)), last);
      FormsIsConcat(AllLines(before), BodyLines(last));
      assert Names(bodies) == Names(before) + {BodyName(last)};
    }
  }

  lemma NoForms()
    ensures FormsIs([]) == [] && BodyAfter([]) == None && Bodies([]) == {} && CallSites([]) == []
  {
  }

  /** The text and what it says: the keys are the bodies' names, the sites their invocations. */
  lemma SourceScans(bodies: seq<Body>)
    requires AreBodies(bodies)
    ensures Bodies(Forms(Rendered(bodies))) == Names(bodies)
    ensures CallSites(Forms(Rendered(bodies))) == Uses(bodies)
  {
    hide *;
    var lines := AllLines(bodies);
    BodiesAreLines(bodies);
    TextForms(lines);
    FormsOfRendered(bodies);
    BodiesScan(bodies);
  }

  lemma FormsOfRendered(bodies: seq<Body>)
    requires AreBodies(bodies)
    ensures Forms(Rendered(bodies)) == FormsIs(AllLines(bodies))
  {
    hide LineTexts, Lines, Terminated, FormsOf, FormsIs, IsLine, AllLines, Stripped, AreBodies;
    BodiesAreLines(bodies);
    TextForms(AllLines(bodies));
    LinesOfTerminated(LineTexts(AllLines(bodies)));
  }

  /** Use `i` is the last of its callee in its body. */
  predicate IsLastUse(uses: seq<CallSite>, i: nat)
    requires i < |uses|
  {
    forall j :: i < j < |uses| ==> uses[j].caller != uses[i].caller || uses[j].callee != uses[i].callee
  }

  /** The graph a program writes: its bodies, and for each the procedures it invokes. */
  ghost predicate IsWrittenGraph(bodies: seq<Body>, graph: CallGraph) {
    && graph.Keys == Names(bodies)
    && forall b, c :: b in graph ==> (c in graph[b] <==> IsUsed(Uses(bodies), b, c))
  }

  ghost predicate IsUsed(uses: seq<CallSite>, caller: string, callee: string) {
    exists i :: 0 <= i < |uses| && uses[i].caller == caller && uses[i].callee == callee
  }

  /** The kinds it writes: the same bodies and callees, each callee with the kind of its last use. */
  ghost predicate AreWrittenKinds(bodies: seq<Body>, kinds: map<string, map<string, CallKind>>) {
    var uses := Uses(bodies);
    && kinds.Keys == Names(bodies)
    && (forall b, c :: b in kinds ==> (c in kinds[b] <==> IsUsed(uses, b, c)))
    && (forall i :: 0 <= i < |uses| && IsLastUse(uses, i) && uses[i].caller in kinds && uses[i].callee in kinds[uses[i].caller] ==>
          kinds[uses[i].caller][uses[i].callee] == uses[i].kind)
  }

  lemma {:induction false} LastKindIsLast(uses: seq<CallSite>, caller: string, callee: string)
    ensures LastKind(uses, caller, callee).Some? <==> IsUsed(uses, caller, callee)
    ensures forall i :: 0 <= i < |uses| && IsLastUse(uses, i) && uses[i].caller == caller && uses[i].callee == callee ==>
              LastKind(uses, caller, callee) == Some(uses[i].kind)
  {
    if uses != [] {
      var before, n := Front(uses), |uses| - 1;
      LastKindIsLast(before, caller, callee);
      assert forall i :: 0 <= i < n ==> before[i] == uses[i];
      forall i | 0 <= i < |uses| && IsLastUse(uses, i) && uses[i].caller == caller && uses[i].callee == callee
        ensures LastKind(uses, caller, callee) == Some(uses[i].kind)
      {
        if i < n {
          assert uses[n].caller != uses[i].caller || uses[n].callee != uses[i].callee;
          assert IsLastUse(before, i);
        }
      }
      if IsUsed(before, caller, callee) {
        var i :| 0 <= i < n && before[i].caller == caller && before[i].callee == callee;
        assert uses[i].caller == caller;
      }
    }
  }

  /** The scanned call graph of any written program is the graph it writes, and its kinds are the written ones. */
  lemma GraphIsWritten(bodies: seq<Body>)
    requires AreBodies(bodies)
    ensures IsWrittenGraph(bodies, ScannedGraph(Rendered(bodies)))
    ensures ScannedGraph(Rendered(bodies)) == GraphOf(Names(bodies), Uses(bodies))
    ensures forall kinds :: IsScannedKinds(Rendered(bodies), kinds) ==> AreWrittenKinds(bodies, kinds)
  {
    hide Bodies, CallSites, Forms, Rendered, Names, Uses;
    SourceScans(bodies);
    GraphIsUsed(bodies);
    forall kinds | IsScannedKinds(Rendered(bodies), kinds) ensures AreWrittenKinds(bodies, kinds) {
      KindsAreUsed(bodies, kinds);
    }
  }

  lemma GraphIsUsed(bodies: seq<Body>)
    ensures IsWrittenGraph(bodies, GraphOf(Names(bodies), Uses(bodies)))
  {
    hide Names, Uses;
    var names, uses := Names(bodies), Uses(bodies);
    var graph := GraphOf(names, uses);
    forall b, c | b in graph ensures c in graph[b] <==> IsUsed(uses, b, c) {
      if i :| 0 <= i < |uses| && uses[i].caller == b && uses[i].callee == c {
        assert uses[i] in uses;
      }
    }
  }

  lemma KindsAreUsed(bodies: seq<Body>, kinds: map<string, map<string, CallKind>>)
    requires IsKindGraph(Names(bodies), Uses(bodies), kinds)
    ensures AreWrittenKinds(bodies, kinds)
  {
    hide Names, Uses, LastKind;
    var uses := Uses(bodies);
    forall b, c | b in kinds ensures c in kinds[b] <==> IsUsed(uses, b, c) {
      LastKindIsLast(uses, b, c);
    }
    forall i | 0 <= i < |uses| && IsLastUse(uses, i) && uses[i].caller in kinds && uses[i].callee in kinds[uses[i].caller]
      ensures kinds[uses[i].caller][uses[i].callee] == uses[i].kind
    {
      LastKindIsLast(uses, uses[i].caller, uses[i].callee);
    }
  }

  // ----- Declared local counts -----

  /** What a header declares; a comment after it spoils the count, and so does one over 16 bits. */
  function DeclarationIs(l: SourceLine): Option<Declaration> {
    if l.content.Header? && l.comment == "" && l.content.locals < 0x1_0000 then
      Some(Declaration(l.content.name, l.content.locals))
    else None
  }

  /** The local counts a program writes: each declared procedure with its last count. */
  function WrittenLocals(bodies: seq<Body>): map<string, nat> {
    if bodies == [] then map[]
    else
      var before, d := WrittenLocals(Front(bodies)), DeclarationIs(Last(bodies).header);
      if d.None? then before else before[d.value.name := d.value.locals]
  }

  /** The first token of a line ends before white space or a comment. */
  lemma PrefixBeforeBreak(w: string, s: string, p: string)
    requires w <= s && (w == s || IsWhite(s[|w|]) || s[|w|] == '#')
    requires forall i :: 0 <= i < |p| ==> !IsWhite(p[i]) && p[i] != '#'
    ensures HasPrefix(s, p) ==> HasPrefix(w, p)
  {
    hide IsWhite;
    if |w| < |p| {
      assert |p| <= |s| ==> s[..|p|][|w|] == s[|w|];
    } else {
      assert s[..|p|] == w[..|p|];
    }
  }

  lemma DeclarationPrefixes()
    ensures forall i :: 0 <= i < |"proc."| ==> !IsWhite("proc."[i]) && "proc."[i] != '#'
    ensures forall i :: 0 <= i < |"export."| ==> !IsWhite("export."[i]) && "export."[i] != '#'
  {
  }

  /** A line without its outer white space: the code, and the comment after the gap. */
  function TrimmedLine(l: SourceLine): string {
    if l.comment == "" then CodeText(l.content)
    else (if CodeText(l.content) == "" then "" else CodeText(l.content) + l.gap) + TrimEnd(l.comment)
  }

  lemma LineIsTrimmed(l: SourceLine)
    requires IsLine(l)
    ensures Trim(LineText(l)) == TrimmedLine(l)
    ensures l.comment != "" ==> TrimEnd(l.comment) != "" && TrimEnd(l.comment)[0] == '#'
  {
    hide IsWhite, CodeText, TrimEnd, TrimStart, CodeForm, FormIs, IsContent;
    ContentForm(l.content);
    var text := CodeText(l.content);
    if l.comment == "" {
      TrimPadded(l.indent, text, l.gap);
      assert LineText(l) == l.indent + text + l.gap;
    } else {
      HashIsBlack();
      var a := l.indent + text + l.gap;
      TrimStartBlack(a, l.comment);
      TrimEndBlack(TrimStart(a), l.comment);
      TrimStartLayout(l.indent, text, l.gap);
    }
  }

  lemma TrimStartLayout(indent: string, text: string, gap: string)
    requires AllWhite(indent) && AllWhite(gap) && (text == "" || !IsWhite(text[0]))
    ensures TrimStart(indent + text + gap) == if text == "" then "" else text + gap
  {
    if text == "" {
      assert indent + text + gap == indent + gap + "";
      TrimStartPadded(indent, gap);
      TrimStartPadded(gap, "");
      assert gap + "" == gap && indent + text + gap == indent + gap;
    } else {
      TrimStartPadded(indent, text + gap);
      assert indent + text + gap == indent + (text + gap);
    }
  }

  lemma {:induction false} BadDigits(s: string)
    requires '#' in s
    ensures ParseDigits(s, 10) == None
  {
    if Last(s) != '#' {
      assert s == Front(s) + [Last(s)];
      BadDigits(Front(s));
    }
  }

  lemma HeaderDeclares(exported: bool, name: string, locals: nat)
    requires IsName(name)
    ensures var text := CodeText(Header(exported, name, locals));
            DeclarationOfTrimmed(text) == if locals < 0x1_0000 then Some(Declaration(name, locals)) else None
  {
    hide Split, ParseUnsigned, CodeText;
    HeaderPieces(exported, name, locals);
    DecimalRoundTrip(locals, U16_RANGE);
  }

  lemma CommentedHeader(exported: bool, name: string, locals: nat, gap: string, rest: string)
    requires IsName(name) && AllWhite(gap) && rest != "" && rest[0] == '#'
    ensures DeclarationOfTrimmed(CodeText(Header(exported, name, locals)) + gap + rest) == None
  {
    hide Split, IsWhite, ParseUnsigned;
    var word, digits := if exported then "export" else "proc", Decimal(locals);
    var last := digits + gap + rest;
    var text := CodeText(Header(exported, name, locals)) + gap + rest;
    assert text == word + ['.'] + (name + "." + last);
    SplitJoined(word, '.', name + "." + last);
    assert name + "." + last == name + ['.'] + last;
    SplitJoined(name, '.', last);
    DecimalIsDigits(locals);
    SpoiltCount(digits, gap, rest);
    assert Split(text, '.') == [word] + ([name] + Split(last, '.'));
  }

  lemma SpoiltCount(digits: string, gap: string, rest: string)
    requires IsDigits(digits) && AllWhite(gap) && rest != "" && rest[0] == '#'
    ensures var pieces := Split(digits + gap + rest, '.');
            pieces != [] && ParseUnsigned(pieces[0], 10, U16_RANGE) == None
  {
    var s := digits + gap + rest;
    IndexOfFacts(s, '.');
    var i := IndexOf(s, '.');
    var piece := s[..i];
    assert s[|digits + gap|] == '#';
    assert forall k :: 0 <= k < |digits + gap| ==> s[k] == (digits + gap)[k] != '.';
    assert i > |digits + gap|;
    assert piece[|digits + gap|] == '#' && piece[0] == digits[0];
    BadDigits(piece);
    assert i == |s| ==> piece == s;
  }

  lemma OtherDeclaresNothing(l: SourceLine)
    requires IsLine(l) && !l.content.Header?
    ensures DeclarationOfTrimmed(TrimmedLine(l)) == None
  {
    hide Split, IsWhite, TrimEnd, SpelledAll;
    var s, text := TrimmedLine(l), CodeText(l.content);
    LineIsTrimmed(l);
    DeclarationPrefixes();
    HashIsBlack();
    assert "proc."[0] == 'p' && "export."[0] == 'e' && "export."[1] == 'x';
    match l.content
    case Begin =>
      assert text <= s && s[0] == 'b';
    case Finish =>
      assert text <= s && s[0] == 'e' && s[1] == 'n';
    case Instructions(words) =>
      if words == [] {
        NoInstructions();
        assert s != "" ==> s[0] == '#';
      } else {
        FirstTokenBreaks(l);
        var w := Spelled(words[0]);
        PrefixBeforeBreak(w, s, "proc.");
        PrefixBeforeBreak(w, s, "export.");
      }
  }

  lemma NoInstructions()
    ensures CodeText(Instructions([])) == ""
  {
  }

  lemma FirstTokenBreaks(l: SourceLine)
    requires IsLine(l) && l.content.Instructions? && l.content.words != []
    ensures var w, s := Spelled(l.content.words[0]), TrimmedLine(l);
            w <= s && (w == s || IsWhite(s[|w|]) || s[|w|] == '#')
  {
    hide TrimEnd, Spelled;
    var words, s := l.content.words, TrimmedLine(l);
    LineIsTrimmed(l);
    SpelledTokens(words);
    var tokens := SpelledAll(words);
    SpacedEnds(tokens);
    var w, text := tokens[0], Spaced(tokens);
    assert text <= s;
    assert |tokens| > 1 ==> text[|w|] == (w + " ")[|w|] == ' ';
    assert |tokens| == 1 ==> text == w;
    assert IsWhite(' ');
    if |tokens| == 1 && l.comment != "" {
      assert s == w + l.gap + TrimEnd(l.comment);
      assert l.gap != "" ==> s[|w|] == l.gap[0];
    }
  }

  lemma LineDeclares(l: SourceLine)
    requires IsLine(l)
    ensures DeclarationOf(StripReturn(LineText(l))) == DeclarationIs(l)
  {
    hide Trim, CodeText, LineText, DeclarationOfTrimmed, TrimEnd, IsWhite;
    TrimIgnoresReturn(LineText(l));
    LineIsTrimmed(l);
    if l.content.Header? {
      var c := l.content;
      HeaderDeclares(c.exported, c.name, c.locals);
      if l.comment != "" {
        CommentedHeader(c.exported, c.name, c.locals, l.gap, TrimEnd(l.comment));
        HeaderPieces(c.exported, c.name, c.locals);
      }
    } else {
      OtherDeclaresNothing(l);
    }
  }

  function Texts(lines: seq<SourceLine>): seq<string> {
    Stripped(LineTexts(lines))
  }

  lemma TableSnoc(lines: seq<SourceLine>, l: SourceLine, table: map<string, nat>)
    requires IsLine(l) && IsLocalTable(Texts(lines), table)
    ensures var d := DeclarationIs(l);
            IsLocalTable(Texts(lines + [l]), if d.None? then table else table[d.value.name := d.value.locals])
  {
    hide IsLocalTable, DeclarationOf, LineText, IsLine, StripReturn;
    TextsSnoc(lines, l);
    StrippedSnoc(LineTexts(lines), LineText(l));
    LineDeclares(l);
    TableNext(Texts(lines), StripReturn(LineText(l)), table);
  }

  lemma {:induction false} CodeDeclaresNothing(lines: seq<SourceLine>, code: seq<SourceLine>, table: map<string, nat>)
    requires IsLocalTable(Texts(lines), table) && forall l :: l in code ==> IsOutsideLine(l)
    ensures IsLocalTable(Texts(lines + code), table)
    decreases |code|
  {
    hide IsLocalTable, Texts, IsLine;
    if code == [] {
      assert lines + code == lines;
    } else {
      var before, last := Front(code), Last(code);
      assert last in code && forall l :: l in before ==> l in code;
      CodeDeclaresNothing(lines, before, table);
      TableSnoc(lines + before, last, table);
      assert lines + code == lines + before + [last];
    }
  }

  lemma {:induction false} LocalsOfBodies(bodies: seq<Body>)
    requires AreBodies(bodies)
    ensures IsLocalTable(Texts(AllLines(bodies)), WrittenLocals(bodies))
    decreases |bodies|
  {
    hide IsLocalTable, Texts, IsLine, DeclarationIs;
    if bodies == [] {
      EmptyTexts();
    } else {
      var before, b := Front(bodies), Last(bodies);
      assert b in bodies && forall x :: x in before ==> x in bodies;
      LocalsOfBodies(before);
      var lines, table := AllLines(before), WrittenLocals(bodies);
      CodeDeclaresNothing(lines, b.before, WrittenLocals(before));
      TableSnoc(lines + b.before, b.header, WrittenLocals(before));
      CodeDeclaresNothing(lines + b.before + [b.header], b.code, table);
      TableSnoc(lines + b.before + [b.header] + b.code, b.finish, table);
      FinishDeclaresNothing(b);
      assert AllLines(bodies) == lines + b.before + [b.header] + b.code + [b.finish];
    }
  }

  lemma FinishDeclaresNothing(b: Body)
    requires IsBody(b)
    ensures DeclarationIs(b.finish) == None
  {
  }

  lemma EmptyTexts()
    ensures IsLocalTable(Texts([]), map[])
  {
    EmptyTable();
  }

  /** The table parsed from a written program lists exactly the counts it declares. */
  lemma LocalsAreWritten(bodies: seq<Body>, table: map<string, nat>)
    requires AreBodies(bodies) && IsLocalTable(Lines(Rendered(bodies)), table)
    ensures table == WrittenLocals(bodies)
  {
    hide IsLocalTable, Lines, Terminated, LineTexts, AllLines, WrittenLocals, IsLine, Stripped, AreBodies;
    BodiesAreLines(bodies);
    TextForms(AllLines(bodies));
    LinesOfTerminated(LineTexts(AllLines(bodies)));
    LocalsOfBodies(bodies);
    LocalTableUnique(Lines(Rendered(bodies)), table, WrittenLocals(bodies));
  }

  // ----- A program whose graph misses a call -----

  function Plainly(c: Content): SourceLine { SourceLine("", c, "", "") }

  function Runs1(w: Word): SourceLine { Plainly(Instructions([w])) }

  const EXEC_A := Invoke(Exec, "", "a")
  const EXEC_B := Invoke(Exec, "", "b")

  /** A procedure that calls `b` after a nested block, and a begin block that calls both. */
  const NESTED_SOURCE :=
    "proc.a.0" + "\n" + "if.true" + "\n" + "end" + "\n" + "exec.b" + "\n" + "end" + "\n"
    + "begin" + "\n" + "exec.a exec.b" + "\n" + "end" + "\n"

  const NESTED_PROC := Body([], Plainly(Header(false, "a", 0)), [Runs1(Plain("if.true"))], Plainly(Finish))
  const NESTED_BEGIN :=
    Body([Runs1(EXEC_B), Plainly(Finish)], Plainly(Begin), [Plainly(Instructions([EXEC_A, EXEC_B]))], Plainly(Finish))

  lemma PlainText(c: Content)
    ensures LineText(Plainly(c)) == CodeText(c)
  {
    assert "" + CodeText(c) + "" + "" == CodeText(c);
  }

  lemma OneWord(w: Word)
    ensures CodeText(Instructions([w])) == Spelled(w)
  {
    assert [w][1..] == [] && SpelledAll([]) == [];
    assert SpelledAll([w]) == [Spelled(w)];
  }

  lemma NestedCodes()
    ensures CodeText(Header(false, "a", 0)) == "proc.a.0"
    ensures Spelled(EXEC_A) == "exec.a" && Spelled(EXEC_B) == "exec.b" && Spelled(Plain("if.true")) == "if.true"
    ensures CodeText(Instructions([EXEC_A, EXEC_B])) == "exec.a exec.b"
  {
    assert Decimal(0) == "0";
    assert "proc." + "a" + "." + "0" == "proc.a.0";
    assert "exec." + "a" == "exec.a" && "exec." + "b" == "exec.b";
    var words := [EXEC_A, EXEC_B];
    assert words[1..] == [EXEC_B] && [EXEC_B][1..] == [];
    assert SpelledAll([EXEC_B]) == ["exec.b"] + [];
    assert SpelledAll(words) == ["exec.a"] + ["exec.b"];
    assert SpelledAll(words) == ["exec.a", "exec.b"] && ["exec.a", "exec.b"][1..] == ["exec.b"];
    assert Spaced(["exec.b"]) == "exec.b";
    assert Spaced(["exec.a", "exec.b"]) == "exec.a" + " " + "exec.b";
    assert "exec.a" + " " + "exec.b" == "exec.a exec.b";
  }

  lemma NestedLines()
    ensures AllLines([NESTED_PROC, NESTED_BEGIN]) ==
            [Plainly(Header(false, "a", 0)), Runs1(Plain("if.true")), Plainly(Finish), Runs1(EXEC_B), Plainly(Finish),
             Plainly(Begin), Plainly(Instructions([EXEC_A, EXEC_B])), Plainly(Finish)]
  {
    assert Front([NESTED_PROC, NESTED_BEGIN]) == [NESTED_PROC] && Front([NESTED_PROC]) == [];
    assert AllLines([NESTED_PROC]) == [] + BodyLines(NESTED_PROC);
  }

  lemma TextsOfEight(a: SourceLine, b: SourceLine, c: SourceLine, d: SourceLine, e: SourceLine, f: SourceLine, g: SourceLine, h: SourceLine)
    ensures LineTexts([a, b, c, d, e, f, g, h]) ==
            [LineText(a), LineText(b), LineText(c), LineText(d), LineText(e), LineText(f), LineText(g), LineText(h)]
  {
    hide LineText;
    TextsSnoc([], a);
    TextsSnoc([a], b);
    TextsSnoc([a, b], c);
    TextsSnoc([a, b, c], d);
    TextsSnoc([a, b, c, d], e);
    TextsSnoc([a, b, c, d, e], f);
    TextsSnoc([a, b, c, d, e, f], g);
    TextsSnoc([a, b, c, d, e, f, g], h);
    assert [] + [a] == [a] && [a] + [b] == [a, b] && [a, b] + [c] == [a, b, c] && [a, b, c] + [d] == [a, b, c, d];
    assert [a, b, c, d] + [e] == [a, b, c, d, e] && [a, b, c, d, e] + [f] == [a, b, c, d, e, f];
    assert [a, b, c, d, e, f] + [g] == [a, b, c, d, e, f, g] && [a, b, c, d, e, f, g] + [h] == [a, b, c, d, e, f, g, h];
    assert LineTexts([]) == [];
  }

  lemma {:induction false} TerminatedSnoc(lines: seq<string>, l: string)
    ensures Terminated(lines + [l]) == Terminated(lines) + (l + "\n")
  {
    TerminatedConcat(lines, [l]);
    assert [l][1..] == [];
    assert Terminated([l]) == l + "\n" + "";
  }

  lemma TerminatedEight(a: string, b: string, c: string, d: string, e: string, f: string, g: string, h: string)
    ensures Terminated([a, b, c, d, e, f, g, h]) ==
            a + "\n" + b + "\n" + c + "\n" + d + "\n" + e + "\n" + f + "\n" + g + "\n" + h + "\n"
  {
    hide Terminated;
    TerminatedFour(a, b, c, d);
    TerminatedFour(e, f, g, h);
    TerminatedConcat([a, b, c, d], [e, f, g, h]);
    assert [a, b, c, d] + [e, f, g, h] == [a, b, c, d, e, f, g, h];
  }

  lemma TerminatedFour(a: string, b: string, c: string, d: string)
    ensures Terminated([a, b, c, d]) == a + "\n" + b + "\n" + c + "\n" + d + "\n"
  {
    assert [a, b, c, d][1..] == [b, c, d] && [b, c, d][1..] == [c, d] && [c, d][1..] == [d] && [d][1..] == [];
    assert Terminated([d]) == d + "\n" + "";
    assert Terminated([c, d]) == c + "\n" + (d + "\n");
    assert Terminated([b, c, d]) == b + "\n" + (c + "\n" + d + "\n");
  }

  /** That program is written as that text. */
  lemma NestedText()
    ensures Rendered([NESTED_PROC, NESTED_BEGIN]) == NESTED_SOURCE
  {
    hide LineTexts, LineText, AllLines, CodeText, Terminated, Spelled;
    NestedLines();
    NestedCodes();
    OneWord(Plain("if.true"));
    OneWord(EXEC_B);
    var end := Plainly(Finish);
    TextsOfEight(Plainly(Header(false, "a", 0)), Runs1(Plain("if.true")), end, Runs1(EXEC_B), end,
                 Plainly(Begin), Plainly(Instructions([EXEC_A, EXEC_B])), end);
    PlainText(Header(false, "a", 0));
    PlainText(Instructions([Plain("if.true")]));
    PlainText(Finish);
    PlainText(Instructions([EXEC_B]));
    PlainText(Begin);
    PlainText(Instructions([EXEC_A, EXEC_B]));
    FixedCodes();
    TerminatedEight("proc.a.0", "if.true", "end", "exec.b", "end", "begin", "exec.a exec.b", "end");
  }

  lemma FixedCodes()
    ensures CodeText(Begin) == "begin" && CodeText(Finish) == "end"
  {
  }

  lemma NestedWords()
    ensures IsWord(EXEC_A) && IsWord(EXEC_B) && IsWord(Plain("if.true"))
  {
    NestedCodes();
    assert ':' !in "a" && ':' !in "b";
    assert "if.true"[0] == 'i' && "exec."[0] == 'e' && "call."[0] == 'c' && "syscall."[0] == 's';
  }

  lemma WordLine(words: seq<Word>)
    requires words != [] && forall w :: w in words ==> IsWord(w)
    requires !HasPrefix(Spelled(words[0]), "proc.") && !HasPrefix(Spelled(words[0]), "export.")
    requires |words| == 1 ==> Spelled(words[0]) != "begin" && Spelled(words[0]) != "end"
    ensures IsCodeLine(Plainly(Instructions(words)))
  {
  }

  lemma NestedIsWritten()
    ensures AreBodies([NESTED_PROC, NESTED_BEGIN])
  {
    hide IsWord, Spelled, IsCodeLine, IsLine;
    NestedWords();
    NestedCodes();
    assert "if.true"[0] == 'i' && "proc."[0] == 'p' && "exec.a"[2] == 'e' && "exec.b"[2] == 'e' && "export."[2] == 'p';
    assert "exec.a"[0] == 'e' && "exec.b"[0] == 'e' && "exec.b"[1] == 'x' && "end"[1] == 'n' && "begin"[0] == 'b' && "end"[0] == 'e' && "export."[0] == 'e';
    WordLine([EXEC_A, EXEC_B]);
    WordLine([EXEC_B]);
    WordLine([Plain("if.true")]);
    PlainLines();
  }

  lemma PlainLines()
    ensures IsLine(Plainly(Header(false, "a", 0))) && IsLine(Plainly(Begin)) && IsLine(Plainly(Finish))
    ensures forall words :: IsCodeLine(Plainly(Instructions(words))) ==> IsLine(Plainly(Instructions(words)))
  {
  }

  /** The graph scanned from the text: `a` seems to call nothing. */
  lemma NestedGraph()
    ensures var graph := ScannedGraph(NESTED_SOURCE);
            Invokes(graph, "#main", "a") && Invokes(graph, "#main", "b") && !Invokes(graph, "a", "b")
  {
    hide Rendered, AreBodies, ScannedGraph, Names, Uses;
    NestedText();
    NestedIsWritten();
    GraphIsWritten([NESTED_PROC, NESTED_BEGIN]);
    NestedUses();
  }

  lemma NestedUses()
    ensures var graph := GraphOf(Names([NESTED_PROC, NESTED_BEGIN]), Uses([NESTED_PROC, NESTED_BEGIN]));
            Invokes(graph, "#main", "a") && Invokes(graph, "#main", "b") && !Invokes(graph, "a", "b")
  {
    hide CodeUses, BodyName, GraphOf;
    var bodies := [NESTED_PROC, NESTED_BEGIN];
    assert Front(bodies) == [NESTED_PROC] && Front([NESTED_PROC]) == [];
    NestedNames();
    ProcUses();
    BeginUses();
    assert Uses([NESTED_PROC]) == [] + [] == [];
    assert Uses(bodies) == [] + [CallSite("#main", "a", Exec), CallSite("#main", "b", Exec)];
    TwoSites(Names(bodies), Uses(bodies));
  }

  lemma NestedNames()
    ensures BodyName(NESTED_PROC) == "a" && BodyName(NESTED_BEGIN) == "#main"
    ensures "#main" in Names([NESTED_PROC, NESTED_BEGIN])
  {
    assert NESTED_BEGIN in [NESTED_PROC, NESTED_BEGIN];
  }

  lemma TwoSites(names: set<string>, sites: seq<CallSite>)
    requires "#main" in names && sites == [CallSite("#main", "a", Exec), CallSite("#main", "b", Exec)]
    ensures var graph := GraphOf(names, sites);
            Invokes(graph, "#main", "a") && Invokes(graph, "#main", "b") && !Invokes(graph, "a", "b")
  {
    assert sites[0] in sites && sites[1] in sites;
    assert "a" != "#main" by { assert "a"[0] != "#main"[0]; }
  }

  lemma ProcUses()
    ensures CodeUses("a", NESTED_PROC.code) == []
  {
    assert Front(NESTED_PROC.code) == [];
    assert [Plain("if.true")][1..] == [];
  }

  lemma BeginUses()
    ensures CodeUses("#main", NESTED_BEGIN.code) == [CallSite("#main", "a", Exec), CallSite("#main", "b", Exec)]
  {
    assert Front(NESTED_BEGIN.code) == [];
    assert [EXEC_A, EXEC_B][1..] == [EXEC_B] && [EXEC_B][1..] == [];
    var b := CallSite("#main", "b", Exec);
    assert WordUses("#main", [EXEC_B]) == [b] + [];
    assert WordUses("#main", [EXEC_A, EXEC_B]) == [CallSite("#main", "a", Exec)] + [b];
  }
}
