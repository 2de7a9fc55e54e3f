/** The inline kernel module: a `# kernel_module:` line and the `# > ` lines after it. */
module KernelModule {
  import opened Common
  import opened Text

  predicate IsHeader(line: string) {
    var trimmed := Trim(line);
    HasPrefix(trimmed, "#") && Trim(trimmed[1..]) == "kernel_module:"
  }

  /** The code a `# > ` line carries: one space after the marker is dropped. */
  function Continuation(line: string): Option<string> {
    var trimmed := Trim(line);
    if !HasPrefix(trimmed, "#") then None else Marked(TrimStart(trimmed[1..]))
  }

  function Marked(body: string): Option<string> {
    if !HasPrefix(body, ">") then None
    else if HasPrefix(body[1..], " ") then Some(body[2..])
    else Some(body[1..])
  }

  /** Add a line of code; a line break only follows code already present. */
  function Append(code: string, content: string): string {
    (if code == "" then code else code + "\n") + content
  }

  /** The code of a block and the lines after it; the line that ends a block is consumed. */
  function Block(code: string, lines: seq<string>): (string, seq<string>)
    decreases |lines|
  {
    if lines == [] then (code, [])
    else
      match Continuation(lines[0])
      case None => (code, lines[1..])
      case Some(content) => Block(Append(code, content), lines[1..])
  }

  lemma {:induction false} BlockConsumes(code: string, lines: seq<string>)
    ensures |Block(code, lines).1| <= |lines|
    decreases |lines|
  {
    if lines != [] && Continuation(lines[0]).Some? {
      BlockConsumes(Append(code, Continuation(lines[0]).value), lines[1..]);
    }
  }

  /** The first block that carries any code. */
  function FindKernel(lines: seq<string>): Option<string>
    decreases |lines|
  {
    if lines == [] then None
    else if !IsHeader(lines[0]) then FindKernel(lines[1..])
    else
      BlockConsumes("", lines[1..]);
      var (code, rest) := Block("", lines[1..]);
      if code != "" then Some(code) else FindKernel(rest)
  }

  /** Collect one block from line `start` on. */
  method CollectBlock(lines: seq<string>, start: nat) returns (code: string, next: nat)
    requires start <= |lines|
    ensures start <= next <= |lines| && Block("", lines[start..]) == (code, lines[next..])
  {
    hide Continuation, Append;
    code, next := "", start;
    while next < |lines|
      invariant start <= next <= |lines|
      invariant Block("", lines[start..]) == Block(code, lines[next..])
    {
      assert lines[next..][1..] == lines[next + 1..];
      var content := Continuation(lines[next]);
      next := next + 1;
      if content.None? {
        return;
      }
      code := Append(code, content.value);
    }
  }

  method ParseKernelModule(source: string) returns (kernel: Option<string>)
    ensures kernel == FindKernel(Lines(source))
  {
    hide IsHeader, Block, Lines;
    var lines, i := Lines(source), 0;
    while i < |lines|
      invariant 0 <= i <= |lines|
      invariant FindKernel(lines) == FindKernel(lines[i..])
    {
      assert lines[i..][1..] == lines[i + 1..];
      if IsHeader(lines[i]) {
        var code, next := CollectBlock(lines, i + 1);
        if code != "" {
          return Some(code);
        }
        i := next;
      } else {
        i := i + 1;
      }
    }
    return None;
  }

  // ----- Round trip -----

  function JoinLines(lines: seq<string>): string {
    if lines == [] then "" else if |lines| == 1 then lines[0] else lines[0] + "\n" + JoinLines(lines[1..])
  }

  function CommentLines(lines: seq<string>): seq<string> {
    if lines == [] then [] else ["# > " + lines[0]] + CommentLines(lines[1..])
  }

  const HEADER := "# kernel_module:"

  /** A kernel text as a block of comment lines. */
  function RenderKernel(text: string): string {
    HEADER + "\n" + JoinLines(CommentLines(Split(text, '\n')))
  }

  /** The first line has code, and no line ends in white space. */
  predicate Clean(lines: seq<string>) {
    lines != [] && lines[0] != "" && NoTrailing(lines)
  }

  predicate NoTrailing(lines: seq<string>) {
    forall l :: l in lines ==> TrimEnd(l) == l
  }

  function TrimEnds(lines: seq<string>): seq<string> {
    if lines == [] then [] else [TrimEnd(lines[0])] + TrimEnds(lines[1..])
  }

  function Gather(code: string, contents: seq<string>): string
    decreases |contents|
  {
    if contents == [] then code else Gather(Append(code, contents[0]), contents[1..])
  }

  lemma {:induction false} MarkerTrim(line: string)
    ensures TrimEnd("# > " + line) == if TrimEnd(line) == "" then "# >" else "# > " + TrimEnd(line)
  {
    if line == "" {
      assert "# > " + line == "# > " && Front("# > ") == "# >";
      assert !IsWhite(Last("# >"));
    } else if IsWhite(Last(line)) {
      assert Front("# > " + line) == "# > " + Front(line);
      MarkerTrim(Front(line));
    }
  }

  /** A comment line carries its code, less trailing white space; indentation stays. */
  lemma {:induction false} ContinuationOfComment(line: string)
    ensures Continuation("# > " + line) == Some(TrimEnd(line))
  {
    hide TrimEnd, TrimStart, IsWhite, HasPrefix, Marked;
    MarkerTrim(line);
    MarkerStart("# > " + line);
    var code := TrimEnd(line);
    var rest := if code == "" then "" else " " + code;
    assert Trim("# > " + line) == "# >" + rest by {
      assert "# > " + code == "# >" + (" " + code);
      assert "# >" + "" == "# >";
    }
    MarkerBody(rest);
    MarkedCode(code);
  }

  lemma MarkedCode(code: string)
    ensures Marked(">" + if code == "" then "" else " " + code) == Some(code)
  {
    if code != "" {
      assert (">" + (" " + code))[1..] == " " + code;
      assert (">" + (" " + code))[2..] == code;
    }
  }

  lemma MarkerStart(s: string)
    requires s != [] && s[0] == '#'
    ensures TrimStart(s) == s
  {
  }

  lemma MarkerBody(rest: string)
    ensures ("# >" + rest)[1..] == " >" + rest && TrimStart(" >" + rest) == ">" + rest
    ensures (">" + rest)[1..] == rest
    ensures rest != "" ==> (">" + rest)[2..] == rest[1..]
    ensures HasPrefix("# >" + rest, "#") && HasPrefix(">" + rest, ">")
  {
    assert (" >" + rest)[1..] == ">" + rest;
    assert IsWhite(' ') && !IsWhite('>');
  }

  lemma ContinuationIgnoresReturn(line: string)
    ensures Continuation(StripReturn(line)) == Continuation(line)
  {
    TrimIgnoresReturn(line);
  }

  lemma {:induction false} BlockOfComments(code: string, lines: seq<string>)
    requires lines != [] && forall l :: l in lines ==> '\n' !in l
    ensures Block(code, Lines(JoinLines(CommentLines(lines)))) == (Gather(code, TrimEnds(lines)), [])
    decreases |lines|
  {
    hide Continuation, TrimEnd, Append, Lines, StripReturn;
    var first, rest := "# > " + lines[0], lines[1..];
    assert lines[0] in lines;
    assert '\n' !in first;
    ContinuationOfComment(lines[0]);
    ContinuationIgnoresReturn(first);
    if rest == [] {
      assert CommentLines(lines) == [first];
      LinesLast(first);
      assert [first][1..] == [];
    } else {
      var more := JoinLines(CommentLines(rest));
      assert CommentLines(lines)[1..] == CommentLines(rest);
      LinesHead(first, more);
      BlockOfComments(Append(code, TrimEnd(lines[0])), rest);
      assert ([StripReturn(first)] + Lines(more))[1..] == Lines(more);
    }
  }

  lemma HeaderIsHeader()
    ensures IsHeader(HEADER) && StripReturn(HEADER) == HEADER && '\n' !in HEADER
  {
    hide Trim;
    var name := "kernel_module:";
    assert HEADER == "# " + name && HEADER[1..] == " " + name;
    TrimPadded("", HEADER, "");
    assert "" + HEADER + "" == HEADER;
    TrimPadded(" ", name, "");
    assert " " + name + "" == HEADER[1..];
  }

  /** What parsing a rendered kernel gives, for any text. */
  lemma ParseOfRendered(lines: seq<string>)
    requires lines != [] && forall l :: l in lines ==> '\n' !in l
    ensures var code := Gather("", TrimEnds(lines));
            FindKernel(Lines(HEADER + "\n" + JoinLines(CommentLines(lines)))) == if code != "" then Some(code) else None
  {
    hide IsHeader, Block, Lines, StripReturn, Gather, TrimEnds, JoinLines, CommentLines;
    var body := JoinLines(CommentLines(lines));
    HeaderIsHeader();
    LinesHead(HEADER, body);
    BlockOfComments("", lines);
    assert ([HEADER] + Lines(body))[1..] == Lines(body);
  }

  // ----- Exactly which texts survive -----

  lemma {:induction false} GatherAfterCode(code: string, contents: seq<string>)
    requires code != ""
    ensures Gather(code, contents) == if contents == [] then code else code + "\n" + JoinLines(contents)
    decreases |contents|
  {
    if contents != [] {
      var first, rest := contents[0], contents[1..];
      GatherAfterCode(Append(code, first), rest);
      if rest != [] {
        assert (code + "\n" + first) + "\n" + JoinLines(rest) == code + "\n" + (first + "\n" + JoinLines(rest));
      }
    }
  }

  /** Gathering loses text exactly when it starts with an empty line. */
  lemma {:induction false} GatherLength(contents: seq<string>)
    requires contents != []
    ensures contents[0] != "" ==> Gather("", contents) == JoinLines(contents)
    ensures contents[0] == "" && |contents| > 1 ==> |Gather("", contents)| < |JoinLines(contents)|
    ensures contents == [""] ==> Gather("", contents) == ""
    ensures contents[0] != "" ==> JoinLines(contents) != ""
    decreases |contents|
  {
    var first, rest := contents[0], contents[1..];
    assert Append("", first) == first;
    if first != "" {
      GatherAfterCode(first, rest);
    } else if rest != [] {
      GatherLength(rest);
      assert rest[0] != "" || |rest| == 1 || |Gather("", rest)| < |JoinLines(rest)|;
      assert rest == [""] || |rest| > 1 || rest[0] != "";
    }
  }

  lemma TrimEndShorter(line: string)
    ensures |TrimEnd(line)| <= |line|
    ensures TrimEnd(line) != line ==> |TrimEnd(line)| < |line|
  {
    TrimEndPrefix(line);
    assert line[..|line|] == line;
  }

  lemma NoTrailingHead(line: string, rest: seq<string>)
    ensures NoTrailing([line] + rest) <==> TrimEnd(line) == line && NoTrailing(rest)
    ensures NoTrailing([])
  {
    assert forall l :: l in [line] + rest <==> l == line || l in rest;
  }

  /** Trimming line ends loses text exactly when some line ends in white space. */
  lemma {:induction false} TrimEndsLength(lines: seq<string>)
    ensures |TrimEnds(lines)| == |lines|
    ensures |JoinLines(TrimEnds(lines))| <= |JoinLines(lines)|
    ensures NoTrailing(lines) ==> TrimEnds(lines) == lines
    ensures !NoTrailing(lines) ==> |JoinLines(TrimEnds(lines))| < |JoinLines(lines)|
  {
    hide TrimEnd, NoTrailing;
    if lines != [] {
      var rest := lines[1..];
      TrimEndsLength(rest);
      TrimEndShorter(lines[0]);
      assert TrimEnds(lines)[1..] == TrimEnds(rest);
      assert lines == [lines[0]] + rest;
      NoTrailingHead(lines[0], rest);
    } else {
      assert NoTrailing([]) by { NoTrailingHead("", []); }
    }
  }

  lemma {:induction false} SplitPieces(text: string)
    ensures var pieces := Split(text, '\n');
            pieces != [] && JoinLines(pieces) == text && forall l :: l in pieces ==> '\n' !in l
    decreases |text|
  {
    IndexOfFacts(text, '\n');
    var i := IndexOf(text, '\n');
    if i < |text| {
      SplitPieces(text[i + 1..]);
      assert text == text[..i] + "\n" + text[i + 1..];
      assert Split(text, '\n')[1..] == Split(text[i + 1..], '\n');
    } else {
      assert text[..i] == text;
    }
  }

  /**
   A kernel text comes back from its rendering exactly when its first line is
   not empty and no line ends in white space; blank lines inside the text and
   indentation are kept.
   */
  lemma KernelRoundTrip(text: string)
    ensures FindKernel(Lines(RenderKernel(text))) == Some(text) <==> Clean(Split(text, '\n'))
  {
    hide FindKernel, Lines, Split, TrimEnds, CommentLines, Gather, JoinLines, NoTrailing;
    var lines := Split(text, '\n');
    SplitPieces(text);
    ParseOfRendered(lines);
    TrimEndsLength(lines);
    FirstTrimmed(lines);
    GatherLength(TrimEnds(lines));
  }

  lemma FirstTrimmed(lines: seq<string>)
    requires lines != []
    ensures TrimEnds(lines) != [] && (NoTrailing(lines) ==> TrimEnds(lines)[0] == lines[0])
    ensures TrimEnds(lines) == [""] || TrimEnds(lines)[0] != "" || |TrimEnds(lines)| > 1
    ensures JoinLines([""]) == ""
  {
    assert lines[0] in lines;
  }

  // ----- A block anywhere in a source -----

  lemma {:induction false} BlockThenOther(code: string, lines: seq<string>, after: seq<string>)
    requires after == [] || Continuation(after[0]) == None
    ensures Block(code, CommentLines(lines) + after) ==
            (Gather(code, TrimEnds(lines)), if after == [] then [] else after[1..])
    decreases |lines|
  {
    hide Continuation, TrimEnd, Append, StripReturn;
    if lines == [] {
      assert CommentLines(lines) + after == after;
    } else {
      ContinuationOfComment(lines[0]);
      BlockThenOther(Append(code, TrimEnd(lines[0])), lines[1..], after);
      assert (CommentLines(lines) + after)[1..] == CommentLines(lines[1..]) + after;
      assert TrimEnds(lines)[1..] == TrimEnds(lines[1..]);
    }
  }

  lemma {:induction false} FindSkips(before: seq<string>, rest: seq<string>)
    requires forall l :: l in before ==> !IsHeader(l)
    ensures FindKernel(before + rest) == FindKernel(rest)
  {
    hide IsHeader, Block;
    if before == [] {
      assert before + rest == rest;
    } else {
      assert before[0] in before && forall l :: l in before[1..] ==> l in before;
      FindSkips(before[1..], rest);
      assert (before + rest)[1..] == before[1..] + rest;
    }
  }

  lemma {:induction false} BlockIgnoresReturns(code: string, lines: seq<string>)
    ensures Block(code, Stripped(lines)) == (Block(code, lines).0, Stripped(Block(code, lines).1))
    decreases |lines|
  {
    hide Continuation, Append, StripReturn;
    if lines != [] {
      ContinuationIgnoresReturn(lines[0]);
      assert Stripped(lines)[1..] == Stripped(lines[1..]);
      if Continuation(lines[0]).Some? {
        BlockIgnoresReturns(Append(code, Continuation(lines[0]).value), lines[1..]);
      }
    }
  }

  lemma {:induction false} FindIgnoresReturns(lines: seq<string>)
    ensures FindKernel(Stripped(lines)) == FindKernel(lines)
    decreases |lines|
  {
    hide Block, StripReturn, Trim;
    if lines != [] {
      TrimIgnoresReturn(lines[0]);
      assert Stripped(lines)[1..] == Stripped(lines[1..]);
      BlockIgnoresReturns("", lines[1..]);
      BlockConsumes("", lines[1..]);
      FindIgnoresReturns(lines[1..]);
      FindIgnoresReturns(Block("", lines[1..]).1);
    }
  }

  lemma {:induction false} TerminatedIsJoined(lines: seq<string>)
    requires lines != []
    ensures Terminated(lines) == JoinLines(lines) + "\n"
  {
    if |lines| > 1 {
      TerminatedIsJoined(lines[1..]);
      assert lines[0] + "\n" + (JoinLines(lines[1..]) + "\n") == lines[0] + "\n" + JoinLines(lines[1..]) + "\n";
    }
  }

  lemma {:induction false} CommentsAreLines(lines: seq<string>)
    requires forall l :: l in lines ==> '\n' !in l
    ensures forall l :: l in CommentLines(lines) ==> '\n' !in l
    ensures lines != [] ==> CommentLines(lines) != []
  {
    if lines != [] {
      assert lines[0] in lines && forall l :: l in lines[1..] ==> l in lines;
      CommentsAreLines(lines[1..]);
    }
  }

  /** What a source is: other lines, a kernel block, and lines of which the first does not continue it. */
  ghost predicate SurroundsBlock(before: seq<string>, after: seq<string>) {
    && (forall l :: l in before ==>
          '\n' !in l && !(HasPrefix(Trim(l), "#") && Trim(Trim(l)[1..]) == "kernel_module:"))
    && (forall l :: l in after ==> '\n' !in l)
    && (after != [] ==> !(HasPrefix(Trim(after[0]), "#") && HasPrefix(TrimStart(Trim(after[0])[1..]), ">")))
  }

  /** The block is found wherever it stands, and ends where its comment lines end. */
  lemma {:induction false} KernelIsFoundAnywhere(before: seq<string>, text: string, after: seq<string>)
    requires SurroundsBlock(before, after) && Clean(Split(text, '\n'))
    ensures FindKernel(Lines(Terminated(before) + ("# kernel_module:\n" + JoinLines(CommentLines(Split(text, '\n'))) + "\n") + Terminated(after)))
            == Some(text)
  {
    hide *;
    var pieces := Split(text, '\n');
    SplitPieces(text);
    var lines := before + ([HEADER] + CommentLines(pieces)) + after;
    SourceIsLines(before, pieces, after);
    LinesOfTerminated(lines);
    FindIgnoresReturns(lines);
    FoundInLines(before, pieces, after);
  }

  lemma SourceIsLines(before: seq<string>, pieces: seq<string>, after: seq<string>)
    requires SurroundsBlock(before, after) && pieces != [] && forall l :: l in pieces ==> '\n' !in l
    ensures var lines := before + ([HEADER] + CommentLines(pieces)) + after;
            && Terminated(lines) ==
               Terminated(before) + ("# kernel_module:\n" + JoinLines(CommentLines(pieces)) + "\n") + Terminated(after)
            && forall l :: l in lines ==> '\n' !in l
  {
    hide Trim, TrimStart, CommentLines, Terminated, StripReturn, IsHeader, HasPrefix;
    var comments := CommentLines(pieces);
    CommentsAreLines(pieces);
    HeaderIsHeader();
    TerminatedConcat(before + ([HEADER] + comments), after);
    TerminatedConcat(before, [HEADER] + comments);
    TerminatedIsJoined([HEADER] + comments);
    HeadOfJoined(comments);
    var lines := before + ([HEADER] + comments) + after;
    forall l | l in lines ensures '\n' !in l {
      assert l in before || l == HEADER || l in comments || l in after;
    }
  }

  lemma HeadOfJoined(comments: seq<string>)
    requires comments != []
    ensures JoinLines([HEADER] + comments) + "\n" == "# kernel_module:\n" + JoinLines(comments) + "\n"
  {
    assert ([HEADER] + comments)[1..] == comments;
    assert HEADER + "\n" == "# kernel_module:\n";
  }

  lemma FoundInLines(before: seq<string>, pieces: seq<string>, after: seq<string>)
    requires SurroundsBlock(before, after) && Clean(pieces)
    ensures FindKernel(before + ([HEADER] + CommentLines(pieces)) + after) == Some(JoinLines(pieces))
  {
    hide Block, IsHeader, Continuation, Gather, TrimEnds, NoTrailing, CommentLines, JoinLines, SurroundsBlock;
    var comments := CommentLines(pieces);
    var rest := [HEADER] + (comments + after);
    NotHeaders(before, after);
    NoContinuation(before, after);
    assert before + ([HEADER] + comments) + after == before + rest;
    FindSkips(before, rest);
    HeaderIsHeader();
    assert rest[1..] == comments + after;
    BlockThenOther("", pieces, after);
    GathersBack(pieces);
  }

  lemma NotHeaders(before: seq<string>, after: seq<string>)
    requires SurroundsBlock(before, after)
    ensures forall l :: l in before ==> !IsHeader(l)
  {
    hide Trim;
  }

  lemma NoContinuation(before: seq<string>, after: seq<string>)
    requires SurroundsBlock(before, after)
    ensures after == [] || Continuation(after[0]) == None
  {
    hide Trim, TrimStart;
  }

  lemma GathersBack(pieces: seq<string>)
    requires Clean(pieces)
    ensures Gather("", TrimEnds(pieces)) == JoinLines(pieces) != ""
  {
    hide NoTrailing, Gather, JoinLines;
    TrimEndsLength(pieces);
    GatherLength(pieces);
  }

  /** A block without code is passed over together with the line that ends it, even if that is a header. */
  lemma EmptyBlockIsSkipped(ending: string, rest: seq<string>)
    requires !(HasPrefix(Trim(ending), "#") && HasPrefix(TrimStart(Trim(ending)[1..]), ">"))
    ensures FindKernel(["# kernel_module:", ending] + rest) == FindKernel(rest)
  {
    hide Trim, TrimStart, IsHeader;
    HeaderIsHeader();
    var lines := [HEADER, ending] + rest;
    assert lines[1..] == [ending] + rest && lines[1..][1..] == rest;
    assert Continuation(ending) == None;
  }
}
