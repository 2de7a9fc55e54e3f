/**
 The two scanners of MASM source: one collects the call graph, the other the
 kind of each call. Both are compared with a plain listing of the call sites.
 */
module SourceScan {
  import opened Common
  import opened Ancestry
  import opened CallInference
  import opened Text

  datatype CallKind = Exec | Call | SysCall

  /** One invocation in the source, inside the body that was open there. */
  datatype CallSite = CallSite(caller: string, callee: string, kind: CallKind)

  /** What a line does: nothing, open a body, close it, or run some tokens. */
  datatype LineForm = Blank | Opens(name: string) | Closes | Runs(tokens: seq<string>)

  // ----- Lines and tokens -----

  /** A line without its comment and outer white space. */
  function Code(line: string): string {
    var trimmed := Trim(line);
    Trim(trimmed[..IndexOf(trimmed, '#')])
  }

  function FormOf(line: string): LineForm {
    CodeForm(Code(line))
  }

  function CodeForm(code: string): LineForm {
    if code == "" then Blank
    else if HasPrefix(code, "proc.") || HasPrefix(code, "export.") then
      var pieces := Split(code, '.');
      if |pieces| > 1 then Opens(pieces[1]) else Blank
    else if code == "begin" then Opens(MAIN)
    else if code == "end" then Closes
    else Runs(Words(code))
  }

  function FormsOf(lines: seq<string>): seq<LineForm> {
    if lines == [] then [] else FormsOf(Front(lines)) + [FormOf(Last(lines))]
  }

  function Forms(source: string): seq<LineForm> {
    FormsOf(Lines(source))
  }

  /** The call a token makes, with the prefixes in the order the kind scanner tries them. */
  function TokenCall(caller: string, token: string): seq<CallSite> {
    if HasPrefix(token, "syscall.") then [CallSite(caller, BareName(token[8..]), SysCall)]
    else if HasPrefix(token, "call.") then [CallSite(caller, BareName(token[5..]), CallKind.Call)]
    else if HasPrefix(token, "exec.") then [CallSite(caller, BareName(token[5..]), Exec)]
    else []
  }

  // ----- The listing -----

  /** The body open after some lines: a line `end` closes it, however deep it is nested. */
  function BodyAfter(forms: seq<LineForm>): Option<string> {
    if forms == [] then None
    else
      match Last(forms)
      case Opens(name) => Some(name)
      case Closes => None
      case _ => BodyAfter(Front(forms))
  }

  function Bodies(forms: seq<LineForm>): set<string> {
    if forms == [] then {}
    else Bodies(Front(forms)) + (if Last(forms).Opens? then {Last(forms).name} else {})
  }

  function TokenCalls(caller: string, tokens: seq<string>): seq<CallSite> {
    if tokens == [] then [] else TokenCalls(caller, Front(tokens)) + TokenCall(caller, Last(tokens))
  }

  /** Every call site of the source, in order, with the body open there. */
  function CallSites(forms: seq<LineForm>): seq<CallSite> {
    if forms == [] then []
    else
      var body := BodyAfter(Front(forms));
      if body.Some? && Last(forms).Runs? then CallSites(Front(forms)) + TokenCalls(body.value, Last(forms).tokens)
      else CallSites(Front(forms))
  }

  // ----- What the scanners must return -----

  function CalleesOf(sites: seq<CallSite>, caller: string): set<string> {
    set s | s in sites && s.caller == caller :: s.callee
  }

  /** The call graph of a listing: each body with the procedures it invokes. */
  function GraphOf(bodies: set<string>, sites: seq<CallSite>): CallGraph {
    map b | b in bodies :: CalleesOf(sites, b)
  }

  /** The kind of the last call of `callee` in `caller`'s body. */
  function LastKind(sites: seq<CallSite>, caller: string, callee: string): Option<CallKind> {
    if sites == [] then None
    else if Last(sites).caller == caller && Last(sites).callee == callee then Some(Last(sites).kind)
    else LastKind(Front(sites), caller, callee)
  }

  ghost predicate IsKindGraph(bodies: set<string>, sites: seq<CallSite>, kinds: map<string, map<string, CallKind>>) {
    && kinds.Keys == bodies
    && forall b, c :: b in bodies ==>
         (if c in kinds[b] then Some(kinds[b][c]) else None) == LastKind(sites, b, c)
  }

  /** Every listed call site lies in a body the source opens. */
  ghost predicate Housed(bodies: set<string>, sites: seq<CallSite>) {
    forall s :: s in sites ==> s.caller in bodies
  }

  lemma {:induction false} OpenBodyIsListed(forms: seq<LineForm>)
    ensures BodyAfter(forms).Some? ==> BodyAfter(forms).value in Bodies(forms)
  {
    if forms != [] {
      OpenBodyIsListed(Front(forms));
    }
  }

  lemma {:induction false} TokenCallsCaller(caller: string, tokens: seq<string>)
    ensures forall s :: s in TokenCalls(caller, tokens) ==> s.caller == caller
  {
    if tokens != [] {
      TokenCallsCaller(caller, Front(tokens));
    }
  }

  lemma {:induction false} SitesAreHoused(forms: seq<LineForm>)
    ensures Housed(Bodies(forms), CallSites(forms))
  {
    if forms != [] {
      SitesAreHoused(Front(forms));
      OpenBodyIsListed(Front(forms));
      var body := BodyAfter(Front(forms));
      if body.Some? && Last(forms).Runs? {
        TokenCallsCaller(body.value, Last(forms).tokens);
      }
    }
  }

  lemma OneMoreForm(forms: seq<LineForm>, form: LineForm)
    ensures var body, more := BodyAfter(forms), forms + [form];
            && (body.Some? ==> body.value in Bodies(forms))
            && Housed(Bodies(forms), CallSites(forms))
            && BodyAfter(more) == (if form.Opens? then Some(form.name) else if form.Closes? then None else body)
            && Bodies(more) == (if form.Opens? then Bodies(forms) + {form.name} else Bodies(forms))
            && CallSites(more) == (if body.Some? && form.Runs? then CallSites(forms) + TokenCalls(body.value, form.tokens)
                                   else CallSites(forms))
  {
    assert Front(forms + [form]) == forms;
    SitesAreHoused(forms);
    OpenBodyIsListed(forms);
  }

  // ----- The call-graph scanner -----

  lemma GraphAddBody(bodies: set<string>, sites: seq<CallSite>, name: string)
    requires Housed(bodies, sites)
    ensures GraphOf(bodies + {name}, sites) ==
            if name in bodies then GraphOf(bodies, sites) else GraphOf(bodies, sites)[name := {}]
  {
    if name in bodies {
      assert bodies + {name} == bodies;
    } else {
      assert CalleesOf(sites, name) == {};
    }
  }

  lemma CalleesAddSite(sites: seq<CallSite>, site: CallSite, b: string)
    ensures CalleesOf(sites + [site], b) == if b == site.caller then CalleesOf(sites, b) + {site.callee} else CalleesOf(sites, b)
  {
    var more := sites + [site];
    assert site in more;
    forall c | c in CalleesOf(sites, b) ensures c in CalleesOf(more, b) {
      var s :| s in sites && s.caller == b && s.callee == c;
      assert s in more;
    }
  }

  lemma GraphAddSite(bodies: set<string>, sites: seq<CallSite>, site: CallSite)
    requires site.caller in bodies
    ensures GraphOf(bodies, sites + [site]) ==
            GraphOf(bodies, sites)[site.caller := GraphOf(bodies, sites)[site.caller] + {site.callee}]
  {
    forall b | b in bodies
      ensures GraphOf(bodies, sites + [site])[b] ==
              if b == site.caller then GraphOf(bodies, sites)[b] + {site.callee} else GraphOf(bodies, sites)[b]
    {
      CalleesAddSite(sites, site, b);
    }
  }

  method ScanTokens(graph: CallGraph, caller: string, tokens: seq<string>, ghost bodies: set<string>, ghost sites: seq<CallSite>)
    returns (graph': CallGraph)
    requires graph == GraphOf(bodies, sites) && caller in bodies
    ensures graph' == GraphOf(bodies, sites + TokenCalls(caller, tokens))
  {
    graph' := graph;
    assert sites + TokenCalls(caller, tokens[..0]) == sites;
    for i := 0 to |tokens|
      invariant graph' == GraphOf(bodies, sites + TokenCalls(caller, tokens[..i]))
    {
      var token := tokens[i];
      var callee: Option<string> := None;
      if HasPrefix(token, "exec.") {
        callee := Some(token[5..]);
      } else if HasPrefix(token, "call.") {
        callee := Some(token[5..]);
      } else if HasPrefix(token, "syscall.") {
        callee := Some(token[8..]);
      }
      assert Front(tokens[..i + 1]) == tokens[..i];
      PrefixesDiffer(caller, token, callee);
      ghost var before := sites + TokenCalls(caller, tokens[..i]);
      assert sites + TokenCalls(caller, tokens[..i + 1]) == before + TokenCall(caller, token);
      if callee.Some? {
        var bare := BareName(callee.value);
        GraphAddSite(bodies, before, TokenCall(caller, token)[0]);
        graph' := graph'[caller := graph'[caller] + {bare}];
      } else {
        assert before + [] == before;
      }
    }
    assert tokens[..|tokens|] == tokens;
  }

  /** The order in which the prefixes are tried does not matter: at most one fits. */
  lemma PrefixesDiffer(caller: string, token: string, callee: Option<string>)
    requires callee == if HasPrefix(token, "exec.") then Some(token[5..])
                       else if HasPrefix(token, "call.") then Some(token[5..])
                       else if HasPrefix(token, "syscall.") then Some(token[8..])
                       else None
    ensures callee.Some? <==> TokenCall(caller, token) != []
    ensures callee.Some? ==> |TokenCall(caller, token)| == 1 && TokenCall(caller, token)[0].caller == caller
                             && TokenCall(caller, token)[0].callee == BareName(callee.value)
  {
    assert HasPrefix(token, "exec.") ==> token[0] == 'e';
    assert HasPrefix(token, "call.") ==> token[0] == 'c';
    assert HasPrefix(token, "syscall.") ==> token[0] == 's';
  }

  method GraphLine(graph: CallGraph, current: Option<string>, form: LineForm, ghost forms: seq<LineForm>)
    returns (graph': CallGraph, current': Option<string>)
    requires current == BodyAfter(forms) && graph == GraphOf(Bodies(forms), CallSites(forms))
    ensures current' == BodyAfter(forms + [form]) && graph' == GraphOf(Bodies(forms + [form]), CallSites(forms + [form]))
  {
    OneMoreForm(forms, form);
    graph', current' := graph, current;
    match form
    case Opens(name) =>
      current' := Some(name);
      GraphAddBody(Bodies(forms), CallSites(forms), name);
      if name !in graph {
        graph' := graph[name := {}];
      }
    case Closes =>
      current' := None;
    case Runs(tokens) =>
      if current.Some? {
        graph' := ScanTokens(graph, current.value, tokens, Bodies(forms), CallSites(forms));
      }
    case Blank =>
  }

  method GraphLines(forms: seq<LineForm>) returns (graph: CallGraph)
    ensures graph == GraphOf(Bodies(forms), CallSites(forms))
  {
    graph := map[];
    var current: Option<string> := None;
    for i := 0 to |forms|
      invariant current == BodyAfter(forms[..i])
      invariant graph == GraphOf(Bodies(forms[..i]), CallSites(forms[..i]))
    {
      graph, current := GraphLine(graph, current, forms[i], forms[..i]);
      assert forms[..i + 1] == forms[..i] + [forms[i]];
    }
    assert forms[..|forms|] == forms;
  }

  /** The call graph of a source. */
  function ScannedGraph(source: string): CallGraph {
    GraphOf(Bodies(Forms(source)), CallSites(Forms(source)))
  }

  /** The callees of a source with their kinds. */
  ghost predicate IsScannedKinds(source: string, kinds: map<string, map<string, CallKind>>) {
    IsKindGraph(Bodies(Forms(source)), CallSites(Forms(source)), kinds)
  }

  method ParseCallGraph(source: string) returns (graph: CallGraph)
    ensures graph == ScannedGraph(source)
  {
    graph := GraphLines(Forms(source));
  }

  // ----- The call-kind scanner -----

  lemma KindsAddBody(bodies: set<string>, sites: seq<CallSite>, kinds: map<string, map<string, CallKind>>, name: string)
    requires Housed(bodies, sites) && IsKindGraph(bodies, sites, kinds)
    ensures IsKindGraph(bodies + {name}, sites, if name in kinds then kinds else kinds[name := map[]])
  {
    if name in bodies {
      assert bodies + {name} == bodies;
    } else {
      forall c ensures LastKind(sites, name, c) == None { NoKindOutside(bodies, sites, name, c); }
    }
  }

  lemma {:induction false} NoKindOutside(bodies: set<string>, sites: seq<CallSite>, name: string, c: string)
    requires Housed(bodies, sites) && name !in bodies
    ensures LastKind(sites, name, c) == None
  {
    if sites != [] {
      assert Last(sites) in sites;
      NoKindOutside(bodies, Front(sites), name, c);
    }
  }

  lemma KindsAddSite(bodies: set<string>, sites: seq<CallSite>, kinds: map<string, map<string, CallKind>>, site: CallSite)
    requires IsKindGraph(bodies, sites, kinds) && site.caller in bodies
    ensures IsKindGraph(bodies, sites + [site], kinds[site.caller := kinds[site.caller][site.callee := site.kind]])
  {
    assert Front(sites + [site]) == sites;
  }

  lemma OneTokenCall(caller: string, token: string)
    ensures var found := TokenCall(caller, token);
            |found| <= 1 && (found != [] ==> found == [found[0]] && found[0].caller == caller)
  {
  }

  /** The unwrap of the open body's entry cannot fail. */
  lemma BodyIsKey(bodies: set<string>, sites: seq<CallSite>, kinds: map<string, map<string, CallKind>>, caller: string)
    requires IsKindGraph(bodies, sites, kinds) && caller in bodies
    ensures caller in kinds
  {
  }

  method ScanKinds(kinds: map<string, map<string, CallKind>>, caller: string, tokens: seq<string>,
                   ghost bodies: set<string>, ghost sites: seq<CallSite>)
    returns (kinds': map<string, map<string, CallKind>>)
    requires IsKindGraph(bodies, sites, kinds) && caller in bodies
    ensures IsKindGraph(bodies, sites + TokenCalls(caller, tokens), kinds')
  {
    hide TokenCall, IsKindGraph;
    kinds' := kinds;
    assert sites + TokenCalls(caller, tokens[..0]) == sites;
    for i := 0 to |tokens|
      invariant IsKindGraph(bodies, sites + TokenCalls(caller, tokens[..i]), kinds')
    {
      var found := TokenCall(caller, tokens[i]);
      assert Front(tokens[..i + 1]) == tokens[..i];
      ghost var before := sites + TokenCalls(caller, tokens[..i]);
      assert sites + TokenCalls(caller, tokens[..i + 1]) == before + found;
      if found != [] {
        OneTokenCall(caller, tokens[i]);
        BodyIsKey(bodies, before, kinds', caller);
        KindsAddSite(bodies, before, kinds', found[0]);
        kinds' := kinds'[caller := kinds'[caller][found[0].callee := found[0].kind]];
      } else {
        assert before + [] == before;
      }
    }
    assert tokens[..|tokens|] == tokens;
  }

  method KindLine(kinds: map<string, map<string, CallKind>>, current: Option<string>, form: LineForm, ghost forms: seq<LineForm>)
    returns (kinds': map<string, map<string, CallKind>>, current': Option<string>)
    requires current == BodyAfter(forms) && IsKindGraph(Bodies(forms), CallSites(forms), kinds)
    ensures current' == BodyAfter(forms + [form]) && IsKindGraph(Bodies(forms + [form]), CallSites(forms + [form]), kinds')
  {
    OneMoreForm(forms, form);
    kinds', current' := kinds, current;
    match form
    case Opens(name) =>
      current' := Some(name);
      KindsAddBody(Bodies(forms), CallSites(forms), kinds, name);
      if name !in kinds {
        kinds' := kinds[name := map[]];
      }
    case Closes =>
      current' := None;
    case Runs(tokens) =>
      if current.Some? {
        kinds' := ScanKinds(kinds, current.value, tokens, Bodies(forms), CallSites(forms));
      }
    case Blank =>
  }

  method KindLines(forms: seq<LineForm>) returns (kinds: map<string, map<string, CallKind>>)
    ensures IsKindGraph(Bodies(forms), CallSites(forms), kinds)
  {
    kinds := map[];
    var current: Option<string> := None;
    for i := 0 to |forms|
      invariant current == BodyAfter(forms[..i])
      invariant IsKindGraph(Bodies(forms[..i]), CallSites(forms[..i]), kinds)
    {
      kinds, current := KindLine(kinds, current, forms[i], forms[..i]);
      assert forms[..i + 1] == forms[..i] + [forms[i]];
    }
    assert forms[..|forms|] == forms;
  }

  method ParseCallKinds(source: string) returns (kinds: map<string, map<string, CallKind>>)
    ensures IsScannedKinds(source, kinds)
  {
    kinds := KindLines(Forms(source));
  }

  // ----- Agreement -----

  lemma {:induction false} KindIffCallee(sites: seq<CallSite>, caller: string, callee: string)
    ensures LastKind(sites, caller, callee).Some? <==> callee in CalleesOf(sites, caller)
  {
    if sites != [] {
      KindIffCallee(Front(sites), caller, callee);
      assert sites == Front(sites) + [Last(sites)];
      if callee in CalleesOf(Front(sites), caller) {
        var s :| s in Front(sites) && s.caller == caller && s.callee == callee;
        assert s in sites;
      }
      if callee in CalleesOf(sites, caller) {
        var s :| s in sites && s.caller == caller && s.callee == callee;
        assert s == Last(sites) || s in Front(sites);
      }
      assert Last(sites) in sites;
    }
  }

  /** The two scanners find the same bodies and, in each, the same callees. */
  lemma ScannersAgree(bodies: set<string>, sites: seq<CallSite>, kinds: map<string, map<string, CallKind>>)
    requires IsKindGraph(bodies, sites, kinds)
    ensures kinds.Keys == GraphOf(bodies, sites).Keys
    ensures forall b :: b in kinds ==> kinds[b].Keys == GraphOf(bodies, sites)[b]
  {
    forall b | b in kinds ensures kinds[b].Keys == GraphOf(bodies, sites)[b] {
      forall c ensures c in kinds[b].Keys <==> c in CalleesOf(sites, b) {
        KindIffCallee(sites, b, c);
        assert (if c in kinds[b] then Some(kinds[b][c]) else None) == LastKind(sites, b, c);
      }
    }
  }

  // ----- Comments hide `#` -----

  lemma {:induction false} WordsWithin(s: string, word: string, c: char)
    requires word in Words(s) && c in word
    ensures c in s
    decreases |s|
  {
    TrimStartSuffix(s);
    var t := TrimStart(s);
    var n := WordLength(t);
    if word == t[..n] {
      assert c in t;
    } else {
      assert word in Words(t[n..]);
      WordsWithin(t[n..], word, c);
    }
  }

  lemma {:induction false} BareNameWithin(name: string, i: nat, c: char)
    requires i <= |name| && c in AfterSeparator(name, i)
    ensures c in name
  {
    if i >= 2 && !(name[i - 2] == ':' && name[i - 1] == ':') {
      BareNameWithin(name, i - 1, c);
    }
  }

  lemma CodeHasNoHash(line: string)
    ensures '#' !in Code(line)
  {
    var trimmed := Trim(line);
    var cut := trimmed[..IndexOf(trimmed, '#')];
    IndexOfFacts(trimmed, '#');
    forall c | c in Trim(cut) ensures c in cut { TrimWithin(cut, c); }
  }

  lemma {:induction false} TokenCallsNoHash(caller: string, tokens: seq<string>, s: CallSite)
    requires forall t :: t in tokens ==> '#' !in t
    requires s in TokenCalls(caller, tokens)
    ensures '#' !in s.callee
  {
    if s in TokenCalls(caller, Front(tokens)) {
      TokenCallsNoHash(caller, Front(tokens), s);
    } else {
      var token := Last(tokens);
      assert token in tokens;
      var rest := if HasPrefix(token, "syscall.") then token[8..] else token[5..];
      forall c | c in s.callee ensures c in token {
        BareNameWithin(rest, |rest|, c);
      }
    }
  }

  lemma {:induction false} FormsNoHash(lines: seq<string>, form: LineForm, t: string)
    requires form in FormsOf(lines) && form.Runs? && t in form.tokens
    ensures '#' !in t
  {
    if form in FormsOf(Front(lines)) {
      FormsNoHash(Front(lines), form, t);
    } else {
      FormNoHash(Last(lines), t);
    }
  }

  lemma FormTokens(code: string)
    ensures CodeForm(code).Runs? ==> CodeForm(code).tokens == Words(code)
  {
  }

  lemma FormNoHash(line: string, t: string)
    requires FormOf(line).Runs? && t in FormOf(line).tokens
    ensures '#' !in t
  {
    FormTokens(Code(line));
    TokenNoHash(line, t);
  }

  lemma TokenNoHash(line: string, t: string)
    requires t in Words(Code(line))
    ensures '#' !in t
  {
    CodeHasNoHash(line);
    forall c | c in t ensures c in Code(line) { WordsWithin(Code(line), t, c); }
  }

  lemma {:induction false} SitesNoHash(forms: seq<LineForm>, s: CallSite)
    requires forall form, t :: form in forms && form.Runs? && t in form.tokens ==> '#' !in t
    requires s in CallSites(forms)
    ensures '#' !in s.callee
  {
    if s in CallSites(Front(forms)) {
      SitesNoHash(Front(forms), s);
    } else {
      assert Last(forms) in forms;
      TokenCallsNoHash(BodyAfter(Front(forms)).value, Last(forms).tokens, s);
    }
  }

  /** No scanned callee contains `#`; in particular, nothing in any source calls `#main`. */
  lemma NothingCallsMain(source: string, parents: map<string, Option<string>>)
    ensures NoHash(Program(ScannedGraph(source), parents)) && MAIN !in Callees(ScannedGraph(source))
  {
    var forms := Forms(source);
    var graph := GraphOf(Bodies(forms), CallSites(forms));
    forall form, t | form in forms && form.Runs? && t in form.tokens ensures '#' !in t {
      FormsNoHash(Lines(source), form, t);
    }
    forall c | c in Callees(graph) ensures '#' !in c {
      var p :| p in graph && c in graph[p];
      var s :| s in CallSites(forms) && s.caller == p && s.callee == c;
      SitesNoHash(forms, s);
    }
    assert MAIN[0] == '#';
  }

  // ----- Calls the scanners miss -----

  /** After a line `end`, no call is listed until another body opens. */
  lemma {:induction false} CallsAfterEndAreMissed(forms: seq<LineForm>, more: seq<LineForm>)
    requires BodyAfter(forms) == None && forall f :: f in more ==> !f.Opens?
    ensures CallSites(forms + more) == CallSites(forms) && Bodies(forms + more) == Bodies(forms)
    ensures BodyAfter(forms + more) == None
  {
    if more == [] {
      assert forms + more == forms;
    } else {
      CallsAfterEndAreMissed(forms, Front(more));
      assert Front(forms + more) == forms + Front(more);
      assert Last(more) in more;
    }
  }
}
