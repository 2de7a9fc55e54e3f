/** The tracker of execution contexts within a transaction. */
module ContextTracker {
  import opened Common

  datatype ContextKind =
    | Kernel
    | AccountCode(accountId: nat)
    | NoteScript(noteId: nat)
    | TxScript
    | UnknownContext

  datatype ContextInfo = ContextInfo(id: nat, kind: ContextKind, sourcePath: Option<string>, cycleCount: nat, entered: bool)

  datatype Entry = Entry(id: nat, clock: nat)

  datatype Switch = Switch(id: nat, kind: ContextKind, clock: nat)

  datatype Tracker = Tracker(contexts: map<nat, ContextInfo>, current: Option<nat>, history: seq<Entry>)

  const NEW_TRACKER := Tracker(map[], None, [])

  /** One switch: staying in the current context only counts a cycle. */
  function SwitchTo(t: Tracker, s: Switch): Tracker {
    var counted :=
      if s.id in t.contexts then
        t.contexts[s.id := t.contexts[s.id].(cycleCount := t.contexts[s.id].cycleCount + 1)]
      else t.contexts;
    if t.current == Some(s.id) then
      t.(contexts := counted)
    else
      Tracker(
        if s.id in t.contexts then counted[s.id := counted[s.id].(entered := true)]
        else t.contexts[s.id := ContextInfo(s.id, s.kind, None, 1, true)],
        Some(s.id),
        t.history + [Entry(s.id, s.clock)])
  }

  function SwitchAll(t: Tracker, switches: seq<Switch>): Tracker {
    if switches == [] then t else SwitchTo(SwitchAll(t, Front(switches)), Last(switches))
  }

  function WithPath(t: Tracker, id: nat, path: string): Tracker {
    if id in t.contexts then t.(contexts := t.contexts[id := t.contexts[id].(sourcePath := Some(path))]) else t
  }

  class ExecutionContextTracker {
    var contexts: map<nat, ContextInfo>
    var currentContext: Option<nat>
    var switchHistory: seq<Entry>

    ghost function Abs(): Tracker
      reads this
    {
      Tracker(contexts, currentContext, switchHistory)
    }

    constructor ()
      ensures Abs() == NEW_TRACKER
    {
      contexts, currentContext, switchHistory := map[], None, [];
    }

    method SwitchContext(id: nat, kind: ContextKind, clock: nat)
      modifies this
      ensures Abs() == SwitchTo(old(Abs()), Switch(id, kind, clock))
    {
      if currentContext == Some(id) {
        if id in contexts {
          var info := contexts[id];
          contexts := contexts[id := info.(cycleCount := info.cycleCount + 1)];
        }
        return;
      }
      currentContext := Some(id);
      switchHistory := switchHistory + [Entry(id, clock)];
      if id in contexts {
        var info := contexts[id];
        contexts := contexts[id := info.(cycleCount := info.cycleCount + 1, entered := true)];
      } else {
        contexts := contexts[id := ContextInfo(id, kind, None, 1, true)];
      }
    }

    /** Name the source of a known context; an unknown one is left alone. */
    method SetSourcePath(id: nat, path: string)
      modifies this`contexts
      ensures Abs() == WithPath(old(Abs()), id, path)
    {
      if id in contexts {
        contexts := contexts[id := contexts[id].(sourcePath := Some(path))];
      }
    }
  }

  // ----- What a sequence of switches leaves, read off the sequence alone -----

  /** How many switches name a context. */
  function Mentions(switches: seq<Switch>, id: nat): nat {
    if switches == [] then 0
    else Mentions(Front(switches), id) + if Last(switches).id == id then 1 else 0
  }

  /** Switch `i` changes the context: it is the first, or names another than the one before. */
  predicate Changes(switches: seq<Switch>, i: nat)
    requires i < |switches|
  {
    i == 0 || switches[i].id != switches[i - 1].id
  }

  /** The history: the switches that change the context. */
  function Changed(switches: seq<Switch>): seq<Entry> {
    if switches == [] then []
    else
      var last := Last(switches);
      Changed(Front(switches)) + if Changes(switches, |switches| - 1) then [Entry(last.id, last.clock)] else []
  }

  /** Switch `i` is the first to name its context. */
  predicate IsFirst(switches: seq<Switch>, i: nat)
    requires i < |switches|
  {
    forall j :: 0 <= j < i ==> switches[j].id != switches[i].id
  }

  /** Every context keeps the kind it was first given. */
  ghost predicate FirstKinds(t: Tracker, switches: seq<Switch>) {
    forall i :: 0 <= i < |switches| && IsFirst(switches, i) ==>
      switches[i].id in t.contexts && t.contexts[switches[i].id].kind == switches[i].kind
  }

  /** Every context counts the switches that name it. */
  ghost predicate Counted(t: Tracker, switches: seq<Switch>) {
    forall id :: (id in t.contexts <==> Mentions(switches, id) > 0) &&
      (id in t.contexts ==>
         t.contexts[id].id == id && t.contexts[id].entered && t.contexts[id].cycleCount == Mentions(switches, id))
  }

  /** What a tracker records of the switches it was given, whatever their order and clocks. */
  ghost predicate Records(t: Tracker, switches: seq<Switch>) {
    && t.current == (if switches == [] then None else Some(Last(switches).id))
    && t.history == Changed(switches)
    && Counted(t, switches)
    && FirstKinds(t, switches)
  }

  lemma {:induction false} Mentioned(switches: seq<Switch>, id: nat)
    ensures Mentions(switches, id) > 0 <==> exists i :: 0 <= i < |switches| && switches[i].id == id
  {
    if switches != [] {
      Mentioned(Front(switches), id);
      assert forall i :: 0 <= i < |switches| - 1 ==> Front(switches)[i] == switches[i];
    }
  }

  lemma CountedNext(t: Tracker, before: seq<Switch>, s: Switch)
    requires Counted(t, before)
    requires t.current == if before == [] then None else Some(Last(before).id)
    ensures Counted(SwitchTo(t, s), before + [s])
  {
    var u, after := SwitchTo(t, s), before + [s];
    assert Front(after) == before && Last(after) == s;
    forall id
      ensures Mentions(after, id) == Mentions(before, id) + if s.id == id then 1 else 0
    {
    }
    if before != [] {
      assert Mentions(before, Last(before).id) > 0;
    }
  }

  lemma FirstKindsNext(t: Tracker, before: seq<Switch>, s: Switch)
    requires FirstKinds(t, before) && Counted(t, before)
    requires t.current == if before == [] then None else Some(Last(before).id)
    ensures FirstKinds(SwitchTo(t, s), before + [s])
  {
    hide Counted;
    var u, after := SwitchTo(t, s), before + [s];
    assert after[|before|] == s && forall i :: 0 <= i < |before| ==> after[i] == before[i];
    forall i | 0 <= i < |after| && IsFirst(after, i)
      ensures after[i].id in u.contexts && u.contexts[after[i].id].kind == after[i].kind
    {
      if i < |before| {
        assert IsFirst(before, i);
      } else {
        KnownWasMentioned(t, before, s.id);
        assert before != [] ==> after[|before| - 1].id != s.id;
      }
    }
  }

  lemma KnownWasMentioned(t: Tracker, switches: seq<Switch>, id: nat)
    requires Counted(t, switches)
    ensures id in t.contexts <==> exists i :: 0 <= i < |switches| && switches[i].id == id
  {
    Mentioned(switches, id);
  }

  lemma ChangedNext(before: seq<Switch>, s: Switch)
    ensures Changed(before + [s]) ==
            Changed(before) + if before != [] && Last(before).id == s.id then [] else [Entry(s.id, s.clock)]
  {
    assert Front(before + [s]) == before && Last(before + [s]) == s;
    assert before != [] ==> (before + [s])[|before| - 1] == Last(before);
  }

  /**
   After any switches a context's count is the number of switches naming it,
   its kind the one it was first given, and the history the changes of context.
   */
  lemma {:induction false} TrackerRecords(switches: seq<Switch>)
    ensures Records(SwitchAll(NEW_TRACKER, switches), switches)
  {
    hide Counted, FirstKinds, Changed;
    if switches == [] {
      NothingRecorded();
    } else {
      var before, last := Front(switches), Last(switches);
      assert switches == before + [last];
      TrackerRecords(before);
      var t := SwitchAll(NEW_TRACKER, before);
      CountedNext(t, before, last);
      FirstKindsNext(t, before, last);
      ChangedNext(before, last);
    }
  }

  lemma NothingRecorded()
    ensures Counted(NEW_TRACKER, []) && FirstKinds(NEW_TRACKER, []) && Changed([]) == []
  {
  }

  ghost predicate AdjacentDiffer(history: seq<Entry>) {
    forall i :: 0 < i < |history| ==> history[i - 1].id != history[i].id
  }

  ghost function HistoryIds(history: seq<Entry>): set<nat> {
    set i | 0 <= i < |history| :: history[i].id
  }

  lemma HistoryGrows(history: seq<Entry>, entry: Entry)
    ensures HistoryIds(history + [entry]) == HistoryIds(history) + {entry.id}
    ensures AdjacentDiffer(history) && (history == [] || Last(history).id != entry.id) ==>
              AdjacentDiffer(history + [entry])
    ensures Last(history + [entry]) == entry
    ensures HistoryIds([]) == {} && AdjacentDiffer([])
  {
    var grown := history + [entry];
    assert forall i :: 0 <= i < |history| ==> grown[i] == history[i];
    assert grown[|history|] == entry;
  }

  /** A tracker's history is settled: no entry repeats the one before, and it agrees with the contexts. */
  ghost predicate Settled(t: Tracker) {
    && AdjacentDiffer(t.history)
    && HistoryIds(t.history) == t.contexts.Keys
    && t.current == (if t.history == [] then None else Some(Last(t.history).id))
  }

  lemma SwitchSettles(t: Tracker, s: Switch)
    requires Settled(t) && (t.current.Some? ==> t.current.value in t.contexts)
    ensures Settled(SwitchTo(t, s)) && s.id in SwitchTo(t, s).contexts
  {
    hide HistoryIds, AdjacentDiffer;
    HistoryGrows(t.history, Entry(s.id, s.clock));
    if t.current != Some(s.id) {
      assert SwitchTo(t, s).contexts.Keys == t.contexts.Keys + {s.id};
    } else {
      assert SwitchTo(t, s).contexts.Keys == t.contexts.Keys;
    }
  }

  lemma NewIsSettled()
    ensures Settled(NEW_TRACKER)
  {
    HistoryGrows([], Entry(0, 0));
  }

  /** The history never stays put, ends in the current context, and names exactly the known contexts. */
  lemma {:induction false} HistoryFollowsContexts(switches: seq<Switch>)
    ensures Settled(SwitchAll(NEW_TRACKER, switches))
    ensures switches != [] ==> Last(switches).id in SwitchAll(NEW_TRACKER, switches).contexts
  {
    hide Settled, SwitchTo, Counted, FirstKinds, Changed;
    if switches == [] {
      NewIsSettled();
    } else {
      HistoryFollowsContexts(Front(switches));
      assert Records(SwitchAll(NEW_TRACKER, Front(switches)), Front(switches)) by {
        TrackerRecords(Front(switches));
      }
      SwitchSettles(SwitchAll(NEW_TRACKER, Front(switches)), Last(switches));
    }
  }

  ghost function TotalCycles(contexts: map<nat, ContextInfo>): nat
    decreases contexts.Keys
  {
    if contexts == map[] then 0
    else
      var id :| id in contexts;
      contexts[id].cycleCount + TotalCycles(contexts - {id})
  }

  /** The total does not depend on the order contexts are summed in. */
  lemma {:induction false} TotalWithout(contexts: map<nat, ContextInfo>, id: nat)
    requires id in contexts
    ensures TotalCycles(contexts) == contexts[id].cycleCount + TotalCycles(contexts - {id})
    decreases contexts.Keys
  {
    var chosen :| chosen in contexts && TotalCycles(contexts) == contexts[chosen].cycleCount + TotalCycles(contexts - {chosen});
    if chosen != id {
      TotalWithout(contexts - {chosen}, id);
      TotalWithout(contexts - {id}, chosen);
      assert contexts - {chosen} - {id} == contexts - {id} - {chosen};
    }
  }

  lemma TotalNext(t: Tracker, s: Switch)
    requires t.current == Some(s.id) ==> s.id in t.contexts
    ensures TotalCycles(SwitchTo(t, s).contexts) == TotalCycles(t.contexts) + 1
  {
    hide TotalCycles;
    var u := SwitchTo(t, s);
    TotalWithout(u.contexts, s.id);
    assert u.contexts - {s.id} == t.contexts - {s.id};
    if s.id in t.contexts {
      TotalWithout(t.contexts, s.id);
    } else {
      assert t.contexts - {s.id} == t.contexts;
    }
  }

  /** No switch is lost: the cycle counts add up to the number of switches. */
  lemma {:induction false} CyclesAreConserved(switches: seq<Switch>)
    ensures TotalCycles(SwitchAll(NEW_TRACKER, switches).contexts) == |switches|
  {
    hide SwitchTo;
    if switches != [] {
      CyclesAreConserved(Front(switches));
      CurrentIsKnown(Front(switches));
      TotalNext(SwitchAll(NEW_TRACKER, Front(switches)), Last(switches));
    }
  }

  lemma CurrentIsKnown(switches: seq<Switch>)
    ensures var t := SwitchAll(NEW_TRACKER, switches);
            t.current.Some? ==> t.current.value in t.contexts
  {
    hide SwitchTo;
    TrackerRecords(switches);
    if switches != [] {
      HistoryFollowsContexts(switches);
    }
  }

  // ----- Source paths -----

  datatype TrackerCall = SwitchCall(switch: Switch) | PathCall(id: nat, path: string)

  function AfterCalls(calls: seq<TrackerCall>): Tracker {
    if calls == [] then NEW_TRACKER
    else
      match Last(calls)
      case SwitchCall(s) => SwitchTo(AfterCalls(Front(calls)), s)
      case PathCall(id, path) => WithPath(AfterCalls(Front(calls)), id, path)
  }

  function SwitchOf(c: TrackerCall): Option<Switch> {
    if c.SwitchCall? then Some(c.switch) else None
  }

  /** The path last given to a context already known when it was given. */
  function PathOf(calls: seq<TrackerCall>, id: nat): Option<string> {
    if calls == [] then None
    else
      var before := Front(calls);
      match Last(calls)
      case PathCall(other, path) =>
        if other == id && Mentions(Project(SwitchOf, before), id) > 0 then Some(path) else PathOf(before, id)
      case SwitchCall(_) => PathOf(before, id)
  }

  /** `t` is `u` with source paths as `calls` give them. */
  ghost predicate PathsAdded(t: Tracker, u: Tracker, calls: seq<TrackerCall>) {
    && t.current == u.current && t.history == u.history && t.contexts.Keys == u.contexts.Keys
    && forall id :: id in t.contexts ==> t.contexts[id] == u.contexts[id].(sourcePath := PathOf(calls, id))
  }

  lemma {:induction false} UnknownHasNoPath(calls: seq<TrackerCall>, id: nat)
    requires Mentions(Project(SwitchOf, calls), id) == 0
    ensures PathOf(calls, id) == None
  {
    if calls != [] {
      var last := Last(calls);
      if last.SwitchCall? {
        assert Front(Project(SwitchOf, calls)) == Project(SwitchOf, Front(calls));
      } else {
        assert Project(SwitchOf, Front(calls)) + [] == Project(SwitchOf, Front(calls));
      }
      UnknownHasNoPath(Front(calls), id);
    }
  }

  lemma SwitchKeepsPaths(t: Tracker, u: Tracker, before: seq<TrackerCall>, s: Switch)
    requires PathsAdded(t, u, before) && (s.id !in u.contexts ==> PathOf(before, s.id) == None)
    ensures PathsAdded(SwitchTo(t, s), SwitchTo(u, s), before + [SwitchCall(s)])
  {
    var calls := before + [SwitchCall(s)];
    assert Front(calls) == before;
    forall id ensures PathOf(calls, id) == PathOf(before, id) {
    }
  }

  lemma PathIsAdded(t: Tracker, u: Tracker, before: seq<TrackerCall>, id: nat, path: string)
    requires PathsAdded(t, u, before) && (id in u.contexts <==> Mentions(Project(SwitchOf, before), id) > 0)
    ensures PathsAdded(WithPath(t, id, path), u, before + [PathCall(id, path)])
  {
    hide Mentions, Project;
    assert Front(before + [PathCall(id, path)]) == before;
  }

  /** Naming sources changes nothing but the paths: the rest is what the switches alone leave. */
  lemma {:induction false} PathsChangeNothingElse(calls: seq<TrackerCall>)
    ensures PathsAdded(AfterCalls(calls), SwitchAll(NEW_TRACKER, Project(SwitchOf, calls)), calls)
  {
    hide PathsAdded, SwitchTo, WithPath, PathOf, Mentions, Records;
    if calls == [] {
      NoPathsYet();
    } else {
      var before, last := Front(calls), Last(calls);
      var switches := Project(SwitchOf, before);
      var t, u := AfterCalls(before), SwitchAll(NEW_TRACKER, switches);
      assert calls == before + [last];
      PathsChangeNothingElse(before);
      TrackerRecords(switches);
      match last
      case SwitchCall(s) =>
        assert Front(Project(SwitchOf, calls)) == switches;
        KnownWhenMentioned(u, switches, s.id);
        if s.id !in u.contexts {
          UnknownHasNoPath(before, s.id);
        }
        SwitchKeepsPaths(t, u, before, s);
      case PathCall(id, path) =>
        assert switches + [] == switches;
        KnownWhenMentioned(u, switches, id);
        PathIsAdded(t, u, before, id, path);
    }
  }

  lemma NoPathsYet()
    ensures PathsAdded(NEW_TRACKER, NEW_TRACKER, [])
  {
  }

  lemma KnownWhenMentioned(t: Tracker, switches: seq<Switch>, id: nat)
    requires Records(t, switches)
    ensures id in t.contexts <==> Mentions(switches, id) > 0
  {
  }
}
