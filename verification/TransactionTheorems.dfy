/** What every simulated transaction and every session records. */
module TransactionTheorems {
  import opened Common
  import opened ContextTracker
  import opened MockChain
  import opened TransactionSession

  // ----- The event stream of any transaction -----

  /** The contexts of the open calls; none when a return does not match. */
  function OpenCalls(events: seq<TraceEvent>): Option<seq<nat>> {
    if events == [] then Some([])
    else
      match OpenCalls(Front(events))
      case None => None
      case Some(open) => AfterEvent(open, Last(events))
  }

  function AfterEvent(open: seq<nat>, e: TraceEvent): Option<seq<nat>> {
    match e
    case Call(_, _, ctx) => Some(open + [ctx])
    case Return(ctx) => if open != [] && Last(open) == ctx then Some(Front(open)) else None
    case _ => Some(open)
  }

  function CallCount(events: seq<TraceEvent>): nat {
    if events == [] then 0 else CallCount(Front(events)) + if Last(events).Call? then 1 else 0
  }

  function ReturnCount(events: seq<TraceEvent>): nat {
    if events == [] then 0 else ReturnCount(Front(events)) + if Last(events).Return? then 1 else 0
  }

  /** The context an event belongs to; a switch belongs to the one it enters. */
  function HomeOf(e: TraceEvent): nat {
    if e.ContextSwitch? then e.to else e.contextId
  }

  /** Every event is emitted while the tracker is in the event's own context. */
  ghost predicate AllAtHome(actions: seq<Action>, k: nat)
    requires k <= |actions|
  {
    forall j :: 0 <= j < k && actions[j].Emit? ==>
      Upto(Perform, BLANK, actions, j).tracker.current == Some(HomeOf(actions[j].event))
  }

  /** A summary of a recording, kept action by action. */
  datatype Watch = Watch(open: Option<seq<nat>>, called: nat, returned: nat, current: Option<nat>, atHome: bool)

  const FRESH := Watch(Some([]), 0, 0, None, true)

  function Observe(w: Watch, a: Action): Watch {
    match a
    case Enter(s) => w.(current := Some(s.id))
    case Emit(e) =>
      Watch(
        if w.open.None? then None else AfterEvent(w.open.value, e),
        w.called + (if e.Call? then 1 else 0),
        w.returned + (if e.Return? then 1 else 0),
        w.current,
        w.atHome && w.current == Some(HomeOf(e)))
  }

  lemma AtHomeNext(actions: seq<Action>, k: nat)
    requires k < |actions|
    ensures AllAtHome(actions, k + 1) <==>
            AllAtHome(actions, k) &&
            (actions[k].Emit? ==> Upto(Perform, BLANK, actions, k).tracker.current == Some(HomeOf(actions[k].event)))
  {
    hide Perform, Upto, HomeOf;
  }

  lemma EventsGrow(events: seq<TraceEvent>, e: TraceEvent)
    ensures var open := OpenCalls(events);
            OpenCalls(events + [e]) == if open.None? then None else AfterEvent(open.value, e)
    ensures CallCount(events + [e]) == CallCount(events) + if e.Call? then 1 else 0
    ensures ReturnCount(events + [e]) == ReturnCount(events) + if e.Return? then 1 else 0
  {
    assert Front(events + [e]) == events;
  }

  lemma {:induction false} WatchIsTrue(actions: seq<Action>, k: nat)
    requires k <= |actions|
    ensures var w, r := Upto(Observe, FRESH, actions, k), Upto(Perform, BLANK, actions, k);
            && w.open == OpenCalls(r.events) && w.called == CallCount(r.events) && w.returned == ReturnCount(r.events)
            && w.current == r.tracker.current
            && (w.atHome <==> AllAtHome(actions, k))
  {
    hide AllAtHome, OpenCalls, CallCount, ReturnCount, AfterEvent, HomeOf;
    if k == 0 {
      NothingYet(actions);
    } else {
      WatchIsTrue(actions, k - 1);
      AtHomeNext(actions, k - 1);
      if actions[k - 1].Emit? {
        EventsGrow(Upto(Perform, BLANK, actions, k - 1).events, actions[k - 1].event);
      }
    }
  }

  lemma NothingYet(actions: seq<Action>)
    ensures OpenCalls([]) == Some([]) && CallCount([]) == 0 && ReturnCount([]) == 0 && AllAtHome(actions, 0)
  {
  }

  /** A watch between two top-level calls. */
  predicate Between(w: Watch, calls: nat) {
    w.open == Some([]) && w.called == w.returned == calls && w.atHome
  }

  lemma PrologueNests(w: Watch)
    requires Between(w, 0)
    ensures Between(Through(Observe, w, Prologue()), 1)
  {
    assert Between(Upto(Observe, w, Prologue(), 4), 1);
  }

  lemma NoteNests(w: Watch, noteId: nat, ctx: nat, clock: nat)
    requires Between(w, w.called)
    ensures Between(Through(Observe, w, NoteActions(noteId, ctx, clock)), w.called + 2)
  {
    var a, b := NoteStart(noteId, ctx, clock), NoteInputs(noteId, ctx, clock + 50);
    ThroughConcat(Observe, w, a, b);
    var v := Upto(Observe, w, a, 5);
    assert [] + [ctx] == [ctx];
    assert v == Watch(Some([ctx]), w.called + 1, w.returned, Some(ctx), true);
    InputsNest(v, noteId, ctx, clock + 50);
  }

  lemma InputsNest(v: Watch, noteId: nat, ctx: nat, clock: nat)
    requires v.open == Some([ctx]) && v.atHome && v.called == v.returned + 1
    ensures Between(Through(Observe, v, NoteInputs(noteId, ctx, clock)), v.called + 1)
  {
    assert Front([ctx] + [KERNEL]) == [ctx];
    assert Front([ctx]) == [];
    assert Between(Upto(Observe, v, NoteInputs(noteId, ctx, clock), 6), v.called + 1);
  }

  lemma AccountNests(w: Watch, accountId: nat, ctx: nat, clock: nat)
    requires Between(w, w.called)
    ensures Between(Through(Observe, w, AccountActions(accountId, ctx, clock)), w.called + 2)
  {
    assert Front([ctx] + [KERNEL]) == [ctx];
    assert Front([] + [ctx]) == [];
    assert Between(Upto(Observe, w, AccountActions(accountId, ctx, clock), 9), w.called + 2);
  }

  lemma EpilogueNests(w: Watch, clock: nat)
    requires Between(w, w.called)
    ensures Between(Through(Observe, w, Epilogue(clock)), w.called + 1)
  {
    assert Between(Upto(Observe, w, Epilogue(clock), 3), w.called + 1);
  }

  lemma ScriptNests(w: Watch, from: nat, ctx: nat, clock: nat)
    requires Between(w, w.called)
    ensures Between(Through(Observe, w, ScriptActions(from, ctx, clock)), w.called + 1)
  {
    assert Between(Upto(Observe, w, ScriptActions(from, ctx, clock), 5), w.called + 1);
  }

  lemma TailNests(w: Watch, scripted: bool, from: nat, ctx: nat, clock: nat)
    requires Between(w, w.called)
    ensures Between(Through(Observe, w, Tail(scripted, from, ctx, clock)), w.called + if scripted then 2 else 1)
  {
    hide Upto, Observe, ScriptActions, Epilogue;
    if scripted {
      ScriptNests(w, from, ctx, clock);
      ThroughConcat(Observe, w, ScriptActions(from, ctx, clock), Epilogue(clock + 40));
      EpilogueNests(Through(Observe, w, ScriptActions(from, ctx, clock)), clock + 40);
    } else {
      EpilogueNests(w, clock);
    }
  }

  lemma {:induction false} NotesNest(w: Watch, notes: seq<nat>)
    requires Between(w, w.called)
    ensures Between(Through(Observe, w, NoteScripts(notes)), w.called + 2 * |notes|)
  {
    hide Observe, NoteActions, ContextAt;
    if notes != [] {
      var before := NoteScripts(Front(notes));
      NotesNest(w, Front(notes));
      var last := NoteActions(Last(notes), ContextAt(|notes|), 100 * |notes|);
      ThroughConcat(Observe, w, before, last);
      NoteNests(Through(Observe, w, before), Last(notes), ContextAt(|notes|), 100 * |notes|);
    }
  }

  function Scripts(tx: TransactionConfig): nat { if tx.txScript.Some? then 1 else 0 }

  /**
   For every transaction the calls and returns nest with matching contexts,
   there are 4 + 2n + s of each for n notes and s scripts, and every event is
   emitted in the context it names; also when context ids wrap around.
   */
  lemma TransactionNests(tx: TransactionConfig)
    ensures var events := Through(Perform, BLANK, Actions(tx)).events;
            && OpenCalls(events) == Some([])
            && CallCount(events) == ReturnCount(events) == 4 + 2 * |tx.inputNotes| + Scripts(tx)
            && AllAtHome(Actions(tx), |Actions(tx)|)
  {
    WatchIsTrue(Actions(tx), |Actions(tx)|);
    ActionsNest(tx);
  }

  lemma ActionsNest(tx: TransactionConfig)
    ensures Between(Through(Observe, FRESH, Actions(tx)), 4 + 2 * |tx.inputNotes| + Scripts(tx))
  {
    hide Observe, Upto, Prologue, NoteScripts, AccountActions, Tail, ContextAt, Through;
    var n := |tx.inputNotes|;
    var p, notes := Prologue(), NoteScripts(tx.inputNotes);
    var account := AccountActions(tx.accountId, ContextAt(n + 1), 100 + 100 * n);
    var tail := Tail(tx.txScript.Some?, ContextAt(n + 1), ContextAt(n + 2), 150 + 100 * n);
    PrologueNests(FRESH);
    ThroughConcat(Observe, FRESH, p, notes);
    NotesNest(Through(Observe, FRESH, p), tx.inputNotes);
    ThroughConcat(Observe, FRESH, p + notes, account);
    AccountNests(Through(Observe, FRESH, p + notes), tx.accountId, ContextAt(n + 1), 100 + 100 * n);
    ThroughConcat(Observe, FRESH, p + notes + account, tail);
    TailNests(Through(Observe, FRESH, p + notes + account), tx.txScript.Some?, ContextAt(n + 1), ContextAt(n + 2), 150 + 100 * n);
  }

  // ----- The context history of any transaction -----

  /** Clocks never go back, and the last is at most `clock`. */
  ghost predicate Clocked(history: seq<Entry>, clock: nat) {
    && (forall i :: 0 < i < |history| ==> history[i - 1].clock <= history[i].clock)
    && (history != [] ==> Last(history).clock <= clock)
  }

  /** A tracker in context `current`, with the kernel known. */
  ghost predicate Inside(t: Tracker, current: nat, clock: nat) {
    && t.current == Some(current)
    && current in t.contexts && KERNEL in t.contexts
    && Clocked(t.history, clock)
  }

  lemma ClockedNext(history: seq<Entry>, clock: nat, e: Entry)
    requires Clocked(history, clock) && clock <= e.clock
    ensures Clocked(history + [e], e.clock) && Clocked(history, e.clock)
  {
  }

  /** Two trackers agree on the kinds of the contexts the first knows. */
  ghost predicate KeepsKinds(t: Tracker, u: Tracker) {
    forall id :: id in t.contexts ==> id in u.contexts && u.contexts[id].kind == t.contexts[id].kind
  }

  lemma OneSwitch(t: Tracker, s: Switch, clock: nat)
    requires t.current.Some? ==> t.current.value in t.contexts
    requires Clocked(t.history, clock) && clock <= s.clock
    ensures var u := SwitchTo(t, s);
            && u.current == Some(s.id)
            && u.contexts.Keys == t.contexts.Keys + {s.id}
            && |u.history| == |t.history| + (if t.current == Some(s.id) then 0 else 1)
            && Clocked(u.history, s.clock)
            && KeepsKinds(t, u)
            && (s.id !in t.contexts ==> u.contexts[s.id].kind == s.kind)
            && (t.current != Some(s.id) ==> Last(u.history) == Entry(s.id, s.clock))
  {
    ClockedNext(t.history, clock, Entry(s.id, s.clock));
  }

  /** Into a context, out to the kernel, and back. */
  function Visit(t: Tracker, id: nat, kind: ContextKind, enter: nat, leave: nat, back: nat): Tracker {
    SwitchTo(SwitchTo(SwitchTo(t, Switch(id, kind, enter)), Switch(KERNEL, Kernel, leave)), Switch(id, kind, back))
  }

  lemma NoteIsVisit(r: Recording, noteId: nat, ctx: nat, clock: nat)
    ensures Through(Perform, r, NoteActions(noteId, ctx, clock)).tracker
            == Visit(r.tracker, ctx, NoteScript(noteId), clock, clock + 50, clock + 70)
  {
    hide SwitchTo, Text.Decimal;
    var a, b := NoteStart(noteId, ctx, clock), NoteInputs(noteId, ctx, clock + 50);
    ThroughConcat(Perform, r, a, b);
    var m := Upto(Perform, r, a, 5);
    assert m.tracker == SwitchTo(r.tracker, Switch(ctx, NoteScript(noteId), clock));
    InputsTracker(m, noteId, ctx, clock + 50);
  }

  lemma InputsTracker(r: Recording, noteId: nat, ctx: nat, clock: nat)
    ensures Through(Perform, r, NoteInputs(noteId, ctx, clock)).tracker
            == SwitchTo(SwitchTo(r.tracker, Switch(KERNEL, Kernel, clock)), Switch(ctx, NoteScript(noteId), clock + 20))
  {
    hide SwitchTo;
    var end := Upto(Perform, r, NoteInputs(noteId, ctx, clock), 6);
  }

  lemma AccountIsVisit(r: Recording, accountId: nat, ctx: nat, clock: nat)
    ensures Through(Perform, r, AccountActions(accountId, ctx, clock)).tracker
            == Visit(r.tracker, ctx, AccountCode(accountId), clock, clock, clock + 30)
  {
    hide SwitchTo;
    var end := Upto(Perform, r, AccountActions(accountId, ctx, clock), 9);
  }

  lemma TailTracker(r: Recording, scripted: bool, from: nat, ctx: nat, clock: nat)
    ensures var t := Through(Perform, r, Tail(scripted, from, ctx, clock)).tracker;
            if scripted then
              t == SwitchTo(SwitchTo(r.tracker, Switch(ctx, TxScript, clock)), Switch(KERNEL, Kernel, clock + 40))
            else t == SwitchTo(r.tracker, Switch(KERNEL, Kernel, clock))
  {
    hide SwitchTo;
    if scripted {
      var script := ScriptActions(from, ctx, clock);
      ThroughConcat(Perform, r, script, Epilogue(clock + 40));
      var m := Upto(Perform, r, script, 5);
      assert m.tracker == SwitchTo(r.tracker, Switch(ctx, TxScript, clock));
      var end := Upto(Perform, m, Epilogue(clock + 40), 3);
    } else {
      var end := Upto(Perform, r, Epilogue(clock), 3);
    }
  }

  /** A visit adds three entries, unless the context is the kernel or the current one. */
  lemma VisitEffect(t: Tracker, current: nat, clock: nat, id: nat, kind: ContextKind, enter: nat, leave: nat, back: nat)
    requires Inside(t, current, clock) && clock <= enter <= leave <= back
    ensures var u := Visit(t, id, kind, enter, leave, back);
            && Inside(u, id, back)
            && u.contexts.Keys == t.contexts.Keys + {id}
            && |u.history| <= |t.history| + 3
            && (|u.history| == |t.history| + 3 <==> id != KERNEL && id != current)
            && KeepsKinds(t, u)
            && (id !in t.contexts ==> u.contexts[id].kind == kind)
  {
    hide SwitchTo, Clocked;
    var a := Switch(id, kind, enter);
    var b := Switch(KERNEL, Kernel, leave);
    var t1 := SwitchTo(t, a);
    var t2 := SwitchTo(t1, b);
    OneSwitch(t, a, clock);
    OneSwitch(t1, b, enter);
    OneSwitch(t2, Switch(id, kind, back), leave);
  }

  /** The context ids of the indices up to `m`. */
  function IdsUpTo(m: nat): set<nat> {
    if m == 0 then {ContextAt(0)} else IdsUpTo(m - 1) + {ContextAt(m)}
  }

  /** Increasing an index changes its id, and gives a new one other than the kernel's until ids wrap. */
  lemma NextContext(i: nat)
    ensures ContextAt(i + 1) != ContextAt(i)
    ensures i + 1 < U32_RANGE <==> i < U32_RANGE && ContextAt(i + 1) != KERNEL
    ensures i < U32_RANGE ==> ContextAt(i) == i
    ensures i + 1 < U32_RANGE ==> ContextAt(i + 1) == i + 1
    ensures ContextAt(i) < U32_RANGE && ContextAt(0) == 0
  {
  }

  /** `ids` are the numbers up to `m`. */
  ghost predicate AreUpTo(ids: set<nat>, m: nat) {
    forall i: nat :: i in ids <==> i <= m
  }

  lemma {:induction false} IdsAreDistinct(m: nat)
    requires m < U32_RANGE
    ensures AreUpTo(IdsUpTo(m), m) && |IdsUpTo(m)| == m + 1
  {
    hide ContextAt;
    NextContext(m);
    if m > 0 {
      IdsAreDistinct(m - 1);
      assert m !in IdsUpTo(m - 1);
    }
  }

  lemma {:induction false} IdsWrap(m: nat)
    requires m >= U32_RANGE - 1
    ensures IdsUpTo(m) == IdsUpTo(U32_RANGE - 1)
    decreases m
  {
    hide ContextAt;
    if m >= U32_RANGE {
      IdsWrap(m - 1);
      IdsAreDistinct(U32_RANGE - 1);
      NextContext(m);
      assert ContextAt(m) in IdsUpTo(U32_RANGE - 1);
    }
  }

  /** Distinct 32-bit ids run out: there are never more than 2^32. */
  lemma IdCount(m: nat)
    ensures |IdsUpTo(m)| == if m < U32_RANGE then m + 1 else U32_RANGE
  {
    if m < U32_RANGE {
      IdsAreDistinct(m);
    } else {
      IdsWrap(m);
      IdsAreDistinct(U32_RANGE - 1);
    }
  }

  /** What context `i` of a transaction is for. */
  function KindAt(tx: TransactionConfig, i: nat): ContextKind {
    if i == 0 then Kernel
    else if i <= |tx.inputNotes| then NoteScript(tx.inputNotes[i - 1])
    else if i == |tx.inputNotes| + 1 then AccountCode(tx.accountId)
    else TxScript
  }

  /** The tracker after the contexts up to index `i` have been visited. */
  ghost predicate Visited(tx: TransactionConfig, t: Tracker, i: nat, clock: nat) {
    && Inside(t, ContextAt(i), clock)
    && t.contexts.Keys == IdsUpTo(i)
    && |t.history| <= 1 + 3 * i
    && (|t.history| == 1 + 3 * i <==> i < U32_RANGE)
    && (i < U32_RANGE ==> KindsUpTo(tx, t, i))
  }

  ghost predicate KindsUpTo(tx: TransactionConfig, t: Tracker, i: nat) {
    forall j :: 0 <= j <= i ==> j in t.contexts && t.contexts[j].kind == KindAt(tx, j)
  }

  lemma KindsExtend(tx: TransactionConfig, t: Tracker, u: Tracker, i: nat)
    requires KindsUpTo(tx, t, i) && KeepsKinds(t, u)
    requires i + 1 in u.contexts && u.contexts[i + 1].kind == KindAt(tx, i + 1)
    ensures KindsUpTo(tx, u, i + 1)
  {
  }

  lemma NotYet(i: nat)
    requires i + 1 < U32_RANGE
    ensures i + 1 !in IdsUpTo(i)
  {
    IdsAreDistinct(i);
  }

  lemma VisitNext(tx: TransactionConfig, t: Tracker, i: nat, clock: nat, enter: nat, leave: nat, back: nat)
    requires Visited(tx, t, i, clock) && clock <= enter <= leave <= back
    ensures Visited(tx, Visit(t, ContextAt(i + 1), KindAt(tx, i + 1), enter, leave, back), i + 1, back)
  {
    hide Visit, KindAt, KindsUpTo, Inside, KeepsKinds, ContextAt, AreUpTo;
    NextContext(i);
    var id := ContextAt(i + 1);
    var u := Visit(t, id, KindAt(tx, i + 1), enter, leave, back);
    VisitEffect(t, ContextAt(i), clock, id, KindAt(tx, i + 1), enter, leave, back);
    if i + 1 < U32_RANGE {
      NotYet(i);
      KindsExtend(tx, t, u, i);
    }
  }

  lemma {:induction false} NotesVisited(tx: TransactionConfig, r: Recording, i: nat)
    requires i <= |tx.inputNotes| && Visited(tx, r.tracker, 0, 0)
    ensures Visited(tx, Through(Perform, r, NoteScripts(tx.inputNotes[..i])).tracker, i, if i == 0 then 0 else 70 + 100 * i)
  {
    hide Visit, Visited, NoteActions, Perform, ContextAt;
    var notes := tx.inputNotes[..i];
    if i > 0 {
      var before := tx.inputNotes[..i - 1];
      NotesVisited(tx, r, i - 1);
      NoteScriptsNext(tx.inputNotes, i - 1);
      var m := Through(Perform, r, NoteScripts(before));
      var noteId := tx.inputNotes[i - 1];
      ThroughConcat(Perform, r, NoteScripts(before), NoteActions(noteId, ContextAt(i), 100 * i));
      NoteIsVisit(m, noteId, ContextAt(i), 100 * i);
      VisitNext(tx, m.tracker, i - 1, if i == 1 then 0 else 70 + 100 * (i - 1), 100 * i, 100 * i + 50, 100 * i + 70);
    }
  }

  lemma PrologueVisits(tx: TransactionConfig)
    ensures Visited(tx, Through(Perform, BLANK, Prologue()).tracker, 0, 0)
  {
    var r := Upto(Perform, BLANK, Prologue(), 4);
    assert r.tracker == SwitchTo(NEW_TRACKER, Switch(KERNEL, Kernel, 0));
  }

  /** Up to the account code. */
  lemma AccountVisited(tx: TransactionConfig)
    ensures var n := |tx.inputNotes|;
            var done := Prologue() + NoteScripts(tx.inputNotes)
              + AccountActions(tx.accountId, ContextAt(n + 1), 100 + 100 * n);
            Visited(tx, Through(Perform, BLANK, done).tracker, n + 1, 130 + 100 * n)
  {
    hide Visited, Visit, ContextAt, Through, Prologue, NoteScripts, AccountActions;
    var n := |tx.inputNotes|;
    PrologueVisits(tx);
    ThroughConcat(Perform, BLANK, Prologue(), NoteScripts(tx.inputNotes));
    assert tx.inputNotes[..n] == tx.inputNotes;
    NotesVisited(tx, Through(Perform, BLANK, Prologue()), n);
    var m := Through(Perform, BLANK, Prologue() + NoteScripts(tx.inputNotes));
    ThroughConcat(Perform, BLANK, Prologue() + NoteScripts(tx.inputNotes),
                  AccountActions(tx.accountId, ContextAt(n + 1), 100 + 100 * n));
    AccountIsVisit(m, tx.accountId, ContextAt(n + 1), 100 + 100 * n);
    VisitNext(tx, m.tracker, n, if n == 0 then 0 else 70 + 100 * n, 100 + 100 * n, 100 + 100 * n, 130 + 100 * n);
  }

  /** The tracker a transaction leaves in a new session. */
  function TrackerOf(tx: TransactionConfig): Tracker {
    Through(Perform, BLANK, Actions(tx)).tracker
  }

  function LastIndex(tx: TransactionConfig): nat { |tx.inputNotes| + 1 + Scripts(tx) }

  /** The epilogue after the context of index `m`. */
  lemma EpilogueEffect(t: Tracker, m: nat, before: nat, clock: nat)
    requires t.current == Some(ContextAt(m)) && t.contexts.Keys == IdsUpTo(m) && ContextAt(m) in IdsUpTo(m)
    requires Clocked(t.history, before) && before <= clock
    ensures var u := SwitchTo(t, Switch(KERNEL, Kernel, clock));
            && u.contexts.Keys == IdsUpTo(m)
            && |u.history| == |t.history| + (if ContextAt(m) == KERNEL then 0 else 1)
            && Clocked(u.history, clock) && KeepsKinds(t, u)
            && (ContextAt(m) != KERNEL ==> Last(u.history) == Entry(KERNEL, clock))
  {
    hide SwitchTo, Clocked, KeepsKinds, ContextAt;
    KernelKnown(m);
    OneSwitch(t, Switch(KERNEL, Kernel, clock), before);
  }

  /** The transaction script's context. */
  lemma ScriptEffect(tx: TransactionConfig, t: Tracker, m: nat, before: nat, clock: nat)
    requires Visited(tx, t, m, before) && before <= clock && KindAt(tx, m + 1) == TxScript
    ensures var v := SwitchTo(t, Switch(ContextAt(m + 1), TxScript, clock));
            && v.current == Some(ContextAt(m + 1)) && v.contexts.Keys == IdsUpTo(m + 1)
            && |v.history| == |t.history| + 1
            && Clocked(v.history, clock)
            && (m + 1 < U32_RANGE ==> KindsUpTo(tx, v, m + 1))
  {
    hide SwitchTo, Clocked, KeepsKinds, KindsUpTo, ContextAt, KindAt;
    NextContext(m);
    OneSwitch(t, Switch(ContextAt(m + 1), TxScript, clock), before);
    if m + 1 < U32_RANGE {
      NotYet(m);
      KindsExtend(tx, t, SwitchTo(t, Switch(ContextAt(m + 1), TxScript, clock)), m);
    }
  }

  lemma KindsKept(tx: TransactionConfig, t: Tracker, u: Tracker, i: nat)
    requires KindsUpTo(tx, t, i) && KeepsKinds(t, u)
    ensures KindsUpTo(tx, u, i)
  {
  }

  /** What is recorded once the context of index `m` has been visited and the epilogue run. */
  ghost predicate Ended(tx: TransactionConfig, u: Tracker, m: nat, full: nat, clock: nat) {
    && Clocked(u.history, clock)
    && |u.history| <= full
    && (|u.history| == full <==> m < U32_RANGE)
    && (m < U32_RANGE ==> u.history != [] && Last(u.history) == Entry(KERNEL, clock) && KindsUpTo(tx, u, m))
    && u.contexts.Keys == IdsUpTo(m)
  }

  lemma PlainEnd(tx: TransactionConfig, t: Tracker, n: nat, clock: nat)
    requires Visited(tx, t, n + 1, 130 + 100 * n) && clock == 150 + 100 * n
    ensures Ended(tx, SwitchTo(t, Switch(KERNEL, Kernel, clock)), n + 1, 5 + 3 * n, clock)
  {
    hide SwitchTo, Clocked, KeepsKinds, KindsUpTo, ContextAt, IdsUpTo;
    NextContext(n);
    NextContext(n + 1);
    EpilogueEffect(t, n + 1, 130 + 100 * n, clock);
    if n + 1 < U32_RANGE {
      KindsKept(tx, t, SwitchTo(t, Switch(KERNEL, Kernel, clock)), n + 1);
    }
  }

  lemma ScriptedEnd(tx: TransactionConfig, t: Tracker, n: nat, clock: nat)
    requires Visited(tx, t, n + 1, 130 + 100 * n) && clock == 150 + 100 * n && n == |tx.inputNotes|
    ensures var v := SwitchTo(t, Switch(ContextAt(n + 2), TxScript, clock));
            Ended(tx, SwitchTo(v, Switch(KERNEL, Kernel, clock + 40)), n + 2, 6 + 3 * n, clock + 40)
  {
    hide SwitchTo, Clocked, KeepsKinds, KindsUpTo, ContextAt;
    NextContext(n + 1);
    NextContext(n + 2);
    ScriptEffect(tx, t, n + 1, 130 + 100 * n, clock);
    var v := SwitchTo(t, Switch(ContextAt(n + 2), TxScript, clock));
    EpilogueEffect(v, n + 2, clock, clock + 40);
    if n + 2 < U32_RANGE {
      KindsKept(tx, v, SwitchTo(v, Switch(KERNEL, Kernel, clock + 40)), n + 2);
    }
  }

  lemma {:induction false} KernelKnown(m: nat)
    ensures KERNEL in IdsUpTo(m)
  {
    if m > 0 {
      KernelKnown(m - 1);
    }
  }

  /**
   The history has 5 + 3n + s entries, and contexts 0 to n + 1 + s keep their
   kinds, exactly while the largest context id fits 32 bits; the clocks never
   go back, whatever the ids.
   */
  lemma TransactionHistory(tx: TransactionConfig)
    ensures var t, full, clock := TrackerOf(tx), 5 + 3 * |tx.inputNotes| + Scripts(tx), 150 + 100 * |tx.inputNotes| + 40 * Scripts(tx);
            && Clocked(t.history, clock)
            && |t.history| <= full
            && (|t.history| == full <==> LastIndex(tx) < U32_RANGE)
            && (LastIndex(tx) < U32_RANGE ==> Last(t.history) == Entry(KERNEL, clock) && KindsUpTo(tx, t, LastIndex(tx)))
            && |t.contexts| == (if LastIndex(tx) < U32_RANGE then LastIndex(tx) + 1 else U32_RANGE)
  {
    hide Visited, Clocked, Through, Prologue, NoteScripts, AccountActions, Tail, ContextAt, IdsUpTo, SwitchTo, KindsUpTo, KeepsKinds;
    var n := |tx.inputNotes|;
    var done := Prologue() + NoteScripts(tx.inputNotes) + AccountActions(tx.accountId, ContextAt(n + 1), 100 + 100 * n);
    var r := Through(Perform, BLANK, done);
    AccountVisited(tx);
    ThroughConcat(Perform, BLANK, done, Tail(tx.txScript.Some?, ContextAt(n + 1), ContextAt(n + 2), 150 + 100 * n));
    TailTracker(r, tx.txScript.Some?, ContextAt(n + 1), ContextAt(n + 2), 150 + 100 * n);
    if tx.txScript.Some? {
      ScriptedEnd(tx, r.tracker, n, 150 + 100 * n);
    } else {
      PlainEnd(tx, r.tracker, n, 150 + 100 * n);
    }
    IdCount(LastIndex(tx));
    SizeIsKeys(TrackerOf(tx).contexts);
  }

  lemma SizeIsKeys<T>(m: map<nat, T>)
    ensures |m| == |m.Keys|
  {
  }

  // ----- The streams of events and switches, written out -----

  function NoteEvents(noteId: nat, ctx: nat): seq<TraceEvent> {
    [ContextSwitch(Some(0), ctx, NoteScript(noteId)),
     Call("note_script_" + Text.Decimal(noteId), false, ctx),
     Step("note_script.masm", 1, ctx),
     Variable("note_input_0", "42", ctx),
     ContextSwitch(Some(ctx), 0, Kernel),
     Call("miden::note::get_inputs", true, 0),
     Return(0),
     Return(ctx)]
  }

  function NoteSwitches(noteId: nat, ctx: nat, clock: nat): seq<Switch> {
    [Switch(ctx, NoteScript(noteId), clock), Switch(0, Kernel, clock + 50), Switch(ctx, NoteScript(noteId), clock + 70)]
  }

  /** The notes run in contexts 1, 2, ..., a hundred cycles each, from cycle 100 on. */
  function AllNoteEvents(notes: seq<nat>): seq<TraceEvent> {
    if notes == [] then [] else AllNoteEvents(Front(notes)) + NoteEvents(Last(notes), |notes| % 0x1_0000_0000)
  }

  function AllNoteSwitches(notes: seq<nat>): seq<Switch> {
    if notes == [] then []
    else AllNoteSwitches(Front(notes)) + NoteSwitches(Last(notes), |notes| % 0x1_0000_0000, 100 * |notes|)
  }

  function EventStream(tx: TransactionConfig): seq<TraceEvent> {
    var account, script := (|tx.inputNotes| + 1) % 0x1_0000_0000, (|tx.inputNotes| + 2) % 0x1_0000_0000;
    [ContextSwitch(None, 0, Kernel), Call("#sys::prologue", true, 0), Return(0)]
    + AllNoteEvents(tx.inputNotes)
    + [ContextSwitch(Some(0), account, AccountCode(tx.accountId)),
       Call("account::receive_asset", false, account),
       Step("account.masm", 5, account),
       Call("miden::kernel::account_vault_add_asset", true, 0),
       Return(0),
       Return(account)]
    + (if tx.txScript.None? then []
       else [ContextSwitch(Some(account), script, TxScript),
             Call("tx_script::main", false, script),
             Step("tx_script.masm", 1, script),
             Return(script)])
    + [Call("#sys::epilogue", true, 0), Return(0)]
  }

  function SwitchStream(tx: TransactionConfig): seq<Switch> {
    var n := |tx.inputNotes|;
    var account, script := (n + 1) % 0x1_0000_0000, (n + 2) % 0x1_0000_0000;
    [Switch(0, Kernel, 0)]
    + AllNoteSwitches(tx.inputNotes)
    + [Switch(account, AccountCode(tx.accountId), 100 + 100 * n), Switch(0, Kernel, 100 + 100 * n),
       Switch(account, AccountCode(tx.accountId), 130 + 100 * n)]
    + (if tx.txScript.None? then [] else [Switch(script, TxScript, 150 + 100 * n)])
    + [Switch(0, Kernel, if tx.txScript.None? then 150 + 100 * n else 190 + 100 * n)]
  }

  /** `actions` emit `events` and make `switches`. */
  ghost predicate Streams(actions: seq<Action>, events: seq<TraceEvent>, switches: seq<Switch>) {
    forall r: Recording :: StreamsFrom(r, actions, events, switches)
  }

  ghost predicate StreamsFrom(r: Recording, actions: seq<Action>, events: seq<TraceEvent>, switches: seq<Switch>) {
    Through(Perform, r, actions) == Recording(SwitchAll(r.tracker, switches), r.events + events)
  }

  lemma {:induction false} SwitchAllConcat(t: Tracker, a: seq<Switch>, b: seq<Switch>)
    ensures SwitchAll(t, a + b) == SwitchAll(SwitchAll(t, a), b)
  {
    hide SwitchTo;
    if b == [] {
      assert a + b == a;
    } else {
      SwitchAllConcat(t, a, Front(b));
      assert Front(a + b) == a + Front(b);
    }
  }

  lemma StreamsConcat(a: seq<Action>, ea: seq<TraceEvent>, sa: seq<Switch>, b: seq<Action>, eb: seq<TraceEvent>, sb: seq<Switch>)
    requires Streams(a, ea, sa) && Streams(b, eb, sb)
    ensures Streams(a + b, ea + eb, sa + sb)
  {
    hide Perform, Through, SwitchAll;
    forall r: Recording
      ensures StreamsFrom(r, a + b, ea + eb, sa + sb)
    {
      var m := Through(Perform, r, a);
      assert StreamsFrom(r, a, ea, sa) && StreamsFrom(m, b, eb, sb);
      ThroughConcat(Perform, r, a, b);
      SwitchAllConcat(r.tracker, sa, sb);
      assert r.events + (ea + eb) == r.events + ea + eb;
    }
  }

  lemma OneSwitchAll(t: Tracker, s: Switch)
    ensures SwitchAll(t, [s]) == SwitchTo(t, s)
  {
    assert Front([s]) == [];
  }

  lemma ThreeSwitches(t: Tracker, a: Switch, b: Switch, c: Switch)
    ensures SwitchAll(t, [a, b, c]) == SwitchTo(SwitchTo(SwitchTo(t, a), b), c)
  {
    hide SwitchTo;
    assert Front([a, b, c]) == [a, b] && Front([a, b]) == [a];
    OneSwitchAll(t, a);
    assert SwitchAll(t, [a, b]) == SwitchTo(SwitchAll(t, [a]), b);
  }

  lemma PrologueStream()
    ensures Streams(Prologue(), [ContextSwitch(None, 0, Kernel), Call("#sys::prologue", true, 0), Return(0)], [Switch(0, Kernel, 0)])
  {
    hide SwitchTo, SwitchAll;
    var events := [ContextSwitch(None, 0, Kernel), Call("#sys::prologue", true, 0), Return(0)];
    forall r: Recording
      ensures StreamsFrom(r, Prologue(), events, [Switch(0, Kernel, 0)])
    {
      OneSwitchAll(r.tracker, Switch(0, Kernel, 0));
      var end := Upto(Perform, r, Prologue(), 4);
      assert end.events == r.events + events;
    }
  }

  lemma NoteStream(noteId: nat, ctx: nat, clock: nat)
    ensures Streams(NoteActions(noteId, ctx, clock), NoteEvents(noteId, ctx), NoteSwitches(noteId, ctx, clock))
  {
    hide SwitchTo, SwitchAll, Text.Decimal, Upto, Perform, NoteActions;
    forall r: Recording
      ensures StreamsFrom(r, NoteActions(noteId, ctx, clock), NoteEvents(noteId, ctx), NoteSwitches(noteId, ctx, clock))
    {
      NoteIsVisit(r, noteId, ctx, clock);
      ThreeSwitches(r.tracker, Switch(ctx, NoteScript(noteId), clock), Switch(0, Kernel, clock + 50), Switch(ctx, NoteScript(noteId), clock + 70));
      NoteEmits(r, noteId, ctx, clock);
    }
  }

  lemma NoteEmits(r: Recording, noteId: nat, ctx: nat, clock: nat)
    ensures Through(Perform, r, NoteActions(noteId, ctx, clock)).events == r.events + NoteEvents(noteId, ctx)
  {
    hide SwitchTo, Text.Decimal;
    var a, b := NoteStart(noteId, ctx, clock), NoteInputs(noteId, ctx, clock + 50);
    ThroughConcat(Perform, r, a, b);
    var m := Upto(Perform, r, a, 5);
    assert m.events == r.events + NoteEvents(noteId, ctx)[..4];
    InputsEmit(m, noteId, ctx, clock + 50);
    assert NoteEvents(noteId, ctx) == NoteEvents(noteId, ctx)[..4] + NoteEvents(noteId, ctx)[4..];
  }

  lemma InputsEmit(r: Recording, noteId: nat, ctx: nat, clock: nat)
    ensures Through(Perform, r, NoteInputs(noteId, ctx, clock)).events == r.events + NoteEvents(noteId, ctx)[4..]
  {
    hide SwitchTo, Text.Decimal;
    var end := Upto(Perform, r, NoteInputs(noteId, ctx, clock), 6);
    assert NoteEvents(noteId, ctx)[4..] ==
           [ContextSwitch(Some(ctx), 0, Kernel), Call("miden::note::get_inputs", true, 0), Return(0), Return(ctx)];
    assert end.events == r.events + [ContextSwitch(Some(ctx), 0, Kernel), Call("miden::note::get_inputs", true, 0), Return(0), Return(ctx)];
  }

  lemma {:induction false} NotesStream(notes: seq<nat>)
    ensures Streams(NoteScripts(notes), AllNoteEvents(notes), AllNoteSwitches(notes))
  {
    hide Streams, NoteActions, NoteEvents, NoteSwitches;
    if notes == [] {
      NothingStreams();
    } else {
      NotesStream(Front(notes));
      var ctx := |notes| % 0x1_0000_0000;
      NoteStream(Last(notes), ctx, 100 * |notes|);
      StreamsConcat(NoteScripts(Front(notes)), AllNoteEvents(Front(notes)), AllNoteSwitches(Front(notes)),
                    NoteActions(Last(notes), ctx, 100 * |notes|), NoteEvents(Last(notes), ctx), NoteSwitches(Last(notes), ctx, 100 * |notes|));
    }
  }

  lemma NothingStreams()
    ensures Streams([], [], [])
  {
    forall r: Recording ensures StreamsFrom(r, [], [], []) {
      assert r.events + [] == r.events;
    }
  }

  lemma AccountStream(accountId: nat, ctx: nat, clock: nat)
    ensures Streams(AccountActions(accountId, ctx, clock),
                    [ContextSwitch(Some(0), ctx, AccountCode(accountId)), Call("account::receive_asset", false, ctx),
                     Step("account.masm", 5, ctx), Call("miden::kernel::account_vault_add_asset", true, 0), Return(0), Return(ctx)],
                    [Switch(ctx, AccountCode(accountId), clock), Switch(0, Kernel, clock), Switch(ctx, AccountCode(accountId), clock + 30)])
  {
    hide SwitchTo, SwitchAll;
    var events := [ContextSwitch(Some(0), ctx, AccountCode(accountId)), Call("account::receive_asset", false, ctx),
                   Step("account.masm", 5, ctx), Call("miden::kernel::account_vault_add_asset", true, 0), Return(0), Return(ctx)];
    var switches := [Switch(ctx, AccountCode(accountId), clock), Switch(0, Kernel, clock), Switch(ctx, AccountCode(accountId), clock + 30)];
    forall r: Recording
      ensures StreamsFrom(r, AccountActions(accountId, ctx, clock), events, switches)
    {
      AccountIsVisit(r, accountId, ctx, clock);
      ThreeSwitches(r.tracker, Switch(ctx, AccountCode(accountId), clock), Switch(0, Kernel, clock), Switch(ctx, AccountCode(accountId), clock + 30));
      var end := Upto(Perform, r, AccountActions(accountId, ctx, clock), 9);
      assert end.events == r.events + events;
    }
  }

  lemma ScriptStream(from: nat, ctx: nat, clock: nat)
    ensures Streams(ScriptActions(from, ctx, clock),
                    [ContextSwitch(Some(from), ctx, TxScript), Call("tx_script::main", false, ctx), Step("tx_script.masm", 1, ctx), Return(ctx)],
                    [Switch(ctx, TxScript, clock)])
  {
    hide SwitchTo, SwitchAll;
    var events := [ContextSwitch(Some(from), ctx, TxScript), Call("tx_script::main", false, ctx), Step("tx_script.masm", 1, ctx), Return(ctx)];
    forall r: Recording
      ensures StreamsFrom(r, ScriptActions(from, ctx, clock), events, [Switch(ctx, TxScript, clock)])
    {
      OneSwitchAll(r.tracker, Switch(ctx, TxScript, clock));
      var end := Upto(Perform, r, ScriptActions(from, ctx, clock), 5);
      assert end.events == r.events + events;
    }
  }

  lemma EpilogueStream(clock: nat)
    ensures Streams(Epilogue(clock), [Call("#sys::epilogue", true, 0), Return(0)], [Switch(0, Kernel, clock)])
  {
    hide SwitchTo, SwitchAll;
    var events := [Call("#sys::epilogue", true, 0), Return(0)];
    forall r: Recording
      ensures StreamsFrom(r, Epilogue(clock), events, [Switch(0, Kernel, clock)])
    {
      OneSwitchAll(r.tracker, Switch(0, Kernel, clock));
      var end := Upto(Perform, r, Epilogue(clock), 3);
      assert end.events == r.events + events;
    }
  }

  lemma TailStream(scripted: bool, from: nat, ctx: nat, clock: nat)
    ensures Streams(Tail(scripted, from, ctx, clock),
                    (if !scripted then []
                     else [ContextSwitch(Some(from), ctx, TxScript), Call("tx_script::main", false, ctx), Step("tx_script.masm", 1, ctx), Return(ctx)])
                    + [Call("#sys::epilogue", true, 0), Return(0)],
                    (if !scripted then [] else [Switch(ctx, TxScript, clock)]) + [Switch(0, Kernel, if scripted then clock + 40 else clock)])
  {
    hide Streams, ScriptActions, Epilogue;
    EpilogueStream(if scripted then clock + 40 else clock);
    if scripted {
      ScriptStream(from, ctx, clock);
      StreamsConcat(ScriptActions(from, ctx, clock),
                    [ContextSwitch(Some(from), ctx, TxScript), Call("tx_script::main", false, ctx), Step("tx_script.masm", 1, ctx), Return(ctx)],
                    [Switch(ctx, TxScript, clock)],
                    Epilogue(clock + 40), [Call("#sys::epilogue", true, 0), Return(0)], [Switch(0, Kernel, clock + 40)]);
    } else {
      assert [] + [Call("#sys::epilogue", true, 0), Return(0)] == [Call("#sys::epilogue", true, 0), Return(0)];
      assert [] + [Switch(0, Kernel, clock)] == [Switch(0, Kernel, clock)];
    }
  }

  /** What a transaction records: exactly those events and switches, with every name, line, context and clock. */
  lemma TransactionIsStream(tx: TransactionConfig)
    ensures Through(Perform, BLANK, Actions(tx)) == Recording(SwitchAll(NEW_TRACKER, SwitchStream(tx)), EventStream(tx))
  {
    ActionsStream(tx);
    assert StreamsFrom(BLANK, Actions(tx), EventStream(tx), SwitchStream(tx));
    assert [] + EventStream(tx) == EventStream(tx);
  }

  lemma ActionsStream(tx: TransactionConfig)
    ensures Streams(Actions(tx), EventStream(tx), SwitchStream(tx))
  {
    hide Streams, Prologue, NoteScripts, AccountActions, Tail, AllNoteEvents, AllNoteSwitches;
    var n := |tx.inputNotes|;
    var account, script := (n + 1) % 0x1_0000_0000, (n + 2) % 0x1_0000_0000;
    var e0, s0 := [ContextSwitch(None, 0, Kernel), Call("#sys::prologue", true, 0), Return(0)], [Switch(0, Kernel, 0)];
    var e1, s1 := AllNoteEvents(tx.inputNotes), AllNoteSwitches(tx.inputNotes);
    var e2 := [ContextSwitch(Some(0), account, AccountCode(tx.accountId)), Call("account::receive_asset", false, account),
               Step("account.masm", 5, account), Call("miden::kernel::account_vault_add_asset", true, 0), Return(0), Return(account)];
    var clock := 100 + 100 * n;
    var s2 := [Switch(account, AccountCode(tx.accountId), clock), Switch(0, Kernel, clock), Switch(account, AccountCode(tx.accountId), clock + 30)];
    var scripted := tx.txScript.Some?;
    var e3 := if !scripted then []
              else [ContextSwitch(Some(account), script, TxScript), Call("tx_script::main", false, script), Step("tx_script.masm", 1, script), Return(script)];
    var s3 := if !scripted then [] else [Switch(script, TxScript, clock + 50)];
    var e4 := [Call("#sys::epilogue", true, 0), Return(0)];
    var s4 := [Switch(0, Kernel, if scripted then clock + 90 else clock + 50)];
    PrologueStream();
    NotesStream(tx.inputNotes);
    AccountStream(tx.accountId, account, clock);
    TailStream(scripted, account, script, clock + 50);
    StreamsConcat(Prologue(), e0, s0, NoteScripts(tx.inputNotes), e1, s1);
    StreamsConcat(Prologue() + NoteScripts(tx.inputNotes), e0 + e1, s0 + s1, AccountActions(tx.accountId, account, clock), e2, s2);
    StreamsConcat(Prologue() + NoteScripts(tx.inputNotes) + AccountActions(tx.accountId, account, clock), e0 + e1 + e2, s0 + s1 + s2,
                  Tail(scripted, account, script, clock + 50), e3 + e4, s3 + s4);
    assert e0 + e1 + e2 + (e3 + e4) == e0 + e1 + e2 + e3 + e4;
    assert s0 + s1 + s2 + (s3 + s4) == s0 + s1 + s2 + s3 + s4;
  }

  // ----- Every session -----

  datatype Request = BuildRequest(chain: Chain) | ExecuteRequest(tx: TransactionConfig) | FinalizeRequest(written: bool)

  function Respond(s: Session, request: Request): (Session, Outcome) {
    match request
    case BuildRequest(chain) => Build(s, chain)
    case ExecuteRequest(tx) => Execute(s, tx)
    case FinalizeRequest(written) => Finalize(s, written)
  }

  function SessionAfter(requests: seq<Request>): Session {
    if requests == [] then NEW_SESSION else Respond(SessionAfter(Front(requests)), Last(requests)).0
  }

  /** Request `i` is answered without an error. */
  predicate Succeeds(requests: seq<Request>, i: nat)
    requires i < |requests|
  {
    Respond(SessionAfter(requests[..i]), requests[i]).1 == Done
  }

  /** The session holds what one transaction on the chain `built` leaves. */
  ghost predicate HasRun(s: Session, built: Chain, tx: TransactionConfig) {
    && CanExecute(Session(ChainBuilt, Some(built), BLANK), tx)
    && s.chain.Some? && SettledBy(built, tx, s.chain.value)
    && s.recording == Recording(SwitchAll(NEW_TRACKER, SwitchStream(tx)), EventStream(tx))
  }

  /** Where a session stands, given which requests succeeded. */
  ghost predicate Accounts(requests: seq<Request>, s: Session) {
    match s.status
    case Created => s == NEW_SESSION && forall i :: 0 <= i < |requests| ==> !Succeeds(requests, i)
    case ChainBuilt =>
      && s.recording == BLANK
      && exists i :: 0 <= i < |requests| && OnlyBuildSucceeds(requests, i) && s.chain == Some(requests[i].chain)
    case Executed =>
      exists i, j :: 0 <= i < j < |requests| && BuildThenExecute(requests, i, j)
        && HasRun(s, requests[i].chain, requests[j].tx)
    case Completed =>
      exists i, j, k :: 0 <= i < j < k < |requests| && BuildExecuteFinalize(requests, i, j, k)
        && HasRun(s, requests[i].chain, requests[j].tx)
    case Failed(_) => false
  }

  /** The earlier requests fare the same, whatever comes after them. */
  lemma EarlierSucceed(requests: seq<Request>)
    requires requests != []
    ensures forall i :: 0 <= i < |requests| - 1 ==>
              requests[i] == Front(requests)[i] && (Succeeds(requests, i) <==> Succeeds(Front(requests), i))
    ensures Succeeds(requests, |requests| - 1) <==> Respond(SessionAfter(Front(requests)), Last(requests)).1 == Done
  {
    hide Respond, SessionAfter;
    assert requests[..|requests| - 1] == Front(requests);
    forall i | 0 <= i < |requests| - 1
      ensures requests[i] == Front(requests)[i] && (Succeeds(requests, i) <==> Succeeds(Front(requests), i))
    {
      assert requests[..i] == Front(requests)[..i];
    }
  }

  /**
   Whatever is asked of a new session, in whatever order: it holds no
   recording until one transaction succeeds, then exactly that transaction's,
   and no request after that succeeds.
   */
  lemma {:induction false} SessionRecordsOneTransaction(requests: seq<Request>)
    ensures Accounts(requests, SessionAfter(requests))
  {
    hide Execute, Succeeds;
    if requests != [] {
      var before, last := Front(requests), |requests| - 1;
      SessionRecordsOneTransaction(before);
      EarlierSucceed(requests);
      var s := SessionAfter(before);
      if requests[last].ExecuteRequest? {
        ExecutionOutcome(s, requests[last].tx);
      }
      assert SameBefore(requests);
      AccountsNext(requests, s);
    }
  }

  lemma RunsOnce(s: Session, built: Chain, tx: TransactionConfig)
    requires s == Session(ChainBuilt, Some(built), BLANK) && Execute(s, tx).1 == Done
    ensures HasRun(Execute(s, tx).0, built, tx) && Execute(s, tx).0.status == Executed
  {
    hide Execute, SettledBy, Actions, Through, EventStream, SwitchStream;
    ExecutionOutcome(s, tx);
    TransactionIsStream(tx);
  }

  lemma FinalizedHasRun(s: Session, built: Chain, tx: TransactionConfig)
    requires HasRun(s, built, tx)
    ensures HasRun(s.(status := Completed), built, tx)
  {
    hide SettledBy, CanExecute, EventStream, SwitchStream;
  }

  /** The requests but the last fare as they did without it. */
  ghost predicate SameBefore(requests: seq<Request>) {
    requests != [] &&
    forall i :: 0 <= i < |requests| - 1 ==>
      requests[i] == Front(requests)[i] && (Succeeds(requests, i) <==> Succeeds(Front(requests), i))
  }

  lemma NoneExtends(requests: seq<Request>)
    requires SameBefore(requests) && forall i :: 0 <= i < |requests| - 1 ==> !Succeeds(Front(requests), i)
    ensures var last := |requests| - 1;
            if Succeeds(requests, last) then requests[last].BuildRequest? ==> OnlyBuildSucceeds(requests, last)
            else forall i :: 0 <= i < |requests| ==> !Succeeds(requests, i)
  {
    hide Succeeds;
  }

  lemma BuildExtends(requests: seq<Request>, i: nat)
    requires SameBefore(requests) && i < |requests| - 1 && OnlyBuildSucceeds(Front(requests), i)
    ensures var last := |requests| - 1;
            if Succeeds(requests, last) then requests[last].ExecuteRequest? ==> BuildThenExecute(requests, i, last)
            else OnlyBuildSucceeds(requests, i)
  {
    hide Succeeds;
  }

  lemma ExecuteExtends(requests: seq<Request>, i: nat, j: nat)
    requires SameBefore(requests) && i < j < |requests| - 1 && BuildThenExecute(Front(requests), i, j)
    ensures var last := |requests| - 1;
            if Succeeds(requests, last) then requests[last].FinalizeRequest? ==> BuildExecuteFinalize(requests, i, j, last)
            else BuildThenExecute(requests, i, j)
  {
    hide Succeeds;
  }

  lemma FinalizeExtends(requests: seq<Request>, i: nat, j: nat, k: nat)
    requires SameBefore(requests) && i < j < k < |requests| - 1 && BuildExecuteFinalize(Front(requests), i, j, k)
    ensures !Succeeds(requests, |requests| - 1) ==> BuildExecuteFinalize(requests, i, j, k)
  {
    hide Succeeds;
  }

  lemma AccountsNext(requests: seq<Request>, s: Session)
    requires requests != [] && SameBefore(requests) && Accounts(Front(requests), s)
    requires Succeeds(requests, |requests| - 1) <==> Respond(s, Last(requests)).1 == Done
    ensures Accounts(requests, Respond(s, Last(requests)).0)
  {
    hide Execute, Succeeds, SessionAfter, HasRun, IsReason, SameBefore, SettledBy;
    var before, last := Front(requests), |requests| - 1;
    SameRequests(requests);
    if requests[last].ExecuteRequest? {
      ExecutionOutcome(s, requests[last].tx);
    }
    match s.status
    case Created =>
      NoneExtends(requests);
    case ChainBuilt =>
      var i :| 0 <= i < |before| && OnlyBuildSucceeds(before, i) && s.chain == Some(before[i].chain);
      BuildExtends(requests, i);
      if Succeeds(requests, last) {
        RunsOnce(s, before[i].chain, requests[last].tx);
      }
    case Executed =>
      var i, j :| 0 <= i < j < |before| && BuildThenExecute(before, i, j)
              && HasRun(s, before[i].chain, before[j].tx);
      ExecuteExtends(requests, i, j);
      FinalizedHasRun(s, before[i].chain, before[j].tx);
    case Completed =>
      var i, j, k :| 0 <= i < j < k < |before| && BuildExecuteFinalize(before, i, j, k)
              && HasRun(s, before[i].chain, before[j].tx);
      FinalizeExtends(requests, i, j, k);
  }

  lemma SameRequests(requests: seq<Request>)
    requires SameBefore(requests)
    ensures forall i :: 0 <= i < |requests| - 1 ==> requests[i] == Front(requests)[i]
  {
  }

  ghost predicate OnlyBuildSucceeds(requests: seq<Request>, i: nat)
    requires i < |requests|
  {
    && requests[i].BuildRequest?
    && forall k :: 0 <= k < |requests| ==> (Succeeds(requests, k) <==> k == i)
  }

  ghost predicate BuildThenExecute(requests: seq<Request>, i: nat, j: nat)
    requires i < |requests| && j < |requests|
  {
    && requests[i].BuildRequest? && requests[j].ExecuteRequest?
    && forall k :: 0 <= k < |requests| ==> (Succeeds(requests, k) <==> k == i || k == j)
  }

  ghost predicate BuildExecuteFinalize(requests: seq<Request>, i: nat, j: nat, k: nat)
    requires i < |requests| && j < |requests| && k < |requests|
  {
    && requests[i].BuildRequest? && requests[j].ExecuteRequest? && requests[k].FinalizeRequest?
    && forall n :: 0 <= n < |requests| ==> (Succeeds(requests, n) <==> n == i || n == j || n == k)
  }
}
