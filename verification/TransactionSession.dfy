/** A session that builds a chain and simulates one transaction on it. */
module TransactionSession {
  import opened Common
  import opened Text
  import opened ContextTracker
  import opened MockChain

  datatype TransactionConfig = TransactionConfig(accountId: nat, inputNotes: seq<nat>, txScript: Option<string>)

  datatype TraceEvent =
    | Step(sourcePath: string, line: nat, contextId: nat)
    | Call(functionName: string, isKernel: bool, contextId: nat)
    | Return(contextId: nat)
    | Variable(name: string, value: string, contextId: nat)
    | ContextSwitch(from: Option<nat>, to: nat, kind: ContextKind)

  datatype Status = Created | ChainBuilt | Executed | Completed | Failed(message: string)

  datatype Refusal = WrongState(status: Status) | ChainNotBuilt | AccountMissing(accountId: nat) | NoteMissing(noteId: nat) | SummaryNotWritten
  datatype Outcome = Done | Refused(refusal: Refusal)

  // ----- What a transaction does, action by action -----

  datatype Action = Enter(switch: Switch) | Emit(event: TraceEvent)

  /** A context id is an index cut to 32 bits. */
  function ContextAt(i: nat): nat { i % U32_RANGE }

  const KERNEL := 0

  function Prologue(): seq<Action> {
    [Enter(Switch(KERNEL, Kernel, 0)),
     Emit(ContextSwitch(None, KERNEL, Kernel)),
     Emit(Call("#sys::prologue", true, KERNEL)),
     Emit(Return(KERNEL))]
  }

  /** A note script starts and does some steps. */
  function NoteStart(noteId: nat, ctx: nat, clock: nat): seq<Action> {
    [Enter(Switch(ctx, NoteScript(noteId), clock)),
     Emit(ContextSwitch(Some(KERNEL), ctx, NoteScript(noteId))),
     Emit(Call("note_script_" + Decimal(noteId), false, ctx)),
     Emit(Step("note_script.masm", 1, ctx)),
     Emit(Variable("note_input_0", "42", ctx))]
  }

  /** It calls the kernel and returns. */
  function NoteInputs(noteId: nat, ctx: nat, clock: nat): seq<Action> {
    [Enter(Switch(KERNEL, Kernel, clock)),
     Emit(ContextSwitch(Some(ctx), KERNEL, Kernel)),
     Emit(Call("miden::note::get_inputs", true, KERNEL)),
     Emit(Return(KERNEL)),
     Enter(Switch(ctx, NoteScript(noteId), clock + 20)),
     Emit(Return(ctx))]
  }

  function NoteActions(noteId: nat, ctx: nat, clock: nat): seq<Action> {
    NoteStart(noteId, ctx, clock) + NoteInputs(noteId, ctx, clock + 50)
  }

  function NoteScripts(notes: seq<nat>): seq<Action> {
    if notes == [] then []
    else NoteScripts(Front(notes)) + NoteActions(Last(notes), ContextAt(|notes|), 100 * |notes|)
  }

  function AccountActions(accountId: nat, ctx: nat, clock: nat): seq<Action> {
    [Enter(Switch(ctx, AccountCode(accountId), clock)),
     Emit(ContextSwitch(Some(KERNEL), ctx, AccountCode(accountId))),
     Emit(Call("account::receive_asset", false, ctx)),
     Emit(Step("account.masm", 5, ctx)),
     Enter(Switch(KERNEL, Kernel, clock)),
     Emit(Call("miden::kernel::account_vault_add_asset", true, KERNEL)),
     Emit(Return(KERNEL)),
     Enter(Switch(ctx, AccountCode(accountId), clock + 30)),
     Emit(Return(ctx))]
  }

  function ScriptActions(from: nat, ctx: nat, clock: nat): seq<Action> {
    [Enter(Switch(ctx, TxScript, clock)),
     Emit(ContextSwitch(Some(from), ctx, TxScript)),
     Emit(Call("tx_script::main", false, ctx)),
     Emit(Step("tx_script.masm", 1, ctx)),
     Emit(Return(ctx))]
  }

  function Epilogue(clock: nat): seq<Action> {
    [Enter(Switch(KERNEL, Kernel, clock)),
     Emit(Call("#sys::epilogue", true, KERNEL)),
     Emit(Return(KERNEL))]
  }

  /** The optional transaction script, then the epilogue. */
  function Tail(scripted: bool, from: nat, ctx: nat, clock: nat): seq<Action> {
    if scripted then ScriptActions(from, ctx, clock) + Epilogue(clock + 40) else Epilogue(clock)
  }

  function Actions(tx: TransactionConfig): seq<Action> {
    var n := |tx.inputNotes|;
    Prologue() + NoteScripts(tx.inputNotes)
    + AccountActions(tx.accountId, ContextAt(n + 1), 100 + 100 * n)
    + Tail(tx.txScript.Some?, ContextAt(n + 1), ContextAt(n + 2), 150 + 100 * n)
  }

  // ----- Folding over actions -----

  /** Fold the first `k` actions. */
  function Upto<S>(step: (S, Action) -> S, s: S, actions: seq<Action>, k: nat): S
    requires k <= |actions|
    decreases k
  {
    if k == 0 then s else step(Upto(step, s, actions, k - 1), actions[k - 1])
  }

  function Through<S>(step: (S, Action) -> S, s: S, actions: seq<Action>): S {
    Upto(step, s, actions, |actions|)
  }

  lemma {:induction false} UptoPrefix<S>(step: (S, Action) -> S, s: S, a: seq<Action>, b: seq<Action>, k: nat)
    requires k <= |a|
    ensures Upto(step, s, a + b, k) == Upto(step, s, a, k)
  {
    if k > 0 {
      UptoPrefix(step, s, a, b, k - 1);
    }
  }

  lemma {:induction false} UptoBeyond<S>(step: (S, Action) -> S, s: S, a: seq<Action>, b: seq<Action>, k: nat)
    requires k <= |b|
    ensures Upto(step, s, a + b, |a| + k) == Upto(step, Through(step, s, a), b, k)
  {
    if k == 0 {
      UptoPrefix(step, s, a, b, |a|);
    } else {
      UptoBeyond(step, s, a, b, k - 1);
      assert (a + b)[|a| + k - 1] == b[k - 1];
    }
  }

  lemma ThroughConcat<S>(step: (S, Action) -> S, s: S, a: seq<Action>, b: seq<Action>)
    ensures Through(step, s, a + b) == Through(step, Through(step, s, a), b)
  {
    UptoBeyond(step, s, a, b, |b|);
  }

  /** What a session has recorded so far. */
  datatype Recording = Recording(tracker: Tracker, events: seq<TraceEvent>)

  const BLANK := Recording(NEW_TRACKER, [])

  function Perform(r: Recording, a: Action): Recording {
    match a
    case Enter(s) => r.(tracker := SwitchTo(r.tracker, s))
    case Emit(e) => r.(events := r.events + [e])
  }

  // ----- The session -----

  datatype Session = Session(status: Status, chain: Option<Chain>, recording: Recording)

  const NEW_SESSION := Session(Created, None, BLANK)

  /** The first note the chain does not have. */
  function FirstMissing(notes: map<nat, Note>, ids: seq<nat>): Option<nat> {
    if ids == [] then None else if ids[0] !in notes then Some(ids[0]) else FirstMissing(notes, ids[1..])
  }

  function Execute(s: Session, tx: TransactionConfig): (Session, Outcome) {
    if s.status != ChainBuilt then (s, Refused(WrongState(s.status)))
    else if s.chain.None? then (s, Refused(ChainNotBuilt))
    else if tx.accountId !in s.chain.value.accounts then (s, Refused(AccountMissing(tx.accountId)))
    else
      match FirstMissing(s.chain.value.notes, tx.inputNotes)
      case Some(id) => (s, Refused(NoteMissing(id)))
      case None =>
        (Session(Executed,
                 Some(WithTransaction(s.chain.value, Transaction(tx.accountId, tx.inputNotes, true))),
                 Through(Perform, s.recording, Actions(tx))), Done)
  }

  // ----- What an execution means, field by field -----

  /** The chain after a transaction: its notes consumed, the transaction in the last block, all else as before. */
  ghost predicate SettledBy(before: Chain, tx: TransactionConfig, after: Chain) {
    var record := Transaction(tx.accountId, tx.inputNotes, true);
    && after.accounts == before.accounts && after.blockNumber == before.blockNumber
    && after.notes.Keys == before.notes.Keys
    && (forall id :: id in before.notes ==>
          var was, now := before.notes[id], after.notes[id];
          && now.id == was.id && now.sender == was.sender && now.assets == was.assets && now.noteType == was.noteType
          && (now.consumed <==> was.consumed || id in tx.inputNotes))
    && (before.blocks == [] ==> after.blocks == [Block(before.blockNumber, [record])])
    && (before.blocks != [] ==>
          && |after.blocks| == |before.blocks| && Front(after.blocks) == Front(before.blocks)
          && Last(after.blocks).number == Last(before.blocks).number
          && Last(after.blocks).transactions == Last(before.blocks).transactions + [record])
  }

  /** A session can execute a transaction: its chain is built and has the account and every note. */
  ghost predicate CanExecute(s: Session, tx: TransactionConfig) {
    && s.status == ChainBuilt && s.chain.Some?
    && tx.accountId in s.chain.value.accounts
    && forall i :: 0 <= i < |tx.inputNotes| ==> tx.inputNotes[i] in s.chain.value.notes
  }

  /** Why a session refuses a transaction; of several reasons the first. */
  ghost predicate IsReason(s: Session, tx: TransactionConfig, refusal: Refusal) {
    if s.status != ChainBuilt then refusal == WrongState(s.status)
    else if s.chain.None? then refusal == ChainNotBuilt
    else if tx.accountId !in s.chain.value.accounts then refusal == AccountMissing(tx.accountId)
    else
      && refusal.NoteMissing?
      && exists i :: 0 <= i < |tx.inputNotes| && tx.inputNotes[i] == refusal.noteId
           && refusal.noteId !in s.chain.value.notes
           && forall j :: 0 <= j < i ==> tx.inputNotes[j] in s.chain.value.notes
  }

  lemma {:induction false} FirstMissingIsFirst(notes: map<nat, Note>, ids: seq<nat>)
    ensures match FirstMissing(notes, ids)
            case None => forall i :: 0 <= i < |ids| ==> ids[i] in notes
            case Some(id) =>
              exists i :: 0 <= i < |ids| && ids[i] == id && id !in notes && forall j :: 0 <= j < i ==> ids[j] in notes
  {
    if ids != [] && ids[0] in notes {
      FirstMissingIsFirst(notes, ids[1..]);
      match FirstMissing(notes, ids)
      case None =>
        assert forall i :: 0 < i < |ids| ==> ids[i] == ids[1..][i - 1];
      case Some(id) =>
        var rest := ids[1..];
        var i :| 0 <= i < |rest| && rest[i] == id && id !in notes && forall j :: 0 <= j < i ==> rest[j] in notes;
        assert ids[i + 1] == id && forall j :: 0 < j < i + 1 ==> ids[j] == rest[j - 1];
    }
  }

  lemma TransactionSettles(c: Chain, tx: TransactionConfig)
    ensures SettledBy(c, tx, WithTransaction(c, Transaction(tx.accountId, tx.inputNotes, true)))
  {
    var after := WithTransaction(c, Transaction(tx.accountId, tx.inputNotes, true));
    if c.blocks != [] {
      assert Front(after.blocks) == Front(c.blocks);
    }
  }

  /** Execution succeeds exactly when it can, and a refusal changes nothing and names the first reason. */
  lemma ExecutionOutcome(s: Session, tx: TransactionConfig)
    ensures var (after, outcome) := Execute(s, tx);
            && (outcome.Done? <==> CanExecute(s, tx))
            && (outcome.Done? ==>
                  && after.status == Executed && after.recording == Through(Perform, s.recording, Actions(tx))
                  && after.chain.Some? && SettledBy(s.chain.value, tx, after.chain.value))
            && (outcome.Refused? ==> after == s && IsReason(s, tx, outcome.refusal))
  {
    hide SettledBy, WithTransaction, Actions, Through;
    if s.status == ChainBuilt && s.chain.Some? {
      FirstMissingIsFirst(s.chain.value.notes, tx.inputNotes);
      TransactionSettles(s.chain.value, tx);
    }
  }

  function Build(s: Session, chain: Chain): (Session, Outcome) {
    if s.status != Created then (s, Refused(WrongState(s.status)))
    else (s.(status := ChainBuilt, chain := Some(chain)), Done)
  }

  /** Finish a session; `written` says whether the summary file could be written. */
  function Finalize(s: Session, written: bool): (Session, Outcome) {
    if s.status != Executed then (s, Refused(WrongState(s.status)))
    else if !written then (s, Refused(SummaryNotWritten))
    else (s.(status := Completed), Done)
  }

  class ContractTraceSession {
    const config: Config
    var chain: MockChainState?
    const contextTracker: ExecutionContextTracker
    var status: Status
    var traceEvents: seq<TraceEvent>

    ghost function Recorded(): Recording
      reads this`traceEvents, contextTracker
    {
      Recording(contextTracker.Abs(), traceEvents)
    }

    ghost function Abs(): Session
      reads this, contextTracker, chain
    {
      Session(status, if chain == null then None else Some(chain.Abs()), Recorded())
    }

    constructor (config: Config)
      ensures this.config == config && Abs() == NEW_SESSION
      ensures fresh(contextTracker)
    {
      this.config := config;
      chain := null;
      contextTracker := new ExecutionContextTracker();
      status := Created;
      traceEvents := [];
    }

    /** Build the chain; swap notes are not forwarded to it. */
    method BuildChain() returns (outcome: Outcome)
      modifies this`chain, this`status
      ensures outcome.Refused? ==> Abs() == old(Abs()) && outcome.refusal == WrongState(old(status)) && old(status) != Created
      ensures outcome.Done? ==>
                && chain != null && fresh(chain)
                && (Abs(), Done) == Build(old(Abs()), chain.Abs())
                && IsIndexOf(chain.accounts, AccountId, AccountsOf(config))
                && IsIndexOf(chain.notes, NoteId, NotesOf(config.(swapNotes := [])))
                && AccountsBuilt(config, chain.accounts)
                && NotesBuilt(config.(swapNotes := []), chain.notes)
                && chain.blocks == [] && chain.blockNumber == 0
    {
      hide IsIndexOf, AccountsBuilt, NotesBuilt;
      if status != Created {
        return Refused(WrongState(status));
      }
      chain := new MockChainState(config.(swapNotes := []));
      assert AccountsOf(config.(swapNotes := [])) == AccountsOf(config);
      AccountsMean(config, chain.accounts);
      status := ChainBuilt;
      return Done;
    }

    method RunPrologue()
      modifies this`traceEvents, contextTracker
      ensures Recorded() == Through(Perform, old(Recorded()), Prologue())
    {
      hide SwitchTo;
      contextTracker.SwitchContext(KERNEL, Kernel, 0);
      traceEvents := traceEvents + [ContextSwitch(None, KERNEL, Kernel)];
      traceEvents := traceEvents + [Call("#sys::prologue", true, KERNEL)];
      traceEvents := traceEvents + [Return(KERNEL)];
      assert Recorded() == Upto(Perform, old(Recorded()), Prologue(), 4);
    }

    method StartNote(noteId: nat, noteCtx: nat, clock: nat)
      modifies this`traceEvents, contextTracker
      ensures Recorded() == Through(Perform, old(Recorded()), NoteStart(noteId, noteCtx, clock))
    {
      hide SwitchTo, Decimal;
      contextTracker.SwitchContext(noteCtx, NoteScript(noteId), clock);
      traceEvents := traceEvents + [ContextSwitch(Some(KERNEL), noteCtx, NoteScript(noteId))];
      traceEvents := traceEvents + [Call("note_script_" + Decimal(noteId), false, noteCtx)];
      traceEvents := traceEvents + [Step("note_script.masm", 1, noteCtx)];
      traceEvents := traceEvents + [Variable("note_input_0", "42", noteCtx)];
      assert Recorded() == Upto(Perform, old(Recorded()), NoteStart(noteId, noteCtx, clock), 5);
    }

    method ReadNoteInputs(noteId: nat, noteCtx: nat, start: nat) returns (clock: nat)
      modifies this`traceEvents, contextTracker
      ensures Recorded() == Through(Perform, old(Recorded()), NoteInputs(noteId, noteCtx, start))
      ensures clock == start + 20
    {
      hide SwitchTo;
      clock := start;
      contextTracker.SwitchContext(KERNEL, Kernel, clock);
      traceEvents := traceEvents + [ContextSwitch(Some(noteCtx), KERNEL, Kernel)];
      traceEvents := traceEvents + [Call("miden::note::get_inputs", true, KERNEL)];
      clock := clock + 20;
      traceEvents := traceEvents + [Return(KERNEL)];
      contextTracker.SwitchContext(noteCtx, NoteScript(noteId), clock);
      traceEvents := traceEvents + [Return(noteCtx)];
      assert Recorded() == Upto(Perform, old(Recorded()), NoteInputs(noteId, noteCtx, start), 6);
    }

    method RunNote(noteId: nat, noteCtx: nat, start: nat) returns (clock: nat)
      modifies this`traceEvents, contextTracker
      ensures Recorded() == Through(Perform, old(Recorded()), NoteActions(noteId, noteCtx, start))
      ensures clock == start + 100
    {
      hide Perform, Upto, NoteStart, NoteInputs;
      StartNote(noteId, noteCtx, start);
      clock := start + 50;
      clock := ReadNoteInputs(noteId, noteCtx, clock);
      clock := clock + 30;
      ThroughConcat(Perform, old(Recorded()), NoteStart(noteId, noteCtx, start), NoteInputs(noteId, noteCtx, start + 50));
    }

    method RunAccount(accountId: nat, accountCtx: nat, start: nat) returns (clock: nat)
      modifies this`traceEvents, contextTracker
      ensures Recorded() == Through(Perform, old(Recorded()), AccountActions(accountId, accountCtx, start))
      ensures clock == start + 50
    {
      hide SwitchTo;
      clock := start;
      contextTracker.SwitchContext(accountCtx, AccountCode(accountId), clock);
      traceEvents := traceEvents + [ContextSwitch(Some(KERNEL), accountCtx, AccountCode(accountId))];
      traceEvents := traceEvents + [Call("account::receive_asset", false, accountCtx)];
      traceEvents := traceEvents + [Step("account.masm", 5, accountCtx)];
      assert Recorded() == Upto(Perform, old(Recorded()), AccountActions(accountId, accountCtx, start), 4);
      contextTracker.SwitchContext(KERNEL, Kernel, clock);
      traceEvents := traceEvents + [Call("miden::kernel::account_vault_add_asset", true, KERNEL)];
      clock := clock + 30;
      traceEvents := traceEvents + [Return(KERNEL)];
      contextTracker.SwitchContext(accountCtx, AccountCode(accountId), clock);
      traceEvents := traceEvents + [Return(accountCtx)];
      clock := clock + 20;
      assert Recorded() == Upto(Perform, old(Recorded()), AccountActions(accountId, accountCtx, start), 9);
    }

    method RunScript(accountCtx: nat, scriptCtx: nat, start: nat) returns (clock: nat)
      modifies this`traceEvents, contextTracker
      ensures Recorded() == Through(Perform, old(Recorded()), ScriptActions(accountCtx, scriptCtx, start))
      ensures clock == start + 40
    {
      hide SwitchTo;
      clock := start;
      contextTracker.SwitchContext(scriptCtx, TxScript, clock);
      traceEvents := traceEvents + [ContextSwitch(Some(accountCtx), scriptCtx, TxScript)];
      traceEvents := traceEvents + [Call("tx_script::main", false, scriptCtx)];
      traceEvents := traceEvents + [Step("tx_script.masm", 1, scriptCtx)];
      clock := clock + 40;
      traceEvents := traceEvents + [Return(scriptCtx)];
      assert Recorded() == Upto(Perform, old(Recorded()), ScriptActions(accountCtx, scriptCtx, start), 5);
    }

    method RunEpilogue(clock: nat)
      modifies this`traceEvents, contextTracker
      ensures Recorded() == Through(Perform, old(Recorded()), Epilogue(clock))
    {
      hide SwitchTo;
      contextTracker.SwitchContext(KERNEL, Kernel, clock);
      traceEvents := traceEvents + [Call("#sys::epilogue", true, KERNEL)];
      traceEvents := traceEvents + [Return(KERNEL)];
      assert Recorded() == Upto(Perform, old(Recorded()), Epilogue(clock), 3);
    }

    /** The prologue and every note script. */
    method RunNotes(notes: seq<nat>) returns (clock: nat)
      modifies this`traceEvents, contextTracker
      ensures Recorded() == Through(Perform, old(Recorded()), Prologue() + NoteScripts(notes))
      ensures clock == 100 + 100 * |notes|
    {
      hide Perform, Upto, Prologue, NoteActions;
      ghost var start := Recorded();
      RunPrologue();
      clock := 100;
      assert notes[..0] == [] && Prologue() + NoteScripts([]) == Prologue();
      for i := 0 to |notes|
        invariant Recorded() == Through(Perform, start, Prologue() + NoteScripts(notes[..i]))
        invariant clock == 100 + 100 * i
      {
        ghost var clocked := clock;
        clock := RunNote(notes[i], ContextAt(i + 1), clock);
        ghost var last := NoteActions(notes[i], ContextAt(i + 1), clocked);
        NoteScriptsNext(notes, i);
        ThroughConcat(Perform, start, Prologue() + NoteScripts(notes[..i]), last);
        assert Prologue() + NoteScripts(notes[..i]) + last == Prologue() + (NoteScripts(notes[..i]) + last);
      }
      assert notes[..|notes|] == notes;
    }

    /** The transaction script, if there is one, and the epilogue. */
    method RunTail(scripted: bool, from: nat, ctx: nat, start: nat)
      modifies this`traceEvents, contextTracker
      ensures Recorded() == Through(Perform, old(Recorded()), Tail(scripted, from, ctx, start))
    {
      hide Perform, Upto, ScriptActions, Epilogue;
      var clock := start;
      if scripted {
        clock := RunScript(from, ctx, clock);
        ThroughConcat(Perform, old(Recorded()), ScriptActions(from, ctx, start), Epilogue(clock));
      }
      RunEpilogue(clock);
    }

    method ExecuteTransaction(tx: TransactionConfig) returns (outcome: Outcome)
      modifies this`status, this`traceEvents, contextTracker, chain
      ensures (Abs(), outcome) == Execute(old(Abs()), tx)
      ensures outcome.Done? <==> CanExecute(old(Abs()), tx)
      ensures outcome.Done? ==> status == Executed && chain != null && SettledBy(old(Abs()).chain.value, tx, chain.Abs())
      ensures outcome.Refused? ==> Abs() == old(Abs()) && IsReason(old(Abs()), tx, outcome.refusal)
    {
      ExecutionOutcome(Abs(), tx);
      hide CanExecute, SettledBy, IsReason;
      hide Perform, Upto, Prologue, NoteScripts, AccountActions, Tail, ContextAt, Consumed;
      if status != ChainBuilt {
        return Refused(WrongState(status));
      }
      if chain == null {
        return Refused(ChainNotBuilt);
      }
      if tx.accountId !in chain.accounts {
        return Refused(AccountMissing(tx.accountId));
      }
      for i := 0 to |tx.inputNotes|
        invariant FirstMissing(chain.notes, tx.inputNotes) == FirstMissing(chain.notes, tx.inputNotes[i..])
      {
        assert tx.inputNotes[i..][1..] == tx.inputNotes[i + 1..];
        if tx.inputNotes[i] !in chain.notes {
          return Refused(NoteMissing(tx.inputNotes[i]));
        }
      }
      ghost var start, n := Recorded(), |tx.inputNotes|;
      var accountCtx := ContextAt(|tx.inputNotes| + 1);
      var clock := RunNotes(tx.inputNotes);
      ThroughConcat(Perform, start, Prologue() + NoteScripts(tx.inputNotes), AccountActions(tx.accountId, accountCtx, clock));
      clock := RunAccount(tx.accountId, accountCtx, clock);
      ThroughConcat(Perform, start,
                    Prologue() + NoteScripts(tx.inputNotes) + AccountActions(tx.accountId, accountCtx, 100 + 100 * n),
                    Tail(tx.txScript.Some?, accountCtx, ContextAt(n + 2), clock));
      RunTail(tx.txScript.Some?, accountCtx, ContextAt(|tx.inputNotes| + 2), clock);
      chain.RecordTransaction(Transaction(tx.accountId, tx.inputNotes, true));
      status := Executed;
      return Done;
    }

    /** Writing the summary is the caller's; here it only decides the outcome. */
    method FinalizeSession(written: bool) returns (outcome: Outcome)
      modifies this`status
      ensures (Abs(), outcome) == Finalize(old(Abs()), written)
    {
      if status != Executed {
        return Refused(WrongState(status));
      }
      if !written {
        return Refused(SummaryNotWritten);
      }
      status := Completed;
      return Done;
    }
  }

  lemma NoteScriptsNext(notes: seq<nat>, i: nat)
    requires i < |notes|
    ensures NoteScripts(notes[..i + 1]) == NoteScripts(notes[..i]) + NoteActions(notes[i], ContextAt(i + 1), 100 + 100 * i)
  {
    assert Front(notes[..i + 1]) == notes[..i];
  }
}
