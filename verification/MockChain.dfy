/** The simulated chain: accounts, notes and the block transactions go into. */
module MockChain {
  import opened Common

  datatype Asset = Asset(faucetId: nat, amount: nat)
  datatype NoteType = Public | Private | Encrypted

  datatype Wallet = Wallet(id: nat, assets: seq<Asset>)
  datatype Faucet = Faucet(id: nat, symbol: string, maxSupply: nat, initialSupply: nat)
  datatype P2IdNote = P2IdNote(id: nat, sender: nat, receiver: nat, assets: seq<Asset>, noteType: NoteType, aux: nat)
  datatype SwapNote = SwapNote(id: nat, sender: nat, offered: seq<Asset>, requested: seq<Asset>, noteType: NoteType, aux: nat)
  datatype OutputNote = OutputNote(id: nat, sender: nat, assets: seq<Asset>, noteType: NoteType)

  datatype Config = Config(
    wallets: seq<Wallet>,
    faucets: seq<Faucet>,
    p2idNotes: seq<P2IdNote>,
    swapNotes: seq<SwapNote>,
    outputNotes: seq<OutputNote>)

  datatype AccountKind = WalletAccount | FaucetAccount(symbol: string, maxSupply: nat, currentSupply: nat)
  datatype Account = Account(id: nat, kind: AccountKind, assets: seq<Asset>)
  datatype Note = Note(id: nat, sender: nat, assets: seq<Asset>, noteType: NoteType, consumed: bool)
  datatype Transaction = Transaction(accountId: nat, consumedNotes: seq<nat>, success: bool)
  datatype Block = Block(number: nat, transactions: seq<Transaction>)

  datatype Chain = Chain(accounts: map<nat, Account>, notes: map<nat, Note>, blocks: seq<Block>, blockNumber: nat)

  // ----- Building -----

  function WalletState(w: Wallet): Account { Account(w.id, WalletAccount, w.assets) }
  function FaucetState(f: Faucet): Account {
    Account(f.id, FaucetAccount(f.symbol, f.maxSupply, f.initialSupply), [])
  }
  function P2IdState(n: P2IdNote): Note { Note(n.id, n.sender, n.assets, n.noteType, false) }
  function SwapState(n: SwapNote): Note { Note(n.id, n.sender, n.offered, n.noteType, false) }
  function OutputState(n: OutputNote): Note { Note(n.id, n.sender, n.assets, n.noteType, false) }

  function Mapped<T, U>(f: T -> U, s: seq<T>): seq<U> {
    seq(|s|, i requires 0 <= i < |s| => f(s[i]))
  }

  function AccountsOf(config: Config): seq<Account> {
    Mapped(WalletState, config.wallets) + Mapped(FaucetState, config.faucets)
  }

  function NotesOf(config: Config): seq<Note> {
    Mapped(P2IdState, config.p2idNotes) + Mapped(SwapState, config.swapNotes) + Mapped(OutputState, config.outputNotes)
  }

  /** `m` holds the entries of `s` under their ids, a later one over an earlier. */
  ghost predicate IsIndexOf<T>(m: map<nat, T>, id: T -> nat, s: seq<T>) {
    && (forall k :: k in m ==> exists i :: 0 <= i < |s| && id(s[i]) == k)
    && (forall i :: 0 <= i < |s| && NoneAfter(id, s, i) ==> id(s[i]) in m && m[id(s[i])] == s[i])
  }

  predicate NoneAfter<T>(id: T -> nat, s: seq<T>, i: nat)
    requires i < |s|
  {
    forall j :: i < j < |s| ==> id(s[j]) != id(s[i])
  }

  lemma {:induction false} EveryIdHasALast<T>(id: T -> nat, s: seq<T>, i: nat) returns (last: nat)
    requires i < |s|
    ensures i <= last < |s| && id(s[last]) == id(s[i]) && NoneAfter(id, s, last)
    decreases |s| - i
  {
    if NoneAfter(id, s, i) {
      last := i;
    } else {
      var j :| i < j < |s| && id(s[j]) == id(s[i]);
      last := EveryIdHasALast(id, s, j);
    }
  }

  /** An index is determined by the entries. */
  lemma IndexUnique<T>(m: map<nat, T>, n: map<nat, T>, id: T -> nat, s: seq<T>)
    requires IsIndexOf(m, id, s) && IsIndexOf(n, id, s)
    ensures m == n
  {
    forall k | k in m || k in n
      ensures k in m && k in n && m[k] == n[k]
    {
      var i :| 0 <= i < |s| && id(s[i]) == k;
      var last := EveryIdHasALast(id, s, i);
    }
  }

  lemma IndexGrows<T>(m: map<nat, T>, id: T -> nat, s: seq<T>, x: T)
    requires IsIndexOf(m, id, s)
    ensures IsIndexOf(m[id(x) := x], id, s + [x])
  {
    var t, n := s + [x], m[id(x) := x];
    assert forall i :: 0 <= i < |s| ==> t[i] == s[i];
    assert t[|s|] == x;
    forall i | 0 <= i < |t| && NoneAfter(id, t, i)
      ensures id(t[i]) in n && n[id(t[i])] == t[i]
    {
      if i < |s| {
        assert NoneAfter(id, s, i);
        assert id(t[|s|]) != id(t[i]);
      }
    }
    forall k | k in n
      ensures exists i :: 0 <= i < |t| && id(t[i]) == k
    {
      if k == id(x) {
        assert id(t[|s|]) == k;
      } else {
        var i :| 0 <= i < |s| && id(s[i]) == k;
        assert id(t[i]) == k;
      }
    }
  }

  lemma EmptyIndex<T>(id: T -> nat)
    ensures IsIndexOf(map[], id, [])
  {
  }

  function AccountId(a: Account): nat { a.id }
  function NoteId(n: Note): nat { n.id }

  lemma MappedNext<T, U>(f: T -> U, before: seq<U>, s: seq<T>, i: nat)
    requires i < |s|
    ensures before + Mapped(f, s[..i + 1]) == before + Mapped(f, s[..i]) + [f(s[i])]
  {
  }

  lemma MappedAll<T, U>(f: T -> U, before: seq<U>, s: seq<T>)
    ensures before + Mapped(f, s[..0]) == before && s[..|s|] == s
  {
  }

  // ----- What a built chain holds, field by field -----

  ghost function IdSet<T>(id: T -> nat, s: seq<T>): set<nat> {
    set i | 0 <= i < |s| :: id(s[i])
  }

  /** The last entry of each id is in the map as `state` gives it, unless a later list has the id. */
  ghost predicate Built<S, T>(m: map<nat, T>, key: S -> nat, state: S -> T, entries: seq<S>, later: set<nat>) {
    forall i :: 0 <= i < |entries| ==> BuiltAt(m, key, state, entries, later, i)
  }

  ghost predicate BuiltAt<S, T>(m: map<nat, T>, key: S -> nat, state: S -> T, entries: seq<S>, later: set<nat>, i: nat)
    requires i < |entries|
  {
    var k := key(entries[i]);
    (forall j :: i < j < |entries| ==> key(entries[j]) != k) && k !in later ==> k in m && m[k] == state(entries[i])
  }

  /** Every account stems from a wallet or a faucet, the last of its id, faucets before wallets. */
  ghost predicate AccountsBuilt(config: Config, m: map<nat, Account>) {
    var walletIds, faucetIds := IdSet((w: Wallet) => w.id, config.wallets), IdSet((f: Faucet) => f.id, config.faucets);
    && m.Keys == walletIds + faucetIds
    && Built(m, (w: Wallet) => w.id, (w: Wallet) => Account(w.id, WalletAccount, w.assets), config.wallets, faucetIds)
    && Built(m, (f: Faucet) => f.id,
             (f: Faucet) => Account(f.id, FaucetAccount(f.symbol, f.maxSupply, f.initialSupply), []), config.faucets, {})
  }

  /** Every note stems from a configured one, the last of its id, unconsumed; a swap note holds what it offers. */
  ghost predicate NotesBuilt(config: Config, m: map<nat, Note>) {
    var p2idIds := IdSet((n: P2IdNote) => n.id, config.p2idNotes);
    var swapIds := IdSet((n: SwapNote) => n.id, config.swapNotes);
    var outputIds := IdSet((n: OutputNote) => n.id, config.outputNotes);
    && m.Keys == p2idIds + swapIds + outputIds
    && Built(m, (n: P2IdNote) => n.id, (n: P2IdNote) => Note(n.id, n.sender, n.assets, n.noteType, false), config.p2idNotes, swapIds + outputIds)
    && Built(m, (n: SwapNote) => n.id, (n: SwapNote) => Note(n.id, n.sender, n.offered, n.noteType, false), config.swapNotes, outputIds)
    && Built(m, (n: OutputNote) => n.id, (n: OutputNote) => Note(n.id, n.sender, n.assets, n.noteType, false), config.outputNotes, {})
  }

  lemma BuiltPart<S, T>(m: map<nat, T>, id: T -> nat, before: seq<T>, f: S -> T, key: S -> nat, state: S -> T,
                        entries: seq<S>, after: seq<T>, later: set<nat>)
    requires IsIndexOf(m, id, before + Mapped(f, entries) + after)
    requires forall s :: id(f(s)) == key(s) && f(s) == state(s)
    requires IdSet(id, after) <= later
    ensures Built(m, key, state, entries, later)
  {
    hide IsIndexOf;
    forall i | 0 <= i < |entries| ensures BuiltAt(m, key, state, entries, later, i) {
      var k := key(entries[i]);
      if (forall j :: i < j < |entries| ==> key(entries[j]) != k) && k !in later {
        Indexed(m, id, before, Mapped(f, entries), after, i);
      }
    }
  }

  /** An entry is indexed when nothing after it has its id. */
  lemma Indexed<T>(m: map<nat, T>, id: T -> nat, before: seq<T>, here: seq<T>, after: seq<T>, i: nat)
    requires IsIndexOf(m, id, before + here + after) && i < |here|
    requires forall j :: i < j < |here| ==> id(here[j]) != id(here[i])
    requires id(here[i]) !in IdSet(id, after)
    ensures id(here[i]) in m && m[id(here[i])] == here[i]
  {
    var all, k := before + here + after, |before| + i;
    assert all[k] == here[i];
    forall j | k < j < |all| ensures id(all[j]) != id(all[k]) {
      if j < |before + here| {
        assert all[j] == here[j - |before|];
      } else {
        assert all[j] == after[j - |before + here|];
      }
    }
    assert NoneAfter(id, all, k);
  }

  lemma KeysOfIndex<T>(m: map<nat, T>, id: T -> nat, s: seq<T>)
    requires IsIndexOf(m, id, s)
    ensures forall k :: k in m <==> exists i :: 0 <= i < |s| && id(s[i]) == k
  {
    forall i | 0 <= i < |s| ensures id(s[i]) in m {
      var last := EveryIdHasALast(id, s, i);
    }
  }

  lemma KeysOfParts<T>(m: map<nat, T>, id: T -> nat, a: seq<T>, b: seq<T>)
    requires IsIndexOf(m, id, a + b)
    ensures m.Keys == IdSet(id, a) + IdSet(id, b)
  {
    KeysOfIndex(m, id, a + b);
    IdsOfConcat(id, a, b);
  }

  lemma IdsOfConcat<T>(id: T -> nat, a: seq<T>, b: seq<T>)
    ensures IdSet(id, a + b) == IdSet(id, a) + IdSet(id, b)
  {
    forall i | 0 <= i < |a| ensures id(a[i]) in IdSet(id, a + b) {
      assert (a + b)[i] == a[i];
    }
    forall i | 0 <= i < |b| ensures id(b[i]) in IdSet(id, a + b) {
      assert (a + b)[|a| + i] == b[i];
    }
  }

  lemma IdsOfMapped<S, T>(id: T -> nat, f: S -> T, key: S -> nat, entries: seq<S>)
    requires forall s :: id(f(s)) == key(s)
    ensures IdSet(id, Mapped(f, entries)) == IdSet(key, entries)
  {
    var xs := Mapped(f, entries);
    assert forall i :: 0 <= i < |entries| ==> id(xs[i]) == key(entries[i]);
  }

  lemma AccountsMean(config: Config, m: map<nat, Account>)
    requires IsIndexOf(m, AccountId, AccountsOf(config))
    ensures AccountsBuilt(config, m)
  {
    hide IsIndexOf, Built, Mapped, IdSet;
    var ws, fs := Mapped(WalletState, config.wallets), Mapped(FaucetState, config.faucets);
    KeysOfParts(m, AccountId, ws, fs);
    IdsOfMapped(AccountId, WalletState, (w: Wallet) => w.id, config.wallets);
    IdsOfMapped(AccountId, FaucetState, (f: Faucet) => f.id, config.faucets);
    NoIds(AccountId);
    assert [] + ws + fs == AccountsOf(config) && ws + fs + [] == AccountsOf(config);
    BuiltPart(m, AccountId, [], WalletState, (w: Wallet) => w.id, (w: Wallet) => Account(w.id, WalletAccount, w.assets),
              config.wallets, fs, IdSet((f: Faucet) => f.id, config.faucets));
    BuiltPart(m, AccountId, ws, FaucetState, (f: Faucet) => f.id,
              (f: Faucet) => Account(f.id, FaucetAccount(f.symbol, f.maxSupply, f.initialSupply), []), config.faucets, [], {});
  }

  lemma NoIds<T>(id: T -> nat)
    ensures IdSet(id, []) == {}
  {
  }

  lemma NotesMean(config: Config, m: map<nat, Note>)
    requires IsIndexOf(m, NoteId, NotesOf(config))
    ensures NotesBuilt(config, m)
  {
    hide IsIndexOf, Built, Mapped, IdSet;
    var ps, ss, os := Mapped(P2IdState, config.p2idNotes), Mapped(SwapState, config.swapNotes), Mapped(OutputState, config.outputNotes);
    var swapIds := IdSet((n: SwapNote) => n.id, config.swapNotes);
    var outputIds := IdSet((n: OutputNote) => n.id, config.outputNotes);
    KeysOfParts(m, NoteId, ps + ss, os);
    IdsOfConcat(NoteId, ps, ss);
    IdsOfConcat(NoteId, ss, os);
    IdsOfMapped(NoteId, P2IdState, (n: P2IdNote) => n.id, config.p2idNotes);
    IdsOfMapped(NoteId, SwapState, (n: SwapNote) => n.id, config.swapNotes);
    IdsOfMapped(NoteId, OutputState, (n: OutputNote) => n.id, config.outputNotes);
    NoIds(NoteId);
    assert [] + ps + (ss + os) == NotesOf(config) && ps + ss + os + [] == NotesOf(config);
    BuiltPart(m, NoteId, [], P2IdState, (n: P2IdNote) => n.id, (n: P2IdNote) => Note(n.id, n.sender, n.assets, n.noteType, false),
              config.p2idNotes, ss + os, swapIds + outputIds);
    BuiltPart(m, NoteId, ps, SwapState, (n: SwapNote) => n.id, (n: SwapNote) => Note(n.id, n.sender, n.offered, n.noteType, false),
              config.swapNotes, os, outputIds);
    BuiltPart(m, NoteId, ps + ss, OutputState, (n: OutputNote) => n.id, (n: OutputNote) => Note(n.id, n.sender, n.assets, n.noteType, false),
              config.outputNotes, [], {});
  }

  // ----- Recording -----

  /** The notes after those named are consumed; an unknown id changes nothing. */
  function Consumed(notes: map<nat, Note>, ids: seq<nat>): map<nat, Note> {
    map id | id in notes :: if id in ids then notes[id].(consumed := true) else notes[id]
  }

  function WithTransaction(c: Chain, t: Transaction): Chain {
    c.(notes := Consumed(c.notes, t.consumedNotes),
       blocks := if c.blocks == [] then [Block(c.blockNumber, [t])]
                 else Front(c.blocks) + [Last(c.blocks).(transactions := Last(c.blocks).transactions + [t])])
  }

  class MockChainState {
    var accounts: map<nat, Account>
    var notes: map<nat, Note>
    var blocks: seq<Block>
    var blockNumber: nat

    ghost function Abs(): Chain
      reads this
    {
      Chain(accounts, notes, blocks, blockNumber)
    }

    /** Build a chain: later accounts and notes replace earlier ones of the same id. */
    constructor (config: Config)
      ensures IsIndexOf(accounts, AccountId, AccountsOf(config))
      ensures IsIndexOf(notes, NoteId, NotesOf(config))
      ensures AccountsBuilt(config, accounts) && NotesBuilt(config, notes)
      ensures blocks == [] && blockNumber == 0
    {
      hide IsIndexOf, AccountsBuilt, NotesBuilt;
      accounts, notes, blocks, blockNumber := map[], map[], [], 0;
      new;
      AddWallets(config.wallets);
      AddFaucets(config.faucets, Mapped(WalletState, config.wallets));
      ghost var p2id, swaps := Mapped(P2IdState, config.p2idNotes), Mapped(SwapState, config.swapNotes);
      EmptyIndex(NoteId);
      AddNotes(config.p2idNotes, P2IdState, []);
      assert [] + p2id == p2id;
      AddNotes(config.swapNotes, SwapState, p2id);
      AddNotes(config.outputNotes, OutputState, p2id + swaps);
      AccountsMean(config, accounts);
      NotesMean(config, notes);
    }

    method AddWallets(wallets: seq<Wallet>)
      requires accounts == map[]
      modifies this`accounts
      ensures IsIndexOf(accounts, AccountId, Mapped(WalletState, wallets))
    {
      for i := 0 to |wallets|
        invariant IsIndexOf(accounts, AccountId, [] + Mapped(WalletState, wallets[..i]))
      {
        var account := WalletState(wallets[i]);
        MappedNext(WalletState, [], wallets, i);
        IndexGrows(accounts, AccountId, [] + Mapped(WalletState, wallets[..i]), account);
        accounts := accounts[account.id := account];
      }
      MappedAll(WalletState, [], wallets);
      assert [] + Mapped(WalletState, wallets) == Mapped(WalletState, wallets);
    }

    method AddFaucets(faucets: seq<Faucet>, ghost before: seq<Account>)
      requires IsIndexOf(accounts, AccountId, before)
      modifies this`accounts
      ensures IsIndexOf(accounts, AccountId, before + Mapped(FaucetState, faucets))
    {
      MappedAll(FaucetState, before, faucets);
      for i := 0 to |faucets|
        invariant IsIndexOf(accounts, AccountId, before + Mapped(FaucetState, faucets[..i]))
      {
        var account := FaucetState(faucets[i]);
        MappedNext(FaucetState, before, faucets, i);
        IndexGrows(accounts, AccountId, before + Mapped(FaucetState, faucets[..i]), account);
        accounts := accounts[account.id := account];
      }
    }

    /** One of the three note loops; `state` is the note each entry becomes. */
    method AddNotes<T>(entries: seq<T>, state: T -> Note, ghost before: seq<Note>)
      requires IsIndexOf(notes, NoteId, before)
      modifies this`notes
      ensures IsIndexOf(notes, NoteId, before + Mapped(state, entries))
    {
      MappedAll(state, before, entries);
      for i := 0 to |entries|
        invariant IsIndexOf(notes, NoteId, before + Mapped(state, entries[..i]))
      {
        var note := state(entries[i]);
        MappedNext(state, before, entries, i);
        IndexGrows(notes, NoteId, before + Mapped(state, entries[..i]), note);
        notes := notes[note.id := note];
      }
    }

    method RecordTransaction(record: Transaction)
      modifies this
      ensures Abs() == WithTransaction(old(Abs()), record)
    {
      ghost var before := notes;
      for i := 0 to |record.consumedNotes|
        invariant notes == Consumed(before, record.consumedNotes[..i])
        invariant accounts == old(accounts) && blocks == old(blocks) && blockNumber == old(blockNumber)
      {
        var id := record.consumedNotes[i];
        assert forall x :: x in record.consumedNotes[..i + 1] <==> x in record.consumedNotes[..i] || x == id;
        if id in notes {
          notes := notes[id := notes[id].(consumed := true)];
        }
      }
      assert record.consumedNotes[..|record.consumedNotes|] == record.consumedNotes;
      if blocks != [] {
        var block := Last(blocks);
        blocks := Front(blocks) + [block.(transactions := block.transactions + [record])];
      } else {
        blocks := [Block(blockNumber, [record])];
      }
    }

    method ProduceBlock()
      modifies this`blockNumber
      ensures Abs() == old(Abs()).(blockNumber := old(blockNumber) + 1)
    {
      blockNumber := blockNumber + 1;
    }
  }

  // ----- Every history of a chain -----

  datatype ChainStep = Record(transaction: Transaction) | Produce

  function ChainAfter(c: Chain, steps: seq<ChainStep>): Chain {
    if steps == [] then c
    else
      var before := ChainAfter(c, Front(steps));
      match Last(steps)
      case Record(t) => WithTransaction(before, t)
      case Produce => before.(blockNumber := before.blockNumber + 1)
  }

  function Recorded(step: ChainStep): Option<Transaction> {
    match step case Record(t) => Some(t) case Produce => None
  }

  /** How many blocks were produced before the first transaction. */
  function ProducedFirst(steps: seq<ChainStep>): nat {
    if steps == [] || steps[0].Record? then 0 else 1 + ProducedFirst(steps[1..])
  }

  lemma {:induction false} ProducedFirstExtends(steps: seq<ChainStep>, step: ChainStep)
    ensures ProducedFirst(steps + [step]) ==
              if Project(Recorded, steps) == [] && step.Produce? then ProducedFirst(steps) + 1 else ProducedFirst(steps)
    ensures Project(Recorded, steps) == [] ==> ProducedFirst(steps) == |steps|
  {
    if steps == [] {
      assert [step][1..] == [];
    } else {
      assert (steps + [step])[1..] == steps[1..] + [step];
      assert steps == [steps[0]] + steps[1..];
      ProjectConcat(Recorded, [steps[0]], steps[1..]);
      assert Front([steps[0]]) == [];
      if steps[0].Produce? {
        ProducedFirstExtends(steps[1..], step);
      }
    }
  }

  /** The one block that holds `recorded`, if anything is. */
  function OneBlock(number: nat, recorded: seq<Transaction>): seq<Block> {
    if recorded == [] then [] else [Block(number, recorded)]
  }

  lemma RecordInOneBlock(c: Chain, number: nat, recorded: seq<Transaction>, t: Transaction)
    requires c.blocks == OneBlock(number, recorded) && (recorded == [] ==> c.blockNumber == number)
    ensures WithTransaction(c, t).blocks == OneBlock(number, recorded + [t])
  {
    if recorded == [] {
      assert recorded + [t] == [t];
    } else {
      assert Front(c.blocks) == [] && Last(c.blocks) == Block(number, recorded);
    }
  }

  /**
   Producing a block opens no new one: however records and productions
   alternate, a chain that starts without blocks ends with at most one, which
   holds every transaction in order under the number current at the first.
   */
  lemma {:induction false} AllRecordsShareOneBlock(c: Chain, steps: seq<ChainStep>)
    requires c.blocks == []
    ensures ChainAfter(c, steps).blocks == OneBlock(c.blockNumber + ProducedFirst(steps), Project(Recorded, steps))
    ensures Project(Recorded, steps) == [] ==> ChainAfter(c, steps).blockNumber == c.blockNumber + |steps|
  {
    hide OneBlock, WithTransaction, ProducedFirst;
    if steps == [] {
      assert OneBlock(c.blockNumber + ProducedFirst([]), []) == [] by { NoBlock(c.blockNumber + ProducedFirst([])); }
    } else {
      var before, recorded, last := ChainAfter(c, Front(steps)), Project(Recorded, Front(steps)), Last(steps);
      AllRecordsShareOneBlock(c, Front(steps));
      ProducedFirstExtends(Front(steps), last);
      assert Front(steps) + [last] == steps;
      if last.Record? {
        RecordInOneBlock(before, c.blockNumber + ProducedFirst(Front(steps)), recorded, last.transaction);
        RecordKeepsNumber(before, last.transaction);
      } else {
        assert Project(Recorded, steps) == recorded + [] == recorded;
        if recorded == [] {
          NoBlock(c.blockNumber + ProducedFirst(Front(steps)));
          NoBlock(c.blockNumber + ProducedFirst(steps));
        }
      }
    }
  }

  lemma NoBlock(number: nat)
    ensures OneBlock(number, []) == []
  {
  }

  lemma RecordKeepsNumber(c: Chain, t: Transaction)
    ensures WithTransaction(c, t).blockNumber == c.blockNumber
  {
  }

  /** A note is consumed exactly when it was, or some recorded transaction names it; nothing else of it changes. */
  lemma {:induction false} ConsumedExactlyWhenNamed(c: Chain, steps: seq<ChainStep>, id: nat)
    requires id in c.notes
    ensures var after := ChainAfter(c, steps);
            && after.accounts == c.accounts && after.notes.Keys == c.notes.Keys
            && id in after.notes
            && after.notes[id] == c.notes[id].(consumed :=
                 c.notes[id].consumed || exists i :: 0 <= i < |steps| && Names(steps[i], id))
  {
    if steps != [] {
      ConsumedExactlyWhenNamed(c, Front(steps), id);
      var last := |steps| - 1;
      assert forall i :: 0 <= i < last ==> Front(steps)[i] == steps[i];
      if Names(steps[last], id) {
        assert exists i :: 0 <= i < |steps| && Names(steps[i], id);
      }
    }
  }

  predicate Names(step: ChainStep, id: nat) {
    step.Record? && id in step.transaction.consumedNotes
  }
}
