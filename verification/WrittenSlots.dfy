/**
 Which local slots of which frame a `loc_store` has written: the recorder keeps
 a stack of slot sets that follows the depth of its context stack.
 */
module WrittenSlots {
  import opened Common
  import opened Ancestry
  import opened CallInference
  import opened Text

  /** One slot set per frame, outermost first, the current frame's last. */
  type SlotStack = s: seq<set<nat>> | s != [] witness [{}]

  function Empties(n: nat): (s: seq<set<nat>>)
    ensures |s| == n && forall i :: 0 <= i < n ==> s[i] == {}
  {
    seq(n, i => {})
  }

  /**
   The slot sets after the context stack's depth changed from `|slots| - 1` to
   `depth`: a caller gets its set back, a new frame starts with none.
   */
  function Resized(slots: SlotStack, depth: nat): (r: SlotStack)
    ensures |r| == depth + 1
  {
    if depth + 1 < |slots| then slots[..depth + 1]
    else if depth + 1 == |slots| then Front(slots) + [{}]
    else slots + Empties(depth + 1 - |slots|)
  }

  function WithSlot(slots: SlotStack, slot: nat): (r: SlotStack)
    ensures |r| == |slots|
  {
    slots[|slots| - 1 := Last(slots) + {slot}]
  }

  // ----- Ownership, defined on the history alone -----

  /**
   A frame opened or closed in the emitted trace, or a slot stored. `Root` says
   that a context without a frame of its own starts to run right under the
   toplevel, and how many frames were closed to get there.
   */
  datatype SlotOp = Push | Pop | Store(slot: nat) | Root(closed: nat)

  /** The number of frames open after a history. */
  function Level(h: seq<SlotOp>): int {
    if h == [] then 0
    else Level(Front(h)) + (match Last(h) case Push => 1 case Pop => -1 case _ => 0)
  }

  /**
   Operation `i` stored `slot` while exactly `level` frames were open, and the
   frame then on top has not been closed since.
   */
  ghost predicate StoredAt(h: seq<SlotOp>, i: nat, level: int, slot: nat) {
    && i < |h|
    && h[i] == Store(slot)
    && Level(h[..i]) == level
    && forall j {:trigger h[..j]} :: i <= j <= |h| ==> Level(h[..j]) >= level
  }

  /** The frame open at `level` has stored `slot` itself. */
  ghost predicate Owns(h: seq<SlotOp>, level: int, slot: nat) {
    exists i :: StoredAt(h, i, level, slot)
  }

  /** The slot sets of the open frames, as a plain stack. */
  function FrameSlots(h: seq<SlotOp>): seq<set<nat>> {
    if h == [] then [{}]
    else
      var below := FrameSlots(Front(h));
      if below == [] then []
      else
        match Last(h)
        case Push => below + [{}]
        case Pop => Front(below)
        case Store(slot) => WithSlot(below, slot)
        case Root(_) => below
  }

  ghost predicate NeverBelowToplevel(h: seq<SlotOp>) {
    Level(h) >= 0 && (h != [] ==> NeverBelowToplevel(Front(h)))
  }

  // Default induction over the history costs more than the proof.
  lemma {:induction false} StoredAtExtend(h: seq<SlotOp>, op: SlotOp, i: nat, level: int, slot: nat)
    requires i <= |h|
    ensures StoredAt(h + [op], i, level, slot) <==>
            Level(h + [op]) >= level &&
            (if i < |h| then StoredAt(h, i, level, slot) else op == Store(slot) && Level(h) == level)
  {
    var h' := h + [op];
    var n := |h|;
    assert h'[..n + 1] == h' && h[..n] == h && Front(h') == h;
    assert forall j {:trigger h'[..j]} :: 0 <= j <= n ==> h'[..j] == h[..j];
    if i < n && StoredAt(h', i, level, slot) {
      forall j | i <= j <= n ensures Level(h[..j]) >= level { assert h'[..j] == h[..j]; }
    }
  }

  lemma OwnsExtend(h: seq<SlotOp>, op: SlotOp, level: int, slot: nat)
    ensures Owns(h + [op], level, slot) <==>
            Level(h + [op]) >= level && (Owns(h, level, slot) || (op == Store(slot) && Level(h) == level))
  {
    forall i: nat | i <= |h|
      ensures StoredAt(h + [op], i, level, slot) <==>
              Level(h + [op]) >= level &&
              (if i < |h| then StoredAt(h, i, level, slot) else op == Store(slot) && Level(h) == level)
    {
      StoredAtExtend(h, op, i, level, slot);
    }
    if op == Store(slot) && Level(h) == level && Level(h + [op]) >= level {
      assert StoredAt(h + [op], |h|, level, slot);
    }
  }

  lemma NothingAboveIsOwned(h: seq<SlotOp>, level: int, slot: nat)
    requires Level(h) < level
    ensures !Owns(h, level, slot)
  {
    assert h[..|h|] == h;
  }

  /** The plain stack holds, for every open frame, exactly the slots that frame owns. */
  lemma {:induction false} FrameSlotsAreOwned(h: seq<SlotOp>)
    requires NeverBelowToplevel(h)
    ensures |FrameSlots(h)| == Level(h) + 1
    ensures forall level, slot :: 0 <= level <= Level(h) ==> (slot in FrameSlots(h)[level] <==> Owns(h, level, slot))
  {
    if h != [] {
      FrameSlotsAreOwned(Front(h));
      assert Front(h) + [Last(h)] == h;
      forall level, slot: nat | 0 <= level <= Level(h) ensures slot in FrameSlots(h)[level] <==> Owns(h, level, slot) {
        OwnsExtend(Front(h), Last(h), level, slot);
        if Level(Front(h)) < level {
          NothingAboveIsOwned(Front(h), level, slot);
        }
      }
    }
  }

  // ----- The context that runs without a frame of its own -----

  /** The slots of that context, kept step by step. */
  function RootSlots(h: seq<SlotOp>): set<nat> {
    if h == [] then {}
    else
      match Last(h)
      case Store(slot) => if Level(Front(h)) == 0 then RootSlots(Front(h)) + {slot} else RootSlots(Front(h))
      case Root(closed) => Inherited(Front(h), closed)
      case _ => RootSlots(Front(h))
  }

  /** What a root takes over when `closed >= 2` frames were closed to reach it: the outermost one's slots. */
  function Inherited(h: seq<SlotOp>, closed: nat): set<nat> {
    if closed < 2 || closed > |h| then {}
    else
      var frames := FrameSlots(h[..|h| - closed]);
      if |frames| < 2 then {} else frames[0] + frames[1]
  }

  /** Operation `i` stored `slot` outside every frame, and no root started since. */
  ghost predicate StoredInRoot(h: seq<SlotOp>, i: nat, slot: nat) {
    && i < |h|
    && h[i] == Store(slot)
    && Level(h[..i]) == 0
    && forall j :: i < j < |h| ==> !h[j].Root?
  }

  ghost predicate RootOwns(h: seq<SlotOp>, slot: nat) {
    exists i :: StoredInRoot(h, i, slot)
  }

  /** The last root started at operation `d`, by closing frames that end with the one at level 1. */
  ghost predicate TookOverAt(h: seq<SlotOp>, d: nat, slot: nat) {
    && d < |h| && h[d].Root?
    && (forall j :: d < j < |h| ==> !h[j].Root?)
    && 2 <= h[d].closed <= d
    && var before := h[..d - h[d].closed];
       NeverBelowToplevel(before) && Level(before) >= 1 && (Owns(before, 1, slot) || Owns(before, 0, slot))
  }

  /** The last root took `slot` over from the outermost frame closed for it. */
  ghost predicate RootTookOver(h: seq<SlotOp>, slot: nat) {
    exists d :: TookOverAt(h, d, slot)
  }

  lemma RootOwnsExtend(h: seq<SlotOp>, op: SlotOp, slot: nat)
    ensures RootOwns(h + [op], slot) <==>
            !op.Root? && (RootOwns(h, slot) || (op == Store(slot) && Level(h) == 0))
  {
    var h' := h + [op];
    assert h'[..|h|] == h;
    forall i: nat | i < |h| ensures StoredInRoot(h', i, slot) <==> !op.Root? && StoredInRoot(h, i, slot) {
      assert h'[..i] == h[..i];
      assert h'[|h|] == op;
    }
    if op == Store(slot) && Level(h) == 0 {
      assert StoredInRoot(h', |h|, slot);
    }
  }

  lemma RootTookOverExtend(h: seq<SlotOp>, op: SlotOp, slot: nat)
    ensures RootTookOver(h + [op], slot) <==>
            if op.Root? then TookOverAt(h + [op], |h|, slot) else RootTookOver(h, slot)
  {
    hide Owns, NeverBelowToplevel, Level;
    var h' := h + [op];
    assert forall j :: 0 <= j < |h| ==> h'[j] == h[j];
    forall d: nat | d < |h| ensures TookOverAt(h', d, slot) <==> !op.Root? && TookOverAt(h, d, slot) {
      assert h'[|h|] == op;
      assert h[d].Root? && h[d].closed <= d ==> h'[..d - h[d].closed] == h[..d - h[d].closed];
    }
  }

  lemma {:induction false} PrefixNeverBelow(h: seq<SlotOp>, n: nat)
    requires NeverBelowToplevel(h) && n <= |h|
    ensures NeverBelowToplevel(h[..n])
  {
    if n < |h| {
      PrefixNeverBelow(Front(h), n);
      assert Front(h)[..n] == h[..n];
    } else {
      assert h[..n] == h;
    }
  }

  lemma InheritedIsOwned(h: seq<SlotOp>, closed: nat, slot: nat)
    requires NeverBelowToplevel(h)
    ensures slot in Inherited(h, closed) <==> TookOverAt(h + [Root(closed)], |h|, slot)
  {
    if 2 <= closed <= |h| {
      var before := h[..|h| - closed];
      assert (h + [Root(closed)])[..|h| - closed] == before;
      PrefixNeverBelow(h, |h| - closed);
      FrameSlotsAreOwned(before);
    }
  }

  /** The root's slots are those it stored itself since it started, and those it took over. */
  lemma {:induction false} RootSlotsAreOwned(h: seq<SlotOp>, slot: nat)
    requires NeverBelowToplevel(h)
    ensures slot in RootSlots(h) <==> RootOwns(h, slot) || RootTookOver(h, slot)
  {
    hide RootOwns, RootTookOver, Inherited, TookOverAt;
    if h == [] {
      NothingStored(slot);
    } else {
      var op := Last(h);
      assert h == Front(h) + [op];
      RootSlotsAreOwned(Front(h), slot);
      RootOwnsExtend(Front(h), op, slot);
      RootTookOverExtend(Front(h), op, slot);
      if op.Root? {
        InheritedIsOwned(Front(h), op.closed, slot);
      }
    }
  }

  lemma NothingStored(slot: nat)
    ensures !RootOwns([], slot) && !RootTookOver([], slot)
  {
  }

  // ----- The recorder's stack against ownership -----

  function OpsOf(marks: seq<Mark>): seq<SlotOp> {
    if marks == [] then []
    else OpsOf(Front(marks)) + [if Last(marks).Enter? then Push else Pop]
  }

  /** What drives the slot sets: an observed context, or a completed store. */
  datatype Input = Context(name: string) | Stored(slot: nat)

  datatype SlotRun = SlotRun(shadow: Shadow, slots: SlotStack, history: seq<SlotOp>)

  /** A context was observed, and the trace has no frame for the outermost one. */
  predicate Frameless(s: Shadow) {
    s.current.Some? && !s.mainOpen && !s.leafOpen
  }

  /** What a change of context from `s` to `s'` adds to the history. */
  function ChangeOps(s: Shadow, s': Shadow, marks: seq<Mark>): seq<SlotOp> {
    OpsOf(marks) + if Frameless(s') && !Frameless(s) then [Root(|marks|)] else []
  }

  /** The recorder's slot sets next to the history of trace frames and stores. */
  ghost function Advance(g: Program, r: SlotRun, input: Input): SlotRun
  {
    match input
    case Context(name) =>
      var (s', marks) := Observe(g, r.shadow, name);
      if s'.current == r.shadow.current then r
      else SlotRun(s', Resized(r.slots, |s'.callers|), r.history + ChangeOps(r.shadow, s', marks))
    case Stored(slot) =>
      r.(slots := WithSlot(r.slots, slot), history := r.history + [Store(slot)])
  }

  ghost function SlotsAfter(g: Program, inputs: seq<Input>): SlotRun
  {
    if inputs == [] then SlotRun(UNOBSERVED, [{}], [])
    else Advance(g, SlotsAfter(g, Front(inputs)), Last(inputs))
  }

  /**
   How the recorder's slot sets relate to the slot sets of the frames open in
   the trace, the toplevel's being `frames[0]`, and to those of the root.
   */
  ghost predicate Matches(s: Shadow, slots: SlotStack, frames: seq<set<nat>>, root: set<nat>) {
    && Consistent(s)
    && |slots| == |s.callers| + 1
    && |frames| == |RecordedStack(s)| + 1
    && (s.current.None? ==> slots == frames)
    && (forall i :: 1 <= i < |slots| ==> slots[i] == frames[if s.mainOpen || s.leafOpen then i + 1 else i])
    && (s.mainOpen ==> slots[0] == frames[1])
    && (s.leafOpen ==> slots[0] == frames[0] + frames[1])
    && (!s.mainOpen && !s.leafOpen ==> slots[0] == root)
  }

  ghost predicate Aligned(r: SlotRun) {
    Matches(r.shadow, r.slots, FrameSlots(r.history), RootSlots(r.history))
  }

  lemma MatchesPop(s: Shadow, s': Shadow, slots: SlotStack, frames: seq<set<nat>>, root: set<nat>)
    requires Matches(s, slots, frames, root) && s.current.Some? && s.callers != []
    requires s' == s.(callers := Front(s.callers), current := s'.current) && s'.current.Some?
    ensures Matches(s', Resized(slots, |s'.callers|), Front(frames), root)
  {
  }

  lemma MatchesSwap(s: Shadow, s': Shadow, slots: SlotStack, frames: seq<set<nat>>, root: set<nat>)
    requires Matches(s, slots, frames, root) && s.current.Some? && s.callers != []
    requires s' == s.(current := s'.current) && s'.current.Some?
    ensures Matches(s', Resized(slots, |s'.callers|), Front(frames) + [{}], root)
  {
  }

  lemma MatchesPush(s: Shadow, s': Shadow, slots: SlotStack, frames: seq<set<nat>>, root: set<nat>)
    requires Matches(s, slots, frames, root) && s.current.Some?
    requires s' == s.(callers := s.callers + [s.current.value], current := s'.current) && s'.current.Some?
    ensures Matches(s', Resized(slots, |s'.callers|), frames + [{}], root)
  {
  }

  lemma MatchesFirst(s': Shadow, slots: SlotStack, frameCount: nat, root: set<nat>)
    requires Consistent(s') && s'.current.Some? && |slots| == 1
    requires s'.mainOpen ==> s'.callers == []
    requires frameCount == |RecordedStack(s')|
    requires !s'.mainOpen && !s'.leafOpen ==> s'.callers == []
    requires s'.leafOpen ==> s'.callers != []
    requires Frameless(s') ==> root == {}
    ensures Matches(s', Resized(slots, |s'.callers|), slots + Empties(frameCount), root)
  {
  }

  lemma {:induction false} OpsOfConcat(a: seq<Mark>, b: seq<Mark>)
    ensures OpsOf(a + b) == OpsOf(a) + OpsOf(b)
  {
    if b == [] {
      assert a + b == a;
    } else {
      OpsOfConcat(a, Front(b));
      assert Front(a + b) == a + Front(b);
    }
  }

  lemma {:induction false} EntersPush(h: seq<SlotOp>, names: seq<string>)
    requires FrameSlots(h) != []
    ensures FrameSlots(h + OpsOf(Enters(names))) == FrameSlots(h) + Empties(|names|)
  {
    if names == [] {
      assert h + OpsOf(Enters(names)) == h;
    } else {
      EntersPush(h, Front(names));
      var ops := OpsOf(Enters(names));
      assert Front(Enters(names)) == Enters(Front(names));
      assert Front(h + ops) == h + OpsOf(Enters(Front(names)));
    }
  }

  lemma {:induction false} LeavesPop(h: seq<SlotOp>, n: nat)
    requires n < |FrameSlots(h)|
    ensures FrameSlots(h + OpsOf(Leaves(n))) == FrameSlots(h)[..|FrameSlots(h)| - n]
  {
    if n == 0 {
      assert h + OpsOf(Leaves(n)) == h;
    } else {
      LeavesPop(h, n - 1);
      var ops := OpsOf(Leaves(n));
      assert Front(Leaves(n)) == Leaves(n - 1);
      assert Front(h + ops) == h + OpsOf(Leaves(n - 1));
    }
  }

  lemma FrameSlotsPush(h: seq<SlotOp>, op: SlotOp)
    ensures Front(h + [op]) == h && Last(h + [op]) == op
  {
  }

  lemma UnobservedSlots(r: SlotRun)
    requires Aligned(r) && r.shadow.current.None?
    ensures r.slots == FrameSlots(r.history) && |r.slots| == 1 && r.shadow == UNOBSERVED
  {
  }

  /** A root that starts at the first observation has no slots yet. */
  lemma RootStarts(h: seq<SlotOp>)
    requires FrameSlots(h) != []
    ensures var ops := OpsOf([]) + [Root(0)];
            FrameSlots(h + ops) == FrameSlots(h) + Empties(0) && RootSlots(h + ops) == {}
  {
    assert OpsOf([]) + [Root(0)] == [Root(0)];
    FrameSlotsPush(h, Root(0));
  }

  lemma FirstKeepsAligned(g: Program, r: SlotRun, name: string)
    requires Aligned(r) && r.shadow.current.None?
    ensures Aligned(Advance(g, r, Context(name)))
  {
    hide FrameSlots, RootSlots, Matches, Resized, Enters, OpsOf;
    var (s', marks) := Observe(g, r.shadow, name);
    var h, h' := r.history, r.history + ChangeOps(r.shadow, s', marks);
    FirstEntersRecorded(InlinedCallers(MainChain(g.parents, BareName(name))), name);
    UnobservedSlots(r);
    EntersPush(h, RecordedStack(s'));
    if Frameless(s') {
      assert marks == [];
      RootStarts(h);
    } else {
      assert ChangeOps(r.shadow, s', marks) == OpsOf(marks);
    }
    MatchesFirst(s', r.slots, |RecordedStack(s')|, RootSlots(h'));
  }

  lemma OneMark(h: seq<SlotOp>, m: Mark)
    requires FrameSlots(h) != []
    ensures FrameSlots(h + OpsOf([m])) == if m.Enter? then FrameSlots(h) + [{}] else Front(FrameSlots(h))
    ensures RootSlots(h + OpsOf([m])) == RootSlots(h)
  {
    var op := if m.Enter? then Push else Pop;
    assert Front([m]) == [];
    assert OpsOf([m]) == [op];
    FrameSlotsPush(h, op);
  }

  lemma TwoMarks(h: seq<SlotOp>, m1: Mark, m2: Mark)
    requires FrameSlots(h) != []
    requires m1.Leave? && m2.Enter? && |FrameSlots(h)| > 1
    ensures FrameSlots(h + OpsOf([m1, m2])) == Front(FrameSlots(h)) + [{}]
    ensures RootSlots(h + OpsOf([m1, m2])) == RootSlots(h)
  {
    OpsOfConcat([m1], [m2]);
    assert [m1] + [m2] == [m1, m2];
    OneMark(h, m1);
    OneMark(h + OpsOf([m1]), m2);
    assert h + OpsOf([m1, m2]) == h + OpsOf([m1]) + OpsOf([m2]);
  }

  /** After a drain the begin block is the root, with the outermost inlined caller's slots if that was not on top. */
  lemma MatchesDrain(s: Shadow, name: string, slots: SlotStack, frames: seq<set<nat>>, root: set<nat>)
    requires Matches(s, slots, frames, root) && s.leafOpen && s.current.Some?
    ensures Matches(Shadow([], Some(name), s.mainOpen, false), Resized(slots, 0), frames[..1],
                    if s.callers == [] then {} else frames[0] + frames[1])
  {
  }

  lemma OpsLength(marks: seq<Mark>)
    ensures |OpsOf(marks)| == |marks|
  {
    if marks != [] {
      OpsLength(Front(marks));
    }
  }

  lemma {:induction false} LeavesLength(n: nat)
    ensures |Leaves(n)| == n
  {
    if n > 0 {
      LeavesLength(n - 1);
    }
  }

  /** Closing `n` frames and starting a root under the toplevel. */
  lemma DrainOps(h: seq<SlotOp>, n: nat)
    requires n < |FrameSlots(h)|
    ensures var ops := OpsOf(Leaves(n)) + [Root(|Leaves(n)|)];
            && FrameSlots(h + ops) == FrameSlots(h)[..|FrameSlots(h)| - n]
            && RootSlots(h + ops) == if n < 2 then {} else FrameSlots(h)[0] + FrameSlots(h)[1]
  {
    LeavesPop(h, n);
    LeavesLength(n);
    OpsLength(Leaves(n));
    var popped := h + OpsOf(Leaves(n));
    assert h + (OpsOf(Leaves(n)) + [Root(n)]) == popped + [Root(n)];
    FrameSlotsPush(popped, Root(n));
    assert popped[..|popped| - n] == h;
  }

  lemma ChangeKeepsAligned(g: Program, s: Shadow, slots: SlotStack, h: seq<SlotOp>, prev: string, name: string)
    requires Matches(s, slots, FrameSlots(h), RootSlots(h)) && s.current == Some(prev)
    ensures var (s', marks) := ContextChange(g, s, prev, name);
            var h' := h + ChangeOps(s, s', marks);
            Matches(s', Resized(slots, |s'.callers|), FrameSlots(h'), RootSlots(h'))
  {
    hide Matches, RootSlots, FrameSlots, Resized;
    var (s', marks) := ContextChange(g, s, prev, name);
    var frames, root := FrameSlots(h), RootSlots(h);
    MatchedFrames(s, slots, frames, root);
    if s.callers != [] && Last(s.callers) == name {
      OneMark(h, Leave(true));
      MatchesPop(s, s', slots, frames, root);
      assert ChangeOps(s, s', marks) == OpsOf(marks);
    } else if s.leafOpen && BareName(name) == MAIN && (forall c :: c in s.callers ==> BareName(c) != MAIN) {
      DrainOps(h, |s.callers| + 1);
      MatchesDrain(s, name, slots, frames, root);
    } else if CallerInvokesBoth(g.calls, s.callers, prev, name) && !Invokes(g.calls, BareName(prev), BareName(name)) {
      TwoMarks(h, Leave(false), Enter(name, true));
      MatchesSwap(s, s', slots, frames, root);
      assert ChangeOps(s, s', marks) == OpsOf(marks);
    } else {
      OneMark(h, Enter(name, true));
      MatchesPush(s, s', slots, frames, root);
      assert ChangeOps(s, s', marks) == OpsOf(marks);
    }
  }

  lemma MatchedFrames(s: Shadow, slots: SlotStack, frames: seq<set<nat>>, root: set<nat>)
    requires Matches(s, slots, frames, root)
    ensures frames != [] && Consistent(s)
    ensures s.current.Some? && (s.mainOpen || s.leafOpen) ==> |frames| == |s.callers| + 2
    ensures s.current.Some? && !s.mainOpen && !s.leafOpen ==> |frames| == |s.callers| + 1
  {
  }

  lemma StoreKeepsAligned(r: SlotRun, slot: nat)
    requires Aligned(r)
    ensures Aligned(r.(slots := WithSlot(r.slots, slot), history := r.history + [Store(slot)]))
  {
    FrameSlotsPush(r.history, Store(slot));
    FrameSlotsNonEmpty(r.history);
  }

  /**
   For every run: each frame open in the trace has, in the recorder's slot
   stack, exactly the slots stored in that frame, and a context without a frame
   exactly the root's; except that the outermost frame of a synthesised chain
   also keeps any slot stored before the first context was observed.
   */
  lemma {:induction false} SlotsFollowFrames(g: Program, inputs: seq<Input>)
    ensures Aligned(SlotsAfter(g, inputs))
  {
    if inputs == [] {
      assert RecordedStack(UNOBSERVED) == [];
    } else {
      SlotsFollowFrames(g, Front(inputs));
      var r := SlotsAfter(g, Front(inputs));
      match Last(inputs)
      case Context(name) =>
        if r.shadow.current.None? {
          FirstKeepsAligned(g, r, name);
        } else if r.shadow.current.value != name {
          ChangeKeepsAligned(g, r.shadow, r.slots, r.history, r.shadow.current.value, name);
        }
      case Stored(slot) =>
        StoreKeepsAligned(r, slot);
    }
  }

  lemma {:induction false} FrameSlotsNonEmpty(h: seq<SlotOp>)
    requires FrameSlots(h) != []
    ensures NeverBelowToplevel(h) && |FrameSlots(h)| == Level(h) + 1
  {
    if h != [] {
      FrameSlotsNonEmpty(Front(h));
    }
  }

  /**
   The slots that are the current context's own: those its frame owns, and for
   a context without a frame those it stored or took over as the root. The
   outermost frame of a synthesised chain also keeps early slots.
   */
  ghost predicate IsOwn(s: Shadow, h: seq<SlotOp>, slot: nat) {
    if RecordedStack(s) != [] then
      Owns(h, Level(h), slot) || (s.leafOpen && s.callers == [] && Owns(h, 0, slot))
    else RootOwns(h, slot) || RootTookOver(h, slot)
  }

  /** On every run the slots on top are exactly the current context's own. */
  lemma {:induction false} TopSlotsAreOwned(g: Program, inputs: seq<Input>, slot: nat)
    ensures var r := SlotsAfter(g, inputs);
            && Level(r.history) == |RecordedStack(r.shadow)|
            && (slot in Last(r.slots) <==> IsOwn(r.shadow, r.history, slot))
  {
    hide RootOwns, RootTookOver, Owns, SlotsAfter, RootSlots;
    var r := SlotsAfter(g, inputs);
    SlotsFollowFrames(g, inputs);
    FrameSlotsNonEmpty(r.history);
    FrameSlotsAreOwned(r.history);
    RootSlotsAreOwned(r.history, slot);
    if RecordedStack(r.shadow) != [] {
      TopOfMatch(r.shadow, r.slots, FrameSlots(r.history), RootSlots(r.history));
    } else {
      RootOnTop(r.shadow, r.slots, FrameSlots(r.history), RootSlots(r.history));
    }
  }

  lemma TopOfMatch(s: Shadow, slots: SlotStack, frames: seq<set<nat>>, root: set<nat>)
    requires Matches(s, slots, frames, root) && RecordedStack(s) != []
    ensures Last(slots) == Last(frames) + (if s.leafOpen && s.callers == [] then frames[0] else {})
  {
  }

  lemma RootOnTop(s: Shadow, slots: SlotStack, frames: seq<set<nat>>, root: set<nat>)
    requires Matches(s, slots, frames, root) && RecordedStack(s) == []
    ensures Last(slots) == root
  {
  }

  // ----- Two slots that are not the frame's own -----

  /** `outer` is the one inlined caller of `leaf` that the recorder opens a frame for. */
  ghost predicate InlinedUnder(g: Program, outer: string, leaf: string) {
    && BareName(leaf) != MAIN && BareName(outer) != MAIN && outer != leaf
    && InlinedCallers(MainChain(g.parents, BareName(leaf))) == [outer]
  }

  lemma SlotsStep(g: Program, inputs: seq<Input>, x: Input)
    ensures SlotsAfter(g, inputs + [x]) == Advance(g, SlotsAfter(g, inputs), x)
  {
    assert Front(inputs + [x]) == inputs;
  }

  lemma {:induction false} OpsStoreNothing(marks: seq<Mark>)
    ensures forall op :: op in OpsOf(marks) ==> !op.Store?
  {
    if marks != [] {
      OpsStoreNothing(Front(marks));
    }
  }

  /** When only the first operation stores, no frame above the toplevel owns anything. */
  lemma OwnedWasStored(h: seq<SlotOp>, level: int, slot: nat)
    requires OneStore(h) && level > 0
    ensures !Owns(h, level, slot)
  {
    assert h[..0] == [];
  }

  lemma FirstStore(g: Program, slot: nat)
    ensures SlotsAfter(g, [Stored(slot)]) == SlotRun(UNOBSERVED, [{slot}], [Store(slot)])
  {
    SlotsStep(g, [], Stored(slot));
    assert [] + [Stored(slot)] == [Stored(slot)];
    var none: set<nat> := {};
    assert none + {slot} == {slot};
    assert WithSlot([none], slot) == [{slot}];
  }

  lemma InlinedStartSlots(g: Program, r: SlotRun, outer: string, leaf: string, slot: nat)
    requires InlinedUnder(g, outer, leaf) && r == SlotRun(UNOBSERVED, [{slot}], [Store(slot)])
    ensures var r2 := Advance(g, r, Context(leaf));
            && r2.shadow == Shadow([outer], Some(leaf), false, true) && r2.slots == [{slot}, {}]
            && r2.history != [] && r2.history[0] == Store(slot) && OneStore(r2.history)
            && var r3 := Advance(g, r2, Context(outer));
            && r3.shadow == Shadow([], Some(outer), false, true) && r3.slots == [{slot}]
            && OneStore(r3.history)
  {
    hide OpsOf;
    FirstEntersRecorded([outer], leaf);
    var r2 := Advance(g, r, Context(leaf));
    LaterStoresNothing(r.history, Observe(g, r.shadow, leaf).1);
    LaterStoresNothing(r2.history, Observe(g, r2.shadow, outer).1);
  }

  /** Only the first operation of a history stores. */
  ghost predicate OneStore(h: seq<SlotOp>) {
    h != [] && forall i :: 0 < i < |h| ==> !h[i].Store?
  }

  lemma LaterStoresNothing(h: seq<SlotOp>, marks: seq<Mark>)
    requires OneStore(h)
    ensures OneStore(h + OpsOf(marks)) && h + (OpsOf(marks) + []) == h + OpsOf(marks)
  {
    OpsStoreNothing(marks);
  }

  /** A slot stored before anything was observed is later reported for the outermost inlined caller. */
  lemma EarlySlotIsKept(g: Program, outer: string, leaf: string, slot: nat)
    requires InlinedUnder(g, outer, leaf)
    ensures var r := SlotsAfter(g, [Stored(slot), Context(leaf), Context(outer)]);
            slot in Last(r.slots) && r.shadow.current == Some(outer) && !Owns(r.history, Level(r.history), slot)
  {
    hide Advance, Owns, OneStore;
    FirstStore(g, slot);
    InlinedStartSlots(g, SlotsAfter(g, [Stored(slot)]), outer, leaf, slot);
    SlotsStep(g, [Stored(slot)], Context(leaf));
    SlotsStep(g, [Stored(slot), Context(leaf)], Context(outer));
    assert [Stored(slot)] + [Context(leaf)] == [Stored(slot), Context(leaf)];
    assert [Stored(slot), Context(leaf)] + [Context(outer)] == [Stored(slot), Context(leaf), Context(outer)];
    var r := SlotsAfter(g, [Stored(slot), Context(leaf), Context(outer)]);
    TopSlotsAreOwned(g, [Stored(slot), Context(leaf), Context(outer)], slot);
    OwnedWasStored(r.history, Level(r.history), slot);
  }

  lemma MainSurfaces(g: Program, r: SlotRun, outer: string, leaf: string, main: string, slot: nat)
    requires BareName(main) == MAIN && BareName(leaf) != MAIN && BareName(outer) != MAIN && outer != leaf
    requires r.shadow == Shadow([], Some(outer), false, true) && r.slots == [{slot}]
    ensures var r1 := Advance(g, r, Context(leaf));
            var r2 := Advance(g, r1, Context(main));
            && r1.shadow == Shadow([outer], Some(leaf), false, true)
            && r2.shadow == Shadow([], Some(main), false, false) && r2.slots == [{slot}]
            && exists h, closed :: r2.history == h + [Root(closed)]
  {
    hide OpsOf, Leaves;
    var r1 := Advance(g, r, Context(leaf));
    assert [] + [outer] == [outer];
    assert r1.shadow == Shadow([outer], Some(leaf), false, true) && r1.slots == [{slot}, {}];
    var r2 := Advance(g, r1, Context(main));
    var marks := Observe(g, r1.shadow, main).1;
    assert r2.history == r1.history + OpsOf(marks) + [Root(|marks|)];
  }

  /** A slot reported for the outermost inlined caller is later reported for `#main`, which never stored it. */
  lemma MainTakesSlotsOver(g: Program, outer: string, leaf: string, main: string, slot: nat)
    requires InlinedUnder(g, outer, leaf) && BareName(main) == MAIN
    ensures var r := SlotsAfter(g, [Stored(slot), Context(leaf), Context(outer), Context(leaf), Context(main)]);
            slot in Last(r.slots) && r.shadow.current == Some(main) && !RootOwns(r.history, slot)
  {
    hide Advance, RootOwns, OneStore;
    var inputs := [Stored(slot), Context(leaf), Context(outer)];
    FirstStore(g, slot);
    InlinedStartSlots(g, SlotsAfter(g, [Stored(slot)]), outer, leaf, slot);
    SlotsStep(g, [Stored(slot)], Context(leaf));
    SlotsStep(g, [Stored(slot), Context(leaf)], Context(outer));
    assert [Stored(slot)] + [Context(leaf)] == [Stored(slot), Context(leaf)];
    assert [Stored(slot), Context(leaf)] + [Context(outer)] == inputs;
    var r := SlotsAfter(g, inputs);
    MainSurfaces(g, r, outer, leaf, main, slot);
    SlotsStep(g, inputs, Context(leaf));
    SlotsStep(g, inputs + [Context(leaf)], Context(main));
    assert inputs + [Context(leaf)] + [Context(main)] == [Stored(slot), Context(leaf), Context(outer), Context(leaf), Context(main)];
    var h, closed :| Advance(g, Advance(g, r, Context(leaf)), Context(main)).history == h + [Root(closed)];
    RootOwnsExtend(h, Root(closed), slot);
  }
}
