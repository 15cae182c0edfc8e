/** How the steps of the protocol move slots between the lists of their set's index: each
    changes the state word and block of at most one slot, in a way the index allows; and what
    the index and the reclaim lists answer is what the protocol assumes of them. */
module SlotIndex {
  import opened Types
  import opened Protocol
  import opened Invariant
  import opened Steps
  import X = IndexSpec
  import L = LruSpec

  // ----- what a step does to state words and blocks -----

  datatype Touch = Untouched | Touched(i: nat, bits: Bits, dbn: nat)

  /** Exactly what w says has changed. */
  ghost predicate After(s: seq<Slot>, t: seq<Slot>, w: Touch) {
    |t| == |s| && (w.Touched? ==> w.i < |s| && t[w.i].bits == w.bits && t[w.i].dbn == w.dbn)
    && forall j {:trigger t[j]} :: 0 <= j < |s| && !(w.Touched? && j == w.i) ==> t[j].bits == s[j].bits && t[j].dbn == s[j].dbn
  }

  predicate IdleDirty(sl: Slot) { sl.bits.dirty && !sl.bits.Busy() }
  predicate IdleClean(sl: Slot) { !sl.bits.Busy() && !sl.bits.dirty && sl.nrQueued == 0 }

  /** The state word of a slot that is being cleaned. */
  function Cleaning(b: Bits): Bits { b.Idle().(diskWrite := true) }

  function Younger(mode: Mode, b: Bits): Bits { if mode == WriteBack then b.Young() else b }

  function CleanTouch(c: Config, s: seq<Slot>, i: nat): Touch
    requires i < |s|
  {
    Touched(i, Cleaning(Younger(c.mode, s[i].bits)), s[i].dbn)
  }

  function InvalTouch(c: Config, s: seq<Slot>, h: Option<nat>): Touch {
    match h
    case None => Untouched
    case Some(i) =>
      if i >= |s| then Untouched
      else if IdleClean(s[i]) then Touched(i, INVALID, s[i].dbn)
      else if IdleDirty(s[i]) then CleanTouch(c, s, i)
      else Untouched
  }

  function HitTouch(c: Config, s: seq<Slot>, i: nat, write: bool): Touch
    requires i < |s|
  {
    var b := Younger(c.mode, s[i].bits);
    Touched(i, if b.Busy() || s[i].nrQueued != 0 then b
               else if write then b.(cacheWrite := true) else b.(cacheRead := true), s[i].dbn)
  }

  function MissTouch(bio: Bio, v: Option<nat>, skip: bool): Touch {
    if v.None? || (skip && !bio.write) then Untouched
    else Touched(v.value, if bio.write then VALID.(cacheWrite := true) else VALID.(diskRead := true), bio.dbn)
  }

  /** Whether a request goes past the cache. */
  predicate Bypasses(c: Config, bio: Bio, skip: bool) { !bio.full || (bio.write && (c.mode == WriteAround || skip)) }

  function MapTouch(c: Config, s: seq<Slot>, bio: Bio, h: Option<nat>, v: Option<nat>, skip: bool): Touch {
    if Bypasses(c, bio, skip) then InvalTouch(c, s, h)
    else if h.Some? then if h.value < |s| then HitTouch(c, s, h.value, bio.write) else Untouched
    else MissTouch(bio, v, skip)
  }

  lemma ClearFallowTouches(c: Config, s: State, i: nat)
    requires Idx(c, s, i) && Slots(c, s)
    ensures After(s.slots, ClearFallow(c, s, i).slots, Touched(i, Younger(c.mode, s.slots[i].bits), s.slots[i].dbn))
    ensures ClearFallow(c, s, i).slots[i].nrQueued == s.slots[i].nrQueued
  {
    assert SlotOk(c, i, s.slots[i]);
  }

  lemma StartCleanTouches(c: Config, s: State, i: nat)
    requires Idx(c, s, i) && (c.mode != WriteBack ==> !s.slots[i].bits.fallow1 && !s.slots[i].bits.fallow2)
    ensures After(s.slots, StartClean(c, s, i).slots, CleanTouch(c, s.slots, i))
  {
  }

  lemma InvalTouches(c: Config, s: State, x: nat, h: Option<nat>)
    requires (h.Some? ==> Idx(c, s, h.value) && (c.mode != WriteBack ==> !s.slots[h.value].bits.dirty))
    ensures After(s.slots, InvalBlocks(c, s, x, h).0.slots, InvalTouch(c, s.slots, h))
    ensures After(s.slots, Bypass(c, s, x, h).slots, InvalTouch(c, s.slots, h))
  {
    if h.Some? && IdleDirty(s.slots[h.value]) { StartCleanTouches(c, Enqueue(s, x, h.value, true), h.value); }
  }

  lemma HitTouches(c: Config, s: State, x: nat, i: nat)
    requires Idx(c, s, i) && Slots(c, s) && x in s.bios
    ensures After(s.slots, Hit(c, s, x, i).slots, HitTouch(c, s.slots, i, s.bios[x].bio.write))
  {
    ClearFallowTouches(c, s, i);
  }

  lemma MissTouches(s: State, x: nat, v: Option<nat>, skip: bool)
    requires x in s.bios && (v.Some? ==> v.value < |s.slots|)
    ensures After(s.slots, Miss(s, x, v, skip).slots, MissTouch(s.bios[x].bio, v, skip))
  {
  }

  lemma NewBioThere(s: State, bio: Bio)
    ensures s.nextId in NewBio(s, bio).bios && NewBio(s, bio).bios[s.nextId].bio == bio && NewBio(s, bio).slots == s.slots
  {
  }

  lemma SubmitTouches(c: Config, s: State, bio: Bio, h: Option<nat>, v: Option<nat>, skip: bool)
    requires Slots(c, s) && MaybeIdx(c, s, h) && MaybeIdx(c, s, v)
    ensures After(s.slots, Submit(c, s, bio, h, v, skip).slots, MapTouch(c, s.slots, bio, h, v, skip))
  {
    var x, t := s.nextId, NewBio(s, bio);
    NewBioThere(s, bio);
    if Bypasses(c, bio, skip) {
      if h.Some? { assert SlotOk(c, h.value, s.slots[h.value]); }
      InvalTouches(c, t, x, h);
    } else if h.Some? {
      HitTouches(c, t, x, h.value);
    } else {
      MissTouches(t, x, v, skip);
    }
  }

  lemma UncachedTouches(c: Config, s: State, x: nat, h: Option<nat>)
    requires Slots(c, s) && MaybeIdx(c, s, h) && x in s.bios
    ensures After(s.slots, UncachedComplete(c, s, x, h).slots, InvalTouch(c, s.slots, h))
  {
    if h.Some? { assert SlotOk(c, h.value, s.slots[h.value]); }
    InvalTouches(c, Moved(s, x, Hand), x, h);
  }

  lemma ReplayTouches(c: Config, s: State, i: nat, h: Option<nat>)
    requires Slots(c, s) && Idx(c, s, i) && MaybeIdx(c, s, h) && h != Some(i) && s.slots[i].work.Drain? && s.slots[i].work.rest != []
    ensures After(s.slots, DrainOne(c, s, i, h).slots, if s.slots[i].work.rest[0].inval then InvalTouch(c, s.slots, h) else Untouched)
  {
    var e, u := s.slots[i].work.rest[0], DetachNext(s, i);
    DetachTouches(s, i);
    if e.inval {
      if h.Some? { assert SlotOk(c, h.value, s.slots[h.value]); }
      InvalTouches(c, u, e.id, h);
      AfterSame(s.slots, u.slots, Bypass(c, u, e.id, h).slots, InvalTouch(c, s.slots, h));
    }
  }

  lemma DetachTouches(s: State, i: nat)
    requires i < |s.slots| && s.slots[i].work.Drain? && s.slots[i].work.rest != []
    ensures After(s.slots, DetachNext(s, i).slots, Untouched)
    ensures forall j {:trigger DetachNext(s, i).slots[j]} :: 0 <= j < |s.slots| && j != i ==> DetachNext(s, i).slots[j] == s.slots[j]
  {
  }

  lemma AfterSame(s: seq<Slot>, u: seq<Slot>, t: seq<Slot>, w: Touch)
    requires After(s, u, Untouched) && After(u, t, w)
    ensures After(s, t, w)
  {
    forall j | 0 <= j < |s| && !(w.Touched? && j == w.i) ensures t[j].bits == s[j].bits && t[j].dbn == s[j].dbn { assert u[j].bits == s[j].bits; }
  }

  /** Only slot i is concerned. */
  ghost predicate OnlyAt(s: State, t: State, i: nat) { i < |s.slots| && t.slots == s.slots[i := if i < |t.slots| then t.slots[i] else s.slots[i]] }

  lemma OnlyAtTouches(s: State, t: State, i: nat)
    requires OnlyAt(s, t, i)
    ensures After(s.slots, t.slots, Touched(i, t.slots[i].bits, t.slots[i].dbn))
  {
  }

  /** What a step does to state words and blocks; only crashes and reloads do more. */
  ghost function StepTouch(c: Config, s: State, step: Step): Touch
    requires Enabled(c, s, step)
  {
    match step
    case Map(bio, hit, victim, skip) => MapTouch(c, s.slots, bio, hit, victim, skip)
    case UncachedDone(x, hit) => InvalTouch(c, s.slots, hit)
    case Replay(i, hit) => if s.slots[i].work.rest[0].inval then InvalTouch(c, s.slots, hit) else Untouched
    case IoDone(i) => SameOr(IoCallback(c, s, i), i)
    case Pending(i) => SameOr(DoPending(c, s, i), i)
    case DrainDone(i) => SameOr(DrainEnd(s, i), i)
    case CleanSlot(i) => SameOr(StartClean(c, s, i), i)
    case MarkFallow(i) => SameOr(DetectFallow(c, s, i), i)
    case MdFinish(m) => SameOr(MdDoneOne(c, s, m), s.heads[m].active[0])
    case _ => Untouched
  }

  function SameOr(t: State, i: nat): Touch { if i < |t.slots| then Touched(i, t.slots[i].bits, t.slots[i].dbn) else Untouched }

  /** A step that works on one slot alone, and which. */
  predicate Single(step: Step) { step.IoDone? || step.Pending? || step.DrainDone? || step.CleanSlot? || step.MarkFallow? }

  /** Slot i ends up with the same requests waiting. */
  ghost predicate AtIn(s: State, t: State, i: nat) { OnlyAt(s, t, i) && t.slots[i].pend == s.slots[i].pend }

  lemma EndedAt(s: State, x: nat, result: Data, i: nat)
    requires i < |s.slots|
    ensures AtIn(s, Release(EndBio(s, x, result), i), i)
  {
  }

  lemma MdWriteAt(c: Config, s: State, i: nat, w: Work)
    requires Idx(c, s, i)
    ensures AtIn(s, MdWrite(c, WithWork(s, i, w), i), i)
  {
  }

  lemma IoCallbackAt(c: Config, s: State, i: nat)
    requires Idx(c, s, i)
    ensures AtIn(s, IoCallback(c, s, i), i)
  {
    match s.slots[i].work
    case ReadCache(x, got) => if got.Some? { EndedAt(s, x, got.value, i); }
    case ReadFill(x, data, _) => EndedAt(s, x, data, i);
    case WriteCache(x, _, _) =>
      MdWriteAt(c, s, i, MdDirty(x));
      EndedAt(s, x, if c.mode == WriteBack then s.ssd[i] else OnDisk(s, s.slots[i].dbn), i);
    case _ =>
  }

  lemma SlotStepsAt(c: Config, s: State, i: nat)
    requires Idx(c, s, i)
    ensures OnlyAt(s, DoPending(c, s, i), i) && OnlyAt(s, DrainEnd(s, i), i)
    ensures OnlyAt(s, StartClean(c, s, i), i) && OnlyAt(s, DetectFallow(c, s, i), i)
  {
  }

  lemma MdDoneAt(c: Config, s: State, i: nat)
    requires Idx(c, s, i)
    ensures AtIn(s, MdDoneJob(c, s, i), i)
  {
  }

  lemma SingleTouches(c: Config, s: State, step: Step)
    requires Enabled(c, s, step) && Single(step)
    ensures After(s.slots, Apply(c, s, step).slots, SameOr(Apply(c, s, step), step.i))
  {
    if step.IoDone? { IoCallbackAt(c, s, step.i); } else { SlotStepsAt(c, s, step.i); }
    OnlyAtTouches(s, Apply(c, s, step), step.i);
  }

  predicate Quiet(step: Step) {
    IsEffect(step) || step.CopyDone? || step.Kickoff? || step.MdWritten? || step.MdAdvance? || step.Detach?
  }

  lemma QuietTouches(c: Config, s: State, step: Step)
    requires Enabled(c, s, step) && Quiet(step)
    ensures After(s.slots, Apply(c, s, step).slots, Untouched)
  {
    if IsEffect(step) { EffectTouches(c, s, step); }
  }

  lemma EffectTouches(c: Config, s: State, step: Step)
    requires Enabled(c, s, step) && IsEffect(step)
    ensures After(s.slots, Apply(c, s, step).slots, Untouched)
  {
  }

  /** Every step but a crash or a reload touches at most one slot, as StepTouch says. */
  lemma StepTouches(c: Config, s: State, step: Step)
    requires Slots(c, s) && Enabled(c, s, step) && !step.PowerLoss? && !step.CleanRestart?
    ensures After(s.slots, Apply(c, s, step).slots, StepTouch(c, s, step))
  {
    if Single(step) {
      SingleTouches(c, s, step);
    } else if Quiet(step) {
      QuietTouches(c, s, step);
    } else if step.Map? {
      SubmitTouches(c, s, step.bio, step.hit, step.victim, step.skip);
    } else if step.UncachedDone? {
      UncachedTouches(c, s, step.x, step.hit);
    } else if step.Replay? {
      assert SlotOk(c, step.i, s.slots[step.i]);
      ReplayTouches(c, s, step.i, step.hit);
    } else {
      FinishTouches(c, s, step.m);
    }
  }

  lemma FinishTouches(c: Config, s: State, m: nat)
    requires Enabled(c, s, MdFinish(m))
    ensures After(s.slots, MdDoneOne(c, s, m).slots, SameOr(MdDoneOne(c, s, m), s.heads[m].active[0]))
  {
    MdDoneAt(c, s, s.heads[m].active[0]);
    OnlyAtTouches(s, MdDoneOne(c, s, m), s.heads[m].active[0]);
  }

  // ----- what the index allows -----

  predicate Marks(was: Slot, w: Touch) { w.Touched? && was.bits.valid && w.bits.valid && !w.bits.invalid && w.dbn == was.dbn }
  predicate Drops(was: Slot, w: Touch) { w.Touched? && was.bits == VALID && w.bits == INVALID && w.dbn == was.dbn }
  predicate Limbos(was: Slot, w: Touch) {
    w.Touched? && was.bits.valid && !was.bits.dirty && was.bits.Busy() && w.bits == was.bits.(valid := false, invalid := true) && w.dbn == was.dbn
  }
  predicate Settles(was: Slot, w: Touch) {
    w.Touched? && was.bits.invalid && was.bits.Busy() && was.bits.Idle() == INVALID == w.bits && w.dbn == was.dbn
  }

  /** The slot takes a block of its set that no VALID slot has. */
  ghost predicate Claims(c: Config, s: seq<Slot>, w: Touch) {
    && w.Touched? && w.i < |s| == |c.setOf| && (s[w.i].bits == VALID || s[w.i].bits == INVALID) && w.bits.valid && !w.bits.invalid
    && c.hashBlock(w.dbn) == c.setOf[w.i] && forall j {:trigger s[j]} :: 0 <= j < |s| && s[j].bits.valid ==> s[j].dbn != w.dbn
  }

  ghost predicate LegalTouch(c: Config, s: seq<Slot>, w: Touch) {
    w.Touched? ==> w.i < |s| && var was := s[w.i];
      (w.bits == was.bits && w.dbn == was.dbn) || Marks(was, w) || Drops(was, w) || Limbos(was, w) || Settles(was, w) || Claims(c, s, w)
  }

  lemma InvalLegal(c: Config, s: State, b: nat, h: Option<nat>)
    requires Slots(c, s) && MaybeIdx(c, s, h) && IsLookup(c, s, b, h)
    ensures LegalTouch(c, s.slots, InvalTouch(c, s.slots, h))
  {
    if h.Some? { assert SlotOk(c, h.value, s.slots[h.value]); }
  }

  lemma MissLegal(c: Config, s: State, bio: Bio, v: Option<nat>, skip: bool)
    requires Slots(c, s) && IsLookup(c, s, bio.dbn, None) && (v.Some? ==> Claimable(c, s, bio.dbn, v.value))
    ensures LegalTouch(c, s.slots, MissTouch(bio, v, skip))
  {
    forall j | 0 <= j < |s.slots| && s.slots[j].bits.valid ensures s.slots[j].dbn != bio.dbn { assert SlotOk(c, j, s.slots[j]); }
  }

  lemma MapLegal(c: Config, s: State, bio: Bio, h: Option<nat>, v: Option<nat>, skip: bool)
    requires Slots(c, s) && MaybeIdx(c, s, h) && IsLookup(c, s, bio.dbn, h) && (v.Some? ==> Claimable(c, s, bio.dbn, v.value))
    ensures LegalTouch(c, s.slots, MapTouch(c, s.slots, bio, h, v, skip))
  {
    if Bypasses(c, bio, skip) {
      InvalLegal(c, s, bio.dbn, h);
    } else if h.Some? {
      assert SlotOk(c, h.value, s.slots[h.value]);
    } else {
      MissLegal(c, s, bio, v, skip);
    }
  }

  lemma IoLegal(c: Config, s: State, i: nat)
    requires Slots(c, s) && Enabled(c, s, IoDone(i))
    ensures LegalTouch(c, s.slots, SameOr(IoCallback(c, s, i), i))
  {
    assert SlotOk(c, i, s.slots[i]);
  }

  lemma DrainLegal(c: Config, s: State, i: nat)
    requires Slots(c, s) && Idx(c, s, i) && (s.slots[i].work.Finish? || s.slots[i].work == Drain([]))
    ensures s.slots[i].work.Finish? ==> LegalTouch(c, s.slots, SameOr(DoPending(c, s, i), i))
    ensures !s.slots[i].work.Finish? ==> LegalTouch(c, s.slots, SameOr(DrainEnd(s, i), i))
  {
    assert SlotOk(c, i, s.slots[i]);
  }

  lemma UpkeepLegal(c: Config, s: State, i: nat)
    requires Slots(c, s) && Idx(c, s, i)
    ensures s.slots[i].bits.dirty ==> LegalTouch(c, s.slots, SameOr(StartClean(c, s, i), i))
    ensures LegalTouch(c, s.slots, SameOr(DetectFallow(c, s, i), i))
  {
    assert SlotOk(c, i, s.slots[i]);
  }

  lemma JobLegal(c: Config, s: State, i: nat)
    requires Slots(c, s) && Idx(c, s, i) && InMd(s.slots[i].work)
    ensures LegalTouch(c, s.slots, SameOr(MdDoneJob(c, s, i), i))
  {
    assert SlotOk(c, i, s.slots[i]);
  }

  lemma FirstIsJob(c: Config, s: State, m: nat)
    requires Slots(c, s) && Meta(c, s) && m < |s.heads| && s.heads[m].active != []
    ensures s.heads[m].active[0] < |s.slots| && InMd(s.slots[s.heads[m].active[0]].work)
  {
    assert HeadOk(c, s, m) && All(s.heads[m])[0] == s.heads[m].active[0];
  }

  lemma FinishLegal(c: Config, s: State, m: nat)
    requires Slots(c, s) && Meta(c, s) && Enabled(c, s, MdFinish(m))
    ensures LegalTouch(c, s.slots, SameOr(MdDoneOne(c, s, m), s.heads[m].active[0]))
  {
    FirstIsJob(c, s, m);
    JobLegal(c, s, s.heads[m].active[0]);
  }

  /** Every step moves slots as the index allows. */
  lemma StepLegal(c: Config, s: State, step: Step)
    requires Slots(c, s) && Meta(c, s) && Enabled(c, s, step) && !step.PowerLoss? && !step.CleanRestart?
    ensures LegalTouch(c, s.slots, StepTouch(c, s, step))
  {
    if step.Map? {
      MapLegal(c, s, step.bio, step.hit, step.victim, step.skip);
    } else if step.UncachedDone? {
      InvalLegal(c, s, s.bios[step.x].bio.dbn, step.hit);
    } else if step.Replay? {
      InvalLegal(c, s, s.slots[step.i].dbn, step.hit);
    } else if step.IoDone? {
      IoLegal(c, s, step.i);
    } else if step.Pending? || step.DrainDone? {
      DrainLegal(c, s, step.i);
    } else if step.CleanSlot? || step.MarkFallow? {
      UpkeepLegal(c, s, step.i);
    } else if step.MdFinish? {
      FinishLegal(c, s, step.m);
    }
  }
}
