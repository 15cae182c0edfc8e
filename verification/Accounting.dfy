/** The driver's counters are the true counts of VALID, DIRTY and DIRTY_FALLOW_2 slots
    and of cleanings under way, overall and per set, after every step of every run. */
module Accounting {
  import opened Types
  import opened Protocol
  import opened Invariant
  import opened Steps
  import opened StepProofs
  import opened Theorems

  ghost predicate CtrOk(c: Config, s: State) {
    && |s.slots| == |c.setOf| == c.size && |s.ctr.setDirty| == |s.ctr.setFallow| == |s.ctr.setCleaning| == c.sets
    && s.ctr.cached == Count(s.slots, IsCached)
    && s.ctr.dirty == Count(s.slots, IsDirty)
    && s.ctr.cleaning == Count(s.slots, IsCleaning)
    && (forall k {:trigger s.ctr.setDirty[k]} :: 0 <= k < c.sets ==> s.ctr.setDirty[k] == CountIn(s.slots, c.setOf, k, IsDirty))
    && (forall k {:trigger s.ctr.setFallow[k]} :: 0 <= k < c.sets ==> s.ctr.setFallow[k] == CountIn(s.slots, c.setOf, k, IsFallow))
    && (forall k {:trigger s.ctr.setCleaning[k]} :: 0 <= k < c.sets ==> s.ctr.setCleaning[k] == CountIn(s.slots, c.setOf, k, IsCleaning))
  }

  // ----- counting -----

  function One(b: bool): int { if b then 1 else 0 }

  lemma {:induction false} CountUpdate(slots: seq<Slot>, i: nat, sl: Slot, q: Slot -> bool)
    requires i < |slots|
    ensures Count(slots[i := sl], q) == Count(slots, q) + One(q(sl)) - One(q(slots[i]))
  {
    var n := |slots| - 1;
    if i == n {
      assert slots[i := sl][..n] == slots[..n];
    } else {
      CountUpdate(slots[..n], i, sl, q);
      assert slots[i := sl][..n] == slots[..n][i := sl];
    }
  }

  lemma {:induction false} CountInUpdate(slots: seq<Slot>, setOf: seq<nat>, set_: nat, i: nat, sl: Slot, q: Slot -> bool)
    requires i < |slots| == |setOf|
    ensures CountIn(slots[i := sl], setOf, set_, q)
            == CountIn(slots, setOf, set_, q) + if setOf[i] == set_ then One(q(sl)) - One(q(slots[i])) else 0
  {
    var n := |slots| - 1;
    if i == n {
      assert slots[i := sl][..n] == slots[..n];
    } else {
      CountInUpdate(slots[..n], setOf[..n], set_, i, sl, q);
      assert slots[i := sl][..n] == slots[..n][i := sl];
    }
  }

  lemma {:induction false} CountPositive(slots: seq<Slot>, i: nat, q: Slot -> bool)
    requires i < |slots| && q(slots[i])
    ensures Count(slots, q) > 0
  {
    if i < |slots| - 1 { CountPositive(slots[..|slots| - 1], i, q); }
  }

  lemma {:induction false} CountInPositive(slots: seq<Slot>, setOf: seq<nat>, i: nat, q: Slot -> bool)
    requires i < |slots| == |setOf| && q(slots[i])
    ensures CountIn(slots, setOf, setOf[i], q) > 0
  {
    var n := |slots| - 1;
    if i < n { CountInPositive(slots[..n], setOf[..n], i, q); }
  }

  lemma {:induction false} CountNone(slots: seq<Slot>, setOf: seq<nat>, set_: nat, q: Slot -> bool)
    requires |slots| == |setOf| && forall i {:trigger slots[i]} :: 0 <= i < |slots| ==> !q(slots[i])
    ensures CountIn(slots, setOf, set_, q) == 0 && Count(slots, q) == 0
  {
    if slots != [] { CountNone(slots[..|slots| - 1], setOf[..|slots| - 1], set_, q); }
  }

  // ----- a section that changes one slot and tallies the change -----

  ghost predicate SetTallied(c: Config, old_: seq<int>, new_: seq<int>, i: nat, d: int)
    requires i < |c.setOf|
  {
    |new_| == |old_| == c.sets
    && forall k {:trigger new_[k]} {:trigger old_[k]} :: 0 <= k < c.sets ==> new_[k] == old_[k] + if k == c.setOf[i] then d else 0
  }

  ghost predicate Tallied(c: Config, s: State, t: State, i: nat) {
    && i < |s.slots| == |t.slots| == |c.setOf| == c.size && t.slots == s.slots[i := t.slots[i]]
    && t.ctr.cached == s.ctr.cached + One(IsCached(t.slots[i])) - One(IsCached(s.slots[i]))
    && t.ctr.dirty == s.ctr.dirty + One(IsDirty(t.slots[i])) - One(IsDirty(s.slots[i]))
    && t.ctr.cleaning == s.ctr.cleaning + One(IsCleaning(t.slots[i])) - One(IsCleaning(s.slots[i]))
    && SetTallied(c, s.ctr.setDirty, t.ctr.setDirty, i, One(IsDirty(t.slots[i])) - One(IsDirty(s.slots[i])))
    && SetTallied(c, s.ctr.setFallow, t.ctr.setFallow, i, One(IsFallow(t.slots[i])) - One(IsFallow(s.slots[i])))
    && SetTallied(c, s.ctr.setCleaning, t.ctr.setCleaning, i, One(IsCleaning(t.slots[i])) - One(IsCleaning(s.slots[i])))
  }

  lemma TalliedKeeps(c: Config, s: State, t: State, i: nat)
    requires CtrOk(c, s) && Tallied(c, s, t, i)
    ensures CtrOk(c, t)
  {
    CountUpdate(s.slots, i, t.slots[i], IsCached);
    CountUpdate(s.slots, i, t.slots[i], IsDirty);
    CountUpdate(s.slots, i, t.slots[i], IsCleaning);
    forall k | 0 <= k < c.sets
      ensures t.ctr.setDirty[k] == CountIn(t.slots, c.setOf, k, IsDirty)
      ensures t.ctr.setFallow[k] == CountIn(t.slots, c.setOf, k, IsFallow)
      ensures t.ctr.setCleaning[k] == CountIn(t.slots, c.setOf, k, IsCleaning)
    {
      assert s.ctr.setDirty[k] == CountIn(s.slots, c.setOf, k, IsDirty);
      assert s.ctr.setFallow[k] == CountIn(s.slots, c.setOf, k, IsFallow);
      assert s.ctr.setCleaning[k] == CountIn(s.slots, c.setOf, k, IsCleaning);
      CountInUpdate(s.slots, c.setOf, k, i, t.slots[i], IsDirty);
      CountInUpdate(s.slots, c.setOf, k, i, t.slots[i], IsFallow);
      CountInUpdate(s.slots, c.setOf, k, i, t.slots[i], IsCleaning);
    }
  }

  /** Nothing that is counted changes. */
  predicate SameCounted(a: Slot, b: Slot) {
    IsCached(a) == IsCached(b) && IsDirty(a) == IsDirty(b) && IsFallow(a) == IsFallow(b) && IsCleaning(a) == IsCleaning(b)
  }

  lemma UncountedKeeps(c: Config, s: State, t: State, i: nat)
    requires CtrOk(c, s) && t.ctr == s.ctr && i < |s.slots| == |t.slots| && t.slots == s.slots[i := t.slots[i]]
    requires SameCounted(s.slots[i], t.slots[i])
    ensures CtrOk(c, t)
  {
    TalliedKeeps(c, s, t, i);
  }

  // ----- the sections -----

  lemma ClearFallowCounts(c: Config, s: State, i: nat)
    requires CtrOk(c, s) && Idx(c, s, i)
    ensures CtrOk(c, ClearFallow(c, s, i))
  {
    var t := ClearFallow(c, s, i);
    if t != s { assert Tallied(c, s, t, i); TalliedKeeps(c, s, t, i); }
  }

  lemma DetectFallowCounts(c: Config, s: State, i: nat)
    requires CtrOk(c, s) && Idx(c, s, i)
    ensures CtrOk(c, DetectFallow(c, s, i))
  {
    var t := DetectFallow(c, s, i);
    if t != s { assert Tallied(c, s, t, i); TalliedKeeps(c, s, t, i); }
  }

  lemma StartCleanCounts(c: Config, s: State, i: nat)
    requires CtrOk(c, s) && Idx(c, s, i) && !IsCleaning(s.slots[i])
    ensures CtrOk(c, StartClean(c, s, i))
  {
    var u := ClearFallow(c, s, i);
    ClearFallowCounts(c, s, i);
    assert Tallied(c, u, DirtyWriteback(c, u, i), i);
    TalliedKeeps(c, u, DirtyWriteback(c, u, i), i);
  }

  lemma EnqueueCounts(c: Config, s: State, x: nat, i: nat, inval: bool)
    requires CtrOk(c, s) && i < |s.slots|
    ensures CtrOk(c, Enqueue(s, x, i, inval))
  {
    UncountedKeeps(c, s, Enqueue(s, x, i, inval), i);
  }

  lemma InvalidateCounts(c: Config, s: State, i: nat)
    requires CtrOk(c, s) && Idx(c, s, i) && SlotOk(c, i, s.slots[i]) && s.slots[i].bits.valid && !s.slots[i].bits.dirty
    ensures CtrOk(c, Invalidate(s, i))
  {
    assert Tallied(c, s, Invalidate(s, i), i);
    TalliedKeeps(c, s, Invalidate(s, i), i);
  }

  lemma InvalBlocksCounts(c: Config, s: State, x: nat, b: nat, h: Option<nat>)
    requires CtrOk(c, s) && Slots(c, s) && MaybeIdx(c, s, h) && IsLookup(c, s, b, h)
    ensures CtrOk(c, InvalBlocks(c, s, x, h).0)
  {
    if h.Some? {
      var i := h.value;
      assert SlotOk(c, i, s.slots[i]);
      if !s.slots[i].bits.Busy() && !s.slots[i].bits.dirty && s.slots[i].nrQueued == 0 {
        InvalidateCounts(c, s, i);
      } else {
        var t := Enqueue(s, x, i, true);
        EnqueueCounts(c, s, x, i, true);
        if s.slots[i].bits.dirty && !s.slots[i].bits.Busy() { StartCleanCounts(c, t, i); }
      }
    }
  }

  lemma SameSlotsCounts(c: Config, s: State, t: State)
    requires CtrOk(c, s) && t.slots == s.slots && t.ctr == s.ctr
    ensures CtrOk(c, t)
  {
  }

  lemma BypassCounts(c: Config, s: State, x: nat, b: nat, h: Option<nat>)
    requires CtrOk(c, s) && Slots(c, s) && MaybeIdx(c, s, h) && IsLookup(c, s, b, h)
    ensures CtrOk(c, Bypass(c, s, x, h))
  {
    InvalBlocksCounts(c, s, x, b, h);
    var t := InvalBlocks(c, s, x, h).0;
    SameSlotsCounts(c, t, StartUncached(t, x));
  }

  lemma SeatCounts(c: Config, s: State, x: nat, i: nat)
    requires CtrOk(c, s) && i < |s.slots| && s.slots[i].work.NoWork?
    ensures CtrOk(c, StartWriteHit(s, x, i)) && CtrOk(c, StartReadHit(s, x, i))
  {
    UncountedKeeps(c, s, StartWriteHit(s, x, i), i);
    UncountedKeeps(c, s, StartReadHit(s, x, i), i);
  }

  lemma HitCounts(c: Config, s: State, x: nat, i: nat)
    requires CtrOk(c, s) && Slots(c, s) && Idx(c, s, i)
    ensures CtrOk(c, Hit(c, s, x, i))
  {
    var t := ClearFallow(c, s, i);
    ClearFallowCounts(c, s, i);
    assert SlotOk(c, i, s.slots[i]);
    if !t.slots[i].bits.Busy() && t.slots[i].nrQueued == 0 {
      SeatCounts(c, t, x, i);
    } else {
      EnqueueCounts(c, t, x, i, false);
    }
  }

  lemma ClaimCounts(c: Config, s: State, x: nat, b: nat, v: nat)
    requires CtrOk(c, s) && Slots(c, s) && Idx(c, s, v) && Claimable(c, s, b, v)
    ensures CtrOk(c, Claim(s, x, v))
  {
    assert SlotOk(c, v, s.slots[v]);
    assert Tallied(c, s, Claim(s, x, v), v);
    TalliedKeeps(c, s, Claim(s, x, v), v);
  }

  lemma NewBioCounts(c: Config, s: State, bio: Bio)
    requires CtrOk(c, s) && Slots(c, s)
    ensures CtrOk(c, NewBio(s, bio)) && Slots(c, NewBio(s, bio))
  {
    var t := NewBio(s, bio);
    SameSlotsCounts(c, s, t);
    forall i | 0 <= i < c.size ensures SlotOk(c, i, t.slots[i]) { assert SlotOk(c, i, s.slots[i]); }
  }

  lemma SubmitCounts(c: Config, s: State, bio: Bio, h: Option<nat>, v: Option<nat>, skip: bool)
    requires CtrOk(c, s) && Slots(c, s) && MaybeIdx(c, s, h) && MaybeIdx(c, s, v) && IsLookup(c, s, bio.dbn, h)
    requires v.Some? ==> Claimable(c, s, bio.dbn, v.value)
    ensures CtrOk(c, Submit(c, s, bio, h, v, skip))
  {
    var x := s.nextId;
    var t := NewBio(s, bio);
    NewBioCounts(c, s, bio);
    if !bio.full || (bio.write && (c.mode == WriteAround || skip)) {
      BypassCounts(c, t, x, bio.dbn, h);
    } else if h.Some? {
      HitCounts(c, t, x, h.value);
    } else if v.None? || (skip && !bio.write) {
      SameSlotsCounts(c, t, StartUncached(t, x));
    } else {
      ClaimCounts(c, t, x, bio.dbn, v.value);
    }
  }

  lemma ReleaseCounts(c: Config, s: State, u: State, i: nat)
    requires CtrOk(c, s) && i < |s.slots| && u.slots == s.slots && u.ctr == s.ctr && !IsCleaning(s.slots[i])
    ensures CtrOk(c, Release(u, i))
  {
    UncountedKeeps(c, s, Release(u, i), i);
  }

  lemma IoCallbackCounts(c: Config, s: State, i: nat)
    requires CtrOk(c, s) && Idx(c, s, i)
    ensures CtrOk(c, IoCallback(c, s, i))
  {
    var t := IoCallback(c, s, i);
    match s.slots[i].work
    case ReadDisk(_, _) => UncountedKeeps(c, s, t, i);
    case ReadCache(x, got) => if got.Some? { ReleaseCounts(c, s, EndBio(s, x, got.value), i); }
    case ReadFill(x, data, _) => ReleaseCounts(c, s, EndBio(s, x, data), i);
    case WriteCache(x, _, _) =>
      ReleaseCounts(c, s, EndBio(s, x, s.ssd[i]), i);
      ReleaseCounts(c, s, EndBio(s, x, OnDisk(s, s.slots[i].dbn)), i);
      UncountedKeeps(c, s, WithWork(s, i, MdDirty(x)), i);
    case _ =>
  }

  /** The counters of a finished metadata job move with the DIRTY bit and the job. */
  lemma MdDoneCounts(c: Config, s: State, i: nat)
    requires CtrOk(c, s) && Idx(c, s, i) && SlotOk(c, i, s.slots[i]) && InMd(s.slots[i].work)
    ensures CtrOk(c, MdDoneJob(c, s, i))
  {
    if s.slots[i].work.MdDirty? { DirtiedTally(c, s, i); } else { CleanedTally(c, s, i); }
    TalliedKeeps(c, s, MdDoneJob(c, s, i), i);
  }

  lemma DirtiedTally(c: Config, s: State, i: nat)
    requires Idx(c, s, i) && |c.setOf| == c.size && SlotOk(c, i, s.slots[i]) && s.slots[i].work.MdDirty?
    ensures Tallied(c, s, MdDoneJob(c, s, i), i)
  {
    assert MdDoneJob(c, s, i).slots[i].bits.dirty;
  }

  lemma CleanedTally(c: Config, s: State, i: nat)
    requires Idx(c, s, i) && |c.setOf| == c.size && SlotOk(c, i, s.slots[i]) && s.slots[i].work.MdClean?
    ensures Tallied(c, s, MdDoneJob(c, s, i), i)
  {
    assert !MdDoneJob(c, s, i).slots[i].bits.dirty;
  }

  lemma DoPendingCounts(c: Config, s: State, i: nat)
    requires CtrOk(c, s) && Slots(c, s) && Idx(c, s, i) && s.slots[i].work.Finish?
    ensures CtrOk(c, DoPending(c, s, i))
  {
    assert SlotOk(c, i, s.slots[i]);
    if s.slots[i].bits.dirty {
      StartCleanCounts(c, s, i);
    } else {
      assert Tallied(c, s, DoPending(c, s, i), i);
      TalliedKeeps(c, s, DoPending(c, s, i), i);
    }
  }

  lemma DrainOneCounts(c: Config, s: State, i: nat, h: Option<nat>)
    requires CtrOk(c, s) && Inv(c, s) && Enabled(c, s, Replay(i, h))
    ensures CtrOk(c, DrainOne(c, s, i, h))
  {
    var t := DetachNext(s, i);
    var e := s.slots[i].work.rest[0];
    UncountedKeeps(c, s, t, i);
    if e.inval {
      LookupAfterDetach(c, s, i, h);
      DetachNextSlots(c, s, i);
      BypassCounts(c, t, e.id, s.slots[i].dbn, h);
    } else {
      SameSlotsCounts(c, t, StartUncached(t, e.id));
    }
  }

  lemma ReloadedCounts(c: Config, s: State, t: State)
    requires |t.slots| == |c.setOf| == c.size && t.ctr == Recount(c, t.slots)
    requires forall k {:trigger t.slots[k]} :: 0 <= k < c.size ==> !IsFallow(t.slots[k]) && !IsCleaning(t.slots[k])
    ensures CtrOk(c, t)
  {
    CountNone(t.slots, c.setOf, 0, IsCleaning);
    forall k: nat ensures CountIn(t.slots, c.setOf, k, IsFallow) == 0 && CountIn(t.slots, c.setOf, k, IsCleaning) == 0 {
      CountNone(t.slots, c.setOf, k, IsFallow);
      CountNone(t.slots, c.setOf, k, IsCleaning);
    }
  }

  // ----- every step, every run -----

  lemma EffectCounts(c: Config, s: State, step: Step)
    requires CtrOk(c, s) && Enabled(c, s, step) && IsEffect(step)
    ensures CtrOk(c, Apply(c, s, step))
  {
    if step.DiskUncached? {
      SameSlotsCounts(c, s, FxUncached(s, step.x));
    } else if step.MdEffect? {
      SameSlotsCounts(c, s, FxMetadata(s, step.m, step.k));
    } else {
      JobEffectCounts(c, s, step);
    }
  }

  lemma JobEffectCounts(c: Config, s: State, step: Step)
    requires CtrOk(c, s) && Enabled(c, s, step) && IsEffect(step) && !step.DiskUncached? && !step.MdEffect?
    ensures CtrOk(c, Apply(c, s, step))
  {
    UncountedKeeps(c, s, Apply(c, s, step), step.i);
  }

  lemma ReloadStepCounts(c: Config, s: State, step: Step)
    requires CtrOk(c, s) && Enabled(c, s, step) && (step.PowerLoss? || step.CleanRestart?)
    ensures CtrOk(c, Apply(c, s, step))
  {
    ReloadedCounts(c, s, Apply(c, s, step));
  }

  lemma StepCounts(c: Config, s: State, step: Step)
    requires CtrOk(c, s) && Inv(c, s) && Enabled(c, s, step)
    ensures CtrOk(c, Apply(c, s, step))
  {
    if IsEffect(step) {
      EffectCounts(c, s, step);
    } else if step.PowerLoss? || step.CleanRestart? {
      ReloadStepCounts(c, s, step);
    } else if step.Kickoff? || step.MdWritten? || step.MdFinish? || step.MdAdvance? {
      HeadCounts(c, s, step);
    } else {
      SectionCounts(c, s, step);
    }
  }

  lemma HeadCounts(c: Config, s: State, step: Step)
    requires CtrOk(c, s) && Inv(c, s) && Enabled(c, s, step)
    requires step.Kickoff? || step.MdWritten? || step.MdFinish? || step.MdAdvance?
    ensures CtrOk(c, Apply(c, s, step))
  {
    if step.MdFinish? {
      var i := s.heads[step.m].active[0];
      assert HeadOk(c, s, step.m) && All(s.heads[step.m])[0] == i && SlotOk(c, i, s.slots[i]);
      MdDoneCounts(c, s, i);
      SameSlotsCounts(c, MdDoneJob(c, s, i), MdDoneOne(c, s, step.m));
    } else {
      SameSlotsCounts(c, s, Apply(c, s, step));
    }
  }

  lemma SectionCounts(c: Config, s: State, step: Step)
    requires CtrOk(c, s) && Inv(c, s) && Enabled(c, s, step) && !IsEffect(step)
    requires !step.PowerLoss? && !step.CleanRestart? && !step.Kickoff? && !step.MdWritten? && !step.MdFinish? && !step.MdAdvance?
    ensures CtrOk(c, Apply(c, s, step))
  {
    match step
    case Map(bio, hit, victim, skip) => SubmitCounts(c, s, bio, hit, victim, skip);
    case UncachedDone(x, hit) => UncachedCounts(c, s, x, hit);
    case Replay(i, hit) => DrainOneCounts(c, s, i, hit);
    case IoDone(i) => IoCallbackCounts(c, s, i);
    case CopyDone(i) => CopyDoneCounts(c, s, i);
    case Pending(i) => DoPendingCounts(c, s, i);
    case Detach(i) => DrainCounts(c, s, i);
    case DrainDone(i) => DrainCounts(c, s, i);
    case CleanSlot(i) => CleanSlotCounts(c, s, i);
    case MarkFallow(i) => DetectFallowCounts(c, s, i);
  }

  lemma CopyDoneCounts(c: Config, s: State, i: nat)
    requires CtrOk(c, s) && Idx(c, s, i) && s.slots[i].work.WriteDisk?
    ensures CtrOk(c, KcopydCallback(c, s, i))
  {
    UncountedKeeps(c, s, KcopydCallback(c, s, i), i);
  }

  lemma DrainCounts(c: Config, s: State, i: nat)
    requires CtrOk(c, s) && Idx(c, s, i) && (s.slots[i].work.Limbo? || s.slots[i].work.Drain?)
    ensures CtrOk(c, Dequeue(s, i)) && CtrOk(c, DrainEnd(s, i))
  {
    UncountedKeeps(c, s, Dequeue(s, i), i);
    UncountedKeeps(c, s, DrainEnd(s, i), i);
  }

  lemma CleanSlotCounts(c: Config, s: State, i: nat)
    requires CtrOk(c, s) && Slots(c, s) && Idx(c, s, i) && !s.slots[i].bits.Busy()
    ensures CtrOk(c, StartClean(c, s, i))
  {
    assert SlotOk(c, i, s.slots[i]);
    StartCleanCounts(c, s, i);
  }

  lemma UncachedCounts(c: Config, s: State, x: nat, h: Option<nat>)
    requires CtrOk(c, s) && Inv(c, s) && Enabled(c, s, UncachedDone(x, h))
    ensures CtrOk(c, UncachedComplete(c, s, x, h))
  {
    var u := Moved(s, x, Hand);
    assert Slots(c, u) by { forall k | 0 <= k < c.size ensures SlotOk(c, k, u.slots[k]) { assert SlotOk(c, k, s.slots[k]); } }
    InvalBlocksCounts(c, u, x, s.bios[x].bio.dbn, h);
    var (t, queued) := InvalBlocks(c, u, x, h);
    if !queued { SameSlotsCounts(c, t, EndInHand(t, x)); }
  }

  lemma StartCounts(c: Config, disk: map<nat, Data>)
    requires WellFormed(c)
    ensures CtrOk(c, Start(c, disk))
  {
    var s := Start(c, disk);
    CountNone(s.slots, c.setOf, 0, IsCached);
    CountNone(s.slots, c.setOf, 0, IsDirty);
    CountNone(s.slots, c.setOf, 0, IsCleaning);
    forall k: nat ensures CountIn(s.slots, c.setOf, k, IsDirty) == 0 && CountIn(s.slots, c.setOf, k, IsFallow) == 0
                          && CountIn(s.slots, c.setOf, k, IsCleaning) == 0
    {
      CountNone(s.slots, c.setOf, k, IsDirty);
      CountNone(s.slots, c.setOf, k, IsFallow);
      CountNone(s.slots, c.setOf, k, IsCleaning);
    }
  }

  lemma {:induction false} RunCounts(c: Config, disk: map<nat, Data>, run: seq<State>, steps: seq<Step>, n: nat)
    requires WellFormed(c) && IsRun(c, disk, run, steps) && n < |run|
    ensures CtrOk(c, run[n])
    decreases n
  {
    if n == 0 {
      StartCounts(c, disk);
    } else {
      RunCounts(c, disk, run, steps, n - 1);
      RunGood(c, disk, run, steps, n - 1);
      assert Follows(c, run, steps, n - 1);
      StepCounts(c, run[n - 1], steps[n - 1]);
    }
  }

  /** The counters are the true counts in every reachable state. */
  lemma CountersTrue(c: Config, disk: map<nat, Data>, s: State)
    requires WellFormed(c) && Reachable(c, disk, s)
    ensures CtrOk(c, s)
  {
    var run, steps :| IsRun(c, disk, run, steps) && run[|run| - 1] == s;
    RunCounts(c, disk, run, steps, |run| - 1);
  }

  /** So none of the driver's checks on them can fail: nr_dirty and clean_inprog are positive
      when a cleaning is done, dirty_fallow when a fallow mark is cleared; and fallow
      marks are on idle DIRTY slots only. */
  lemma NoCounterPanic(c: Config, disk: map<nat, Data>, s: State, i: nat)
    requires WellFormed(c) && Reachable(c, disk, s) && i < |s.slots|
    ensures Idx(c, s, i)
    ensures s.slots[i].work.MdClean? ==> s.ctr.dirty > 0 && s.ctr.setDirty[c.setOf[i]] > 0 && s.ctr.cleaning > 0 && s.ctr.setCleaning[c.setOf[i]] > 0
    ensures s.slots[i].bits.fallow2 ==> s.ctr.setFallow[c.setOf[i]] > 0
    ensures s.slots[i].bits.fallow1 || s.slots[i].bits.fallow2 ==> s.slots[i].bits.dirty && !s.slots[i].bits.Busy()
    ensures s.slots[i].bits.valid ==> s.ctr.cached > 0
  {
    ReachableGood(c, disk, s);
    CountersTrue(c, disk, s);
    assert SlotOk(c, i, s.slots[i]);
    if s.slots[i].work.MdClean? {
      CountPositive(s.slots, i, IsDirty);
      CountPositive(s.slots, i, IsCleaning);
      CountInPositive(s.slots, c.setOf, i, IsDirty);
      CountInPositive(s.slots, c.setOf, i, IsCleaning);
    }
    if s.slots[i].bits.fallow2 { CountInPositive(s.slots, c.setOf, i, IsFallow); }
    if s.slots[i].bits.valid { CountPositive(s.slots, i, IsCached); }
  }
}
