/** Every step keeps the invariant. */
module StepProofs {
  import opened Types
  import opened Protocol
  import opened Invariant
  import opened Frames
  import opened SlotSteps
  import opened RequestSteps
  import opened ContentSteps
  import opened EndSteps
  import opened MetaSteps
  import opened Steps

  lemma LookupMiss(c: Config, s: State, b: nat)
    requires Slots(c, s) && IsLookup(c, s, b, None)
    ensures NoValid(s, b)
  {
    forall k | 0 <= k < |s.slots| && s.slots[k].bits.valid ensures s.slots[k].dbn != b { assert SlotOk(c, k, s.slots[k]); }
  }

  /** Marking DISKWRITEINPROG and queueing commute. */
  lemma CleanThenQueue(c: Config, s: State, x: nat, i: nat)
    requires Idx(c, s, i)
    ensures StartClean(c, Enqueue(s, x, i, true), i) == Enqueue(StartClean(c, s, i), x, i, true)
  {
    YoungThenQueue(c, s, x, i);
    WritebackThenQueue(c, ClearFallow(c, s, i), x, i);
  }

  lemma YoungThenQueue(c: Config, s: State, x: nat, i: nat)
    requires Idx(c, s, i)
    ensures ClearFallow(c, Enqueue(s, x, i, true), i) == Enqueue(ClearFallow(c, s, i), x, i, true)
  {
    assert ClearFallow(c, Enqueue(s, x, i, true), i).slots == Enqueue(ClearFallow(c, s, i), x, i, true).slots;
  }

  lemma WritebackThenQueue(c: Config, s: State, x: nat, i: nat)
    requires Idx(c, s, i)
    ensures DirtyWriteback(c, Enqueue(s, x, i, true), i) == Enqueue(DirtyWriteback(c, s, i), x, i, true)
  {
    assert DirtyWriteback(c, Enqueue(s, x, i, true), i).slots == Enqueue(DirtyWriteback(c, s, i), x, i, true).slots;
  }

  lemma QueueAndClean(c: Config, s: State, x: nat, i: nat)
    requires Inv(c, s) && InHand(s, x) && Idx(c, s, i) && s.slots[i].dbn == s.bios[x].bio.dbn
    requires s.slots[i].bits.dirty && s.slots[i].work.NoWork?
    ensures Inv(c, StartClean(c, Enqueue(s, x, i, true), i))
    ensures x in StartClean(c, Enqueue(s, x, i, true), i).bios && StartClean(c, Enqueue(s, x, i, true), i).bios[x].place.Queued?
  {
    assert SlotOk(c, i, s.slots[i]);
    StartCleanKeeps(c, s, i);
    CleanThenQueue(c, s, x, i);
    EnqueueKeeps(c, StartClean(c, s, i), x, i, true);
  }

  /** flashcache_inval_blocks: the request is queued, or no VALID slot of its block is left. */
  lemma InvalBlocksKeeps(c: Config, s: State, x: nat, h: Option<nat>)
    requires Inv(c, s) && InHand(s, x) && MaybeIdx(c, s, h) && IsLookup(c, s, s.bios[x].bio.dbn, h)
    ensures var (t, queued) := InvalBlocks(c, s, x, h);
            Inv(c, t) && (queued ==> x in t.bios && t.bios[x].place.Queued?)
            && (!queued ==> t.bios == s.bios && t.disk == s.disk && NoValid(t, s.bios[x].bio.dbn))
  {
    var b := s.bios[x].bio.dbn;
    if h.None? {
      LookupMiss(c, s, b);
    } else {
      var i := h.value;
      var sl := s.slots[i];
      assert SlotOk(c, i, sl);
      if !sl.bits.Busy() && !sl.bits.dirty && sl.nrQueued == 0 {
        InvalidateKeeps(c, s, i);
        InvalidatedGone(c, s, i);
      } else if sl.bits.dirty && !sl.bits.Busy() {
        QueueAndClean(c, s, x, i);
      } else {
        EnqueueKeeps(c, s, x, i, true);
      }
    }
  }

  lemma InvalidatedGone(c: Config, s: State, i: nat)
    requires Slots(c, s) && i < c.size && s.slots[i].bits.valid
    ensures NoValid(Invalidate(s, i), s.slots[i].dbn)
  {
    var t := Invalidate(s, i);
    forall k | 0 <= k < |t.slots| && t.slots[k].bits.valid ensures t.slots[k].dbn != s.slots[i].dbn { assert k != i && t.slots[k] == s.slots[k]; }
  }

  lemma BypassKeeps(c: Config, s: State, x: nat, h: Option<nat>)
    requires Inv(c, s) && InHand(s, x) && MaybeIdx(c, s, h) && IsLookup(c, s, s.bios[x].bio.dbn, h)
    ensures Inv(c, Bypass(c, s, x, h))
  {
    InvalBlocksKeeps(c, s, x, h);
    var (t, queued) := InvalBlocks(c, s, x, h);
    if !queued { StartUncachedKeeps(c, t, x); }
  }

  lemma HitKeeps(c: Config, s: State, x: nat, i: nat)
    requires Inv(c, s) && x in s.bios && s.bios[x].place == Fresh && s.bios[x].bio.full
    requires s.bios[x].bio.write ==> c.mode != WriteAround
    requires Idx(c, s, i) && s.slots[i].bits.valid && s.slots[i].dbn == s.bios[x].bio.dbn
    ensures Inv(c, Hit(c, s, x, i))
  {
    var t := ClearFallow(c, s, i);
    ClearFallowKeeps(c, s, i);
    assert SlotOk(c, i, s.slots[i]) && SlotOk(c, i, t.slots[i]);
    if !t.slots[i].bits.Busy() && t.slots[i].nrQueued == 0 {
      if t.bios[x].bio.write { StartWriteHitKeeps(c, t, x, i); } else { StartReadHitKeeps(c, t, x, i); }
    } else {
      EnqueueKeeps(c, t, x, i, false);
    }
  }

  lemma MissKeeps(c: Config, s: State, x: nat, v: Option<nat>, skip: bool)
    requires Inv(c, s) && x in s.bios && s.bios[x].place == Fresh && s.bios[x].bio.full
    requires s.bios[x].bio.write ==> c.mode != WriteAround
    requires NoValid(s, s.bios[x].bio.dbn)
    requires v.Some? ==> Idx(c, s, v.value) && Claimable(c, s, s.bios[x].bio.dbn, v.value)
    ensures Inv(c, Miss(s, x, v, skip))
  {
    if v.None? || (skip && !s.bios[x].bio.write) { StartUncachedKeeps(c, s, x); } else { ClaimKeeps(c, s, x, v.value); }
  }

  lemma SubmitKeeps(c: Config, s: State, bio: Bio, h: Option<nat>, v: Option<nat>, skip: bool)
    requires Inv(c, s) && MaybeIdx(c, s, h) && MaybeIdx(c, s, v) && IsLookup(c, s, bio.dbn, h)
    requires v.Some? ==> Claimable(c, s, bio.dbn, v.value)
    ensures Inv(c, Submit(c, s, bio, h, v, skip))
  {
    var x := s.nextId;
    var t := NewBio(s, bio);
    NewBioKeeps(c, s, bio);
    if !bio.full || (bio.write && (c.mode == WriteAround || skip)) {
      BypassKeeps(c, t, x, h);
    } else if h.Some? {
      HitKeeps(c, t, x, h.value);
    } else {
      LookupMiss(c, s, bio.dbn);
      MissKeeps(c, t, x, v, skip);
    }
  }

  lemma IoCallbackKeeps(c: Config, s: State, i: nat)
    requires Inv(c, s) && Enabled(c, s, IoDone(i))
    ensures Inv(c, IoCallback(c, s, i))
  {
    match s.slots[i].work
    case ReadDisk(_, _) => ToFillKeeps(c, s, i);
    case ReadCache(x, got) => EndJobKeeps(c, s, i, x, got.value);
    case ReadFill(x, data, _) => EndJobKeeps(c, s, i, x, data);
    case WriteCache(x, _, _) =>
      if c.mode == WriteBack {
        if !s.slots[i].bits.dirty { ToMdDirtyKeeps(c, s, i); } else { EndJobKeeps(c, s, i, x, s.ssd[i]); }
      } else {
        EndJobKeeps(c, s, i, x, OnDisk(s, s.slots[i].dbn));
      }
  }

  lemma MdDoneOneKeeps(c: Config, s: State, m: nat)
    requires Inv(c, s) && Enabled(c, s, MdFinish(m))
    ensures Inv(c, MdDoneOne(c, s, m))
  {
    var i := s.heads[m].active[0];
    assert InMd(s.slots[i].work) by { assert HeadOk(c, s, m); assert All(s.heads[m])[0] == i; }
    if s.slots[i].work.MdDirty? { MdDoneDirtyKeeps(c, s, m); } else { MdDoneCleanKeeps(c, s, m); }
  }

  lemma DoPendingKeeps(c: Config, s: State, i: nat)
    requires Inv(c, s) && Idx(c, s, i) && s.slots[i].work.Finish?
    ensures Inv(c, DoPending(c, s, i))
  {
    if s.slots[i].bits.dirty { StartCleanKeeps(c, s, i); } else { LimboKeeps(c, s, i); }
  }

  lemma DrainOneKeeps(c: Config, s: State, i: nat, h: Option<nat>)
    requires Inv(c, s) && Enabled(c, s, Replay(i, h))
    ensures Inv(c, DrainOne(c, s, i, h))
  {
    var e := s.slots[i].work.rest[0];
    var t := DetachNext(s, i);
    DetachNextKeeps(c, s, i);
    if e.inval {
      LookupAfterDetach(c, s, i, h);
      BypassKeeps(c, t, e.id, h);
    } else {
      StartUncachedKeeps(c, t, e.id);
    }
  }

  lemma DetachNextSlots(c: Config, s: State, i: nat)
    requires Slots(c, s) && i < c.size && s.slots[i].work.Drain? && s.slots[i].work.rest != []
    ensures Slots(c, DetachNext(s, i))
  {
    var t := DetachNext(s, i);
    forall k | 0 <= k < c.size ensures SlotOk(c, k, t.slots[k]) { assert SlotOk(c, k, s.slots[k]); }
  }

  lemma LookupAfterDetach(c: Config, s: State, i: nat, h: Option<nat>)
    requires Idx(c, s, i) && MaybeIdx(c, s, h) && s.slots[i].work.Drain? && s.slots[i].work.rest != []
    requires IsLookup(c, s, s.slots[i].dbn, h)
    ensures MaybeIdx(c, DetachNext(s, i), h) && IsLookup(c, DetachNext(s, i), s.slots[i].dbn, h)
  {
    var t := DetachNext(s, i);
    forall k | 0 <= k < |t.slots| ensures t.slots[k].bits == s.slots[k].bits && t.slots[k].dbn == s.slots[k].dbn {}
  }

  lemma UncachedCompleteKeeps(c: Config, s: State, x: nat, h: Option<nat>)
    requires Inv(c, s) && Enabled(c, s, UncachedDone(x, h))
    ensures Inv(c, UncachedComplete(c, s, x, h))
  {
    var u := Moved(s, x, Hand);
    TakeBackKeeps(c, s, x);
    InvalBlocksKeeps(c, u, x, h);
    var (t, queued) := InvalBlocks(c, u, x, h);
    if !queued { EndInHandKeeps(c, t, x); }
  }
}
