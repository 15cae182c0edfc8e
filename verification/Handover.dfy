/** Between steps no request is in anybody's hands: every critical section leaves the
    request it works on with a job, in the pending table, or ended. */
module Handover {
  import opened Types
  import opened Protocol
  import opened Invariant
  import opened Steps

  ghost predicate Settled(s: State) {
    forall x {:trigger s.bios[x]} :: x in s.bios ==> s.bios[x].place != Fresh && s.bios[x].place != Hand
  }

  /** Only request x moves, or leaves. */
  ghost predicate OthersStay(s: State, t: State, x: nat) {
    forall y {:trigger t.bios[y]} :: y in t.bios && y != x ==> y in s.bios && t.bios[y].place == s.bios[y].place
  }

  /** ... and it ends up where something will take care of it. */
  ghost predicate Lands(s: State, t: State, x: nat) {
    OthersStay(s, t, x) && x in t.bios && (t.bios[x].place.Queued? || t.bios[x].place == Uncached || t.bios[x].place.OnSlot?)
  }

  lemma InvalBlocksPlaces(c: Config, s: State, x: nat, h: Option<nat>)
    requires x in s.bios && MaybeIdx(c, s, h)
    ensures OthersStay(s, InvalBlocks(c, s, x, h).0, x) && x in InvalBlocks(c, s, x, h).0.bios
    ensures InvalBlocks(c, s, x, h).1 ==> InvalBlocks(c, s, x, h).0.bios[x].place.Queued?
  {
  }

  lemma BypassPlaces(c: Config, s: State, x: nat, h: Option<nat>)
    requires x in s.bios && MaybeIdx(c, s, h)
    ensures Lands(s, Bypass(c, s, x, h), x)
  {
    InvalBlocksPlaces(c, s, x, h);
  }

  lemma HitPlaces(c: Config, s: State, x: nat, i: nat)
    requires x in s.bios && Idx(c, s, i)
    ensures Lands(s, Hit(c, s, x, i), x)
  {
  }

  lemma MissPlaces(s: State, x: nat, v: Option<nat>, skip: bool)
    requires x in s.bios && (v.Some? ==> v.value < |s.slots|)
    ensures Lands(s, Miss(s, x, v, skip), x)
  {
  }

  lemma SubmitPlaces(c: Config, s: State, bio: Bio, h: Option<nat>, v: Option<nat>, skip: bool)
    requires MaybeIdx(c, s, h) && MaybeIdx(c, s, v)
    ensures Lands(NewBio(s, bio), Submit(c, s, bio, h, v, skip), s.nextId)
  {
    var t := NewBio(s, bio);
    if !bio.full || (bio.write && (c.mode == WriteAround || skip)) {
      BypassPlaces(c, t, s.nextId, h);
    } else if h.Some? {
      HitPlaces(c, t, s.nextId, h.value);
    } else {
      MissPlaces(t, s.nextId, v, skip);
    }
  }

  lemma SubmitSettled(c: Config, s: State, bio: Bio, h: Option<nat>, v: Option<nat>, skip: bool)
    requires MaybeIdx(c, s, h) && MaybeIdx(c, s, v) && Settled(s)
    ensures Settled(Submit(c, s, bio, h, v, skip))
  {
    SubmitPlaces(c, s, bio, h, v, skip);
    NewBioPlaces(s, bio);
    LandsSettled(s, NewBio(s, bio), Submit(c, s, bio, h, v, skip), s.nextId);
  }

  lemma NewBioPlaces(s: State, bio: Bio)
    ensures OthersStay(s, NewBio(s, bio), s.nextId)
  {
  }

  lemma LandsSettled(s: State, u: State, t: State, x: nat)
    requires Settled(s) && OthersStay(s, u, x) && Lands(u, t, x)
    ensures Settled(t)
  {
  }

  lemma UncachedDoneSettled(c: Config, s: State, x: nat, h: Option<nat>)
    requires x in s.bios && MaybeIdx(c, s, h) && Settled(s)
    ensures Settled(UncachedComplete(c, s, x, h))
  {
    InvalBlocksPlaces(c, Moved(s, x, Hand), x, h);
  }

  lemma ReplaySettled(c: Config, s: State, i: nat, h: Option<nat>)
    requires Bios(c, s) && Settled(s) && Idx(c, s, i) && MaybeIdx(c, s, h) && s.slots[i].work.Drain? && s.slots[i].work.rest != []
    ensures Settled(DrainOne(c, s, i, h))
  {
    var e, u := s.slots[i].work.rest[0], DetachNext(s, i);
    assert EntriesOk(s, i) && e.id in s.bios;
    DetachNextPlaces(s, i);
    if e.inval { BypassPlaces(c, u, e.id, h); } else { StartUncachedPlaces(u, e.id); }
    LandsSettled(s, u, DrainOne(c, s, i, h), e.id);
  }

  lemma DetachNextPlaces(s: State, i: nat)
    requires i < |s.slots| && s.slots[i].work.Drain? && s.slots[i].work.rest != [] && s.slots[i].work.rest[0].id in s.bios
    ensures OthersStay(s, DetachNext(s, i), s.slots[i].work.rest[0].id) && s.slots[i].work.rest[0].id in DetachNext(s, i).bios
  {
  }

  lemma StartUncachedPlaces(s: State, x: nat)
    requires x in s.bios
    ensures Lands(s, StartUncached(s, x), x)
  {
  }

  predicate Rehouses(step: Step) { step.Map? || step.Replay? || step.UncachedDone? || step.Detach? || step.PowerLoss? }

  /** Nothing changes hands. */
  ghost predicate AllStay(s: State, t: State) {
    forall y {:trigger t.bios[y]} :: y in t.bios ==> y in s.bios && t.bios[y].place == s.bios[y].place
  }

  lemma EffectStays(c: Config, s: State, step: Step)
    requires Enabled(c, s, step) && IsEffect(step)
    ensures AllStay(s, Apply(c, s, step))
  {
    if step.DiskUncached? { assert AllStay(s, FxUncached(s, step.x)); } else { assert Apply(c, s, step).bios == s.bios; }
  }

  lemma IoCallbackStays(c: Config, s: State, i: nat)
    requires Idx(c, s, i)
    ensures AllStay(s, IoCallback(c, s, i))
  {
    match s.slots[i].work
    case ReadDisk(_, _) =>
    case ReadCache(x, got) => if got.Some? { EndReleaseStays(s, x, got.value, i); }
    case ReadFill(x, data, _) => EndReleaseStays(s, x, data, i);
    case WriteCache(x, _, _) =>
      EndReleaseStays(s, x, s.ssd[i], i);
      EndReleaseStays(s, x, OnDisk(s, s.slots[i].dbn), i);
    case _ =>
  }

  lemma EndReleaseStays(s: State, x: nat, result: Data, i: nat)
    requires i < |s.slots|
    ensures AllStay(s, Release(EndBio(s, x, result), i))
  {
  }

  lemma MdDoneStays(c: Config, s: State, i: nat)
    requires Idx(c, s, i)
    ensures AllStay(s, MdDoneJob(c, s, i))
  {
  }

  lemma SectionStays(c: Config, s: State, step: Step)
    requires Enabled(c, s, step) && !Rehouses(step) && !IsEffect(step)
    ensures AllStay(s, Apply(c, s, step))
  {
    if step.IoDone? {
      IoCallbackStays(c, s, step.i);
    } else if step.MdFinish? {
      MdDoneStays(c, s, s.heads[step.m].active[0]);
    } else {
      assert Apply(c, s, step).bios == s.bios;
    }
  }

  lemma StepSettled(c: Config, s: State, step: Step)
    requires Bios(c, s) && Settled(s) && Enabled(c, s, step)
    ensures Settled(Apply(c, s, step))
  {
    if !Rehouses(step) {
      if IsEffect(step) { EffectStays(c, s, step); } else { SectionStays(c, s, step); }
    } else {
      match step
      case Map(bio, hit, victim, skip) => SubmitSettled(c, s, bio, hit, victim, skip);
      case Replay(i, hit) => ReplaySettled(c, s, i, hit);
      case UncachedDone(x, hit) => UncachedDoneSettled(c, s, x, hit);
      case Detach(_) =>
      case PowerLoss =>
    }
  }
}
