/** What a cache is for: a block that may be cached is cached once it has been asked for, and is
    then served without the disk; what goes past the cache is not in it afterwards; cleaning
    leaves a block cached. One request at a time, on a cache at rest. */
module Residency {
  import opened Types
  import opened Protocol
  import opened Invariant
  import opened Steps
  import opened Progress
  import opened SlotIndex
  import opened Theorems
  import opened Handover
  import Durability

  /** Slot i has block b. */
  predicate Cached(s: State, i: nat, b: nat) { i < |s.slots| && s.slots[i].bits.valid && s.slots[i].dbn == b }

  /** The step moves data to or from the disk. */
  predicate UsesDisk(step: Step) { step.DiskRead? || step.DiskMirror? || step.CopyRead? || step.CopyWrite? || step.DiskUncached? }

  // ----- only one slot is at work -----

  /** But for slot i and the write head of its metadata block, nothing has changed or is under way. */
  ghost predicate Alone(c: Config, was: State, s: State, i: nat) {
    && Idx(c, s, i) && |was.slots| == |s.slots|
    && (forall n {:trigger s.slots[n]} {:trigger was.slots[n]} :: 0 <= n < |s.slots| ==> was.slots[n].work.NoWork? && (n != i ==> s.slots[n] == was.slots[n]))
    && (forall m {:trigger s.heads[m]} :: 0 <= m < |s.heads| && m != c.mdOf[i] ==> s.heads[m].io.MdIdle?)
    && HeadFor(s.heads[c.mdOf[i]], s.slots[i], i) && s.slots[i].pend == [] && Rest(s.slots[i].work) == []
  }

  /** The head has the update of slot i or none. */
  predicate HeadFor(h: MdHead, sl: Slot, i: nat) {
    h.queue == [] && if InMd(sl.work) then h.active == [i] else h.active == [] && (h.io.MdIdle? || (h.io.MdCompleting? && sl.work.NoWork?))
  }

  lemma AloneAt(c: Config, was: State, s: State, t: State, i: nat)
    requires Alone(c, was, s, i) && Idx(c, t, i) && OnlyAt(s, t, i) && t.slots[i].pend == [] && Rest(t.slots[i].work) == []
    requires t.heads == s.heads[c.mdOf[i] := t.heads[c.mdOf[i]]] && HeadFor(t.heads[c.mdOf[i]], t.slots[i], i)
    ensures Alone(c, was, t, i)
  {
  }

  // ----- a request served from its slot -----

  /** The job of request x, which has found its block in the cache if `hit`. */
  predicate JobOf(c: Config, w: Work, x: nat, write: bool, hit: bool) {
    match w
    case NoWork => true
    case ReadCache(y, _) => y == x && !write && hit
    case ReadDisk(y, _) => y == x && !write && !hit
    case ReadFill(y, _, _) => y == x && !write && !hit
    case WriteCache(y, _, _) => y == x && write
    case MdDirty(y) => y == x && write && c.mode == WriteBack
    case _ => false
  }

  /** What the DIRTY bit is in the end. */
  predicate Soiled(c: Config, was: State, i: nat, bio: Bio, hit: bool)
    requires i < |was.slots|
  {
    if bio.write then c.mode == WriteBack else hit && was.slots[i].bits.dirty
  }

  predicate DirtyBit(c: Config, was: State, sl: Slot, i: nat, bio: Bio, hit: bool)
    requires i < |was.slots|
  {
    if bio.write && !sl.work.NoWork? then sl.bits.dirty == (hit && was.slots[i].bits.dirty)
    else sl.bits.dirty == Soiled(c, was, i, bio, hit)
  }

  predicate Mirrored(w: Work) { w.NoWork? || (w.WriteCache? && w.mirrored) }

  /** Request x is served by slot i, which has its block, and the disk is as it was unless the
      block is written through. */
  ghost predicate Serving(c: Config, was: State, s: State, i: nat, x: nat, bio: Bio, hit: bool) {
    && Alone(c, was, s, i) && Cached(s, i, bio.dbn) && JobOf(c, s.slots[i].work, x, bio.write, hit)
    && DirtyBit(c, was, s.slots[i], i, bio, hit) && !s.slots[i].bits.fallow1 && !s.slots[i].bits.fallow2
    && (forall y {:trigger y in s.bios} :: y in s.bios ==> y == x && s.bios[y].bio == bio && !s.slots[i].work.NoWork? && s.bios[y].place == OnSlot(i))
    && s.disk == if bio.write && c.mode == WriteThrough && Mirrored(s.slots[i].work) then was.disk[bio.dbn := bio.payload] else was.disk
  }

  /** Only a read that misses reads the disk, and only a write through writes it. */
  predicate Sparing(c: Config, bio: Bio, hit: bool, step: Step) {
    UsesDisk(step) ==> if bio.write then c.mode == WriteThrough && step.DiskMirror? else !hit && step.DiskRead?
  }

  ghost predicate Placed(c: Config, s: State, i: nat, x: nat, bio: Bio) {
    && i < |s.slots| && i < |c.setOf| && SlotOk(c, i, s.slots[i]) && s.slots[i].nrQueued == 0
    && (!s.slots[i].work.NoWork? ==> x in s.bios && s.bios[x].bio == bio)
  }

  lemma ServingJob(c: Config, was: State, s: State, i: nat, x: nat, bio: Bio, hit: bool)
    requires Inv(c, s) && Serving(c, was, s, i, x, bio, hit)
    ensures Placed(c, s, i, x, bio)
  {
    assert JobOk(s, i);
  }

  lemma EndServes(c: Config, was: State, s: State, i: nat, x: nat, bio: Bio, hit: bool, result: Data)
    requires Serving(c, was, s, i, x, bio, hit) && !s.slots[i].work.NoWork? && !InMd(s.slots[i].work)
    requires s.slots[i].bits.dirty == Soiled(c, was, i, bio, hit) && s.slots[i].nrQueued == 0 && (c.mode == WriteThrough && bio.write ==> Mirrored(s.slots[i].work))
    ensures Serving(c, was, Release(EndBio(s, x, result), i), i, x, bio, hit)
  {
    var t := Release(EndBio(s, x, result), i);
    EndedAt(s, x, result, i);
    AloneAt(c, was, s, t, i);
  }

  lemma WorkServes(c: Config, was: State, s: State, t: State, i: nat, x: nat, bio: Bio, hit: bool)
    requires Serving(c, was, s, i, x, bio, hit) && Idx(c, t, i) && !s.slots[i].work.NoWork? && !InMd(s.slots[i].work)
    requires t.slots == s.slots[i := s.slots[i].(work := t.slots[i].work)] && JobOf(c, t.slots[i].work, x, bio.write, hit) && !t.slots[i].work.NoWork? && !InMd(t.slots[i].work)
    requires t.heads == s.heads && t.bios == s.bios
    requires t.disk == if bio.write && c.mode == WriteThrough && Mirrored(t.slots[i].work) then s.disk[bio.dbn := bio.payload] else s.disk
    requires Mirrored(s.slots[i].work) ==> Mirrored(t.slots[i].work)
    ensures Serving(c, was, t, i, x, bio, hit)
  {
    AloneAt(c, was, s, t, i);
  }

  lemma ServingIo(c: Config, was: State, s: State, i: nat, x: nat, bio: Bio, hit: bool)
    requires Placed(c, s, i, x, bio) && Serving(c, was, s, i, x, bio, hit) && Enabled(c, s, IoDone(i))
    ensures Serving(c, was, Apply(c, s, IoDone(i)), i, x, bio, hit)
  {
    var t := Apply(c, s, IoDone(i));
    match s.slots[i].work
    case ReadDisk(_, _) => WorkServes(c, was, s, t, i, x, bio, hit);
    case ReadCache(_, got) => EndServes(c, was, s, i, x, bio, hit, got.value);
    case ReadFill(_, data, _) => EndServes(c, was, s, i, x, bio, hit, data);
    case WriteCache(_, _, _) =>
      if c.mode == WriteBack && !s.slots[i].bits.dirty {
        UpdateServes(c, was, s, i, x, bio, hit);
      } else {
        EndServes(c, was, s, i, x, bio, hit, if c.mode == WriteBack then s.ssd[i] else OnDisk(s, s.slots[i].dbn));
      }
  }

  lemma UpdateServes(c: Config, was: State, s: State, i: nat, x: nat, bio: Bio, hit: bool)
    requires Serving(c, was, s, i, x, bio, hit) && s.slots[i].work.WriteCache? && c.mode == WriteBack
    ensures Serving(c, was, MdWrite(c, WithWork(s, i, MdDirty(x)), i), i, x, bio, hit)
  {
    var t := MdWrite(c, WithWork(s, i, MdDirty(x)), i);
    MdWriteAt(c, s, i, MdDirty(x));
    AloneAt(c, was, s, t, i);
  }

  lemma ServingEffect(c: Config, was: State, s: State, i: nat, x: nat, bio: Bio, hit: bool, step: Step)
    requires Placed(c, s, i, x, bio) && Serving(c, was, s, i, x, bio, hit) && Enabled(c, s, step) && IsEffect(step)
    ensures Serving(c, was, Apply(c, s, step), i, x, bio, hit) && Sparing(c, bio, hit, step)
  {
    if step.MdEffect? {
      AloneAt(c, was, s, Apply(c, s, step), i);
    } else if step.DiskUncached? {
      assert false;
    } else if step.SsdWrite? || step.DiskMirror? {
      WriteEffect(c, was, s, i, x, bio, hit, step);
    } else {
      ReadEffect(c, was, s, i, x, bio, hit, step);
    }
  }

  lemma WriteEffect(c: Config, was: State, s: State, i: nat, x: nat, bio: Bio, hit: bool, step: Step)
    requires Serving(c, was, s, i, x, bio, hit) && Enabled(c, s, step) && (step.SsdWrite? || step.DiskMirror?) && Placed(c, s, i, x, bio)
    ensures Serving(c, was, Apply(c, s, step), i, x, bio, hit) && Sparing(c, bio, hit, step)
  {
    assert step.i == i;
    WorkServes(c, was, s, Apply(c, s, step), i, x, bio, hit);
  }

  lemma ReadEffect(c: Config, was: State, s: State, i: nat, x: nat, bio: Bio, hit: bool, step: Step)
    requires Serving(c, was, s, i, x, bio, hit) && Enabled(c, s, step)
    requires step.SsdRead? || step.DiskRead? || step.SsdFill? || step.CopyRead? || step.CopyWrite?
    ensures Serving(c, was, Apply(c, s, step), i, x, bio, hit) && Sparing(c, bio, hit, step)
  {
    assert step.i == i;
    WorkServes(c, was, s, Apply(c, s, step), i, x, bio, hit);
  }

  lemma ServingMd(c: Config, was: State, s: State, i: nat, x: nat, bio: Bio, hit: bool, step: Step)
    requires Placed(c, s, i, x, bio) && Serving(c, was, s, i, x, bio, hit) && Enabled(c, s, step) && (step.Kickoff? || step.MdWritten? || step.MdFinish? || step.MdAdvance?)
    ensures Serving(c, was, Apply(c, s, step), i, x, bio, hit)
  {
    assert step.m == c.mdOf[i];
    if step.MdFinish? {
      UpdatedServes(c, was, s, i, x, bio, hit);
    } else {
      AloneAt(c, was, s, Apply(c, s, step), i);
    }
  }

  lemma UpdatedServes(c: Config, was: State, s: State, i: nat, x: nat, bio: Bio, hit: bool)
    requires Placed(c, s, i, x, bio) && Serving(c, was, s, i, x, bio, hit) && Enabled(c, s, MdFinish(c.mdOf[i]))
    ensures Serving(c, was, MdDoneOne(c, s, c.mdOf[i]), i, x, bio, hit)
  {
    var t := MdDoneOne(c, s, c.mdOf[i]);
    MdDoneAt(c, s, i);
    AloneAt(c, was, s, t, i);
  }

  lemma ServingNext(c: Config, was: State, s: State, i: nat, x: nat, bio: Bio, hit: bool, step: Step)
    requires Serving(c, was, s, i, x, bio, hit) && Productive(c, s, step)
    ensures IsEffect(step) || step == IoDone(i) || step.Kickoff? || step.MdWritten? || step.MdFinish? || step.MdAdvance?
  {
  }

  /** It goes on being served so. */
  lemma ServingOn(c: Config, was: State, s: State, i: nat, x: nat, bio: Bio, hit: bool, step: Step)
    requires Inv(c, s) && Serving(c, was, s, i, x, bio, hit) && Productive(c, s, step)
    ensures Serving(c, was, Apply(c, s, step), i, x, bio, hit) && Sparing(c, bio, hit, step)
  {
    ServingJob(c, was, s, i, x, bio, hit);
    ServingNext(c, was, s, i, x, bio, hit, step);
    if IsEffect(step) {
      ServingEffect(c, was, s, i, x, bio, hit, step);
    } else if step.IoDone? {
      ServingIo(c, was, s, i, x, bio, hit);
    } else {
      ServingMd(c, was, s, i, x, bio, hit, step);
    }
  }

  /** The request has just entered a cache at rest. */
  ghost predicate Entered(s: State, u: State, x: nat, bio: Bio) {
    u.slots == s.slots && u.heads == s.heads && u.disk == s.disk && u.ctr == s.ctr && u.ssd == s.ssd && u.md == s.md
    && u.bios.Keys == {x} && u.bios[x].bio == bio && bio.full
  }

  ghost predicate Resting(c: Config, s: State, i: nat) {
    && Idx(c, s, i) && AtRest(s) && SlotOk(c, i, s.slots[i]) && s.heads[c.mdOf[i]].active == [] && s.heads[c.mdOf[i]].queue == []
  }

  lemma RestingAlone(c: Config, s: State, t: State, i: nat)
    requires Resting(c, s, i) && Idx(c, t, i) && OnlyAt(s, t, i) && t.heads == s.heads && !InMd(t.slots[i].work) && Rest(t.slots[i].work) == []
    requires t.slots[i].pend == s.slots[i].pend
    ensures Alone(c, s, t, i)
  {
  }

  /** A hit on an idle slot makes its block young again and starts the job. */
  lemma HitSlot(c: Config, u: State, i: nat, x: nat, bio: Bio)
    requires Idx(c, u, i) && x in u.bios && u.bios[x].bio == bio && SlotOk(c, i, u.slots[i]) && u.slots[i].work.NoWork?
    ensures var t, b := Hit(c, u, x, i), u.slots[i].bits.Young();
      && t.slots == u.slots[i := u.slots[i].(bits := if bio.write then b.(cacheWrite := true) else b.(cacheRead := true),
                                             work := if bio.write then WriteCache(x, false, false) else ReadCache(x, None))]
      && t.heads == u.heads && t.disk == u.disk && t.bios == u.bios[x := u.bios[x].(place := OnSlot(i))]
      && |t.ssd| == |u.ssd| && |t.md| == |u.md| && |t.ctr.setDirty| == |u.ctr.setDirty| && |t.ctr.setFallow| == |u.ctr.setFallow| && |t.ctr.setCleaning| == |u.ctr.setCleaning|
  {
    var w := ClearFallow(c, u, i);
    assert w.slots == u.slots[i := u.slots[i].(bits := u.slots[i].bits.Young())];
  }

  lemma HitBegins(c: Config, s: State, u: State, i: nat, x: nat, bio: Bio)
    requires Resting(c, s, i) && Entered(s, u, x, bio) && Idx(c, u, i) && Cached(s, i, bio.dbn)
    ensures Serving(c, s, Hit(c, u, x, i), i, x, bio, true)
  {
    HitSlot(c, u, i, x, bio);
    RestingAlone(c, s, Hit(c, u, x, i), i);
  }

  lemma ClaimBegins(c: Config, s: State, u: State, i: nat, x: nat, bio: Bio)
    requires Resting(c, s, i) && Entered(s, u, x, bio) && Idx(c, u, i)
    ensures Serving(c, s, Claim(u, x, i), i, x, bio, false)
  {
    RestingAlone(c, s, Claim(u, x, i), i);
  }

  lemma Rests(c: Config, s: State, i: nat)
    requires Inv(c, s) && AtRest(s) && Idx(c, s, i)
    ensures Resting(c, s, i)
  {
    assert SlotOk(c, i, s.slots[i]) && HeadOk(c, s, c.mdOf[i]);
  }

  /** So it begins, on a cache at rest: a request that does not go past the cache and finds its block
      or has a slot to take, unless it is a read that is not to fill the cache. */
  lemma ServingBegins(c: Config, s: State, bio: Bio, h: Option<nat>, v: Option<nat>, skip: bool)
    requires Inv(c, s) && AtRest(s) && Enabled(c, s, Step.Map(bio, h, v, skip)) && !Bypasses(c, bio, skip)
    requires h.Some? || (v.Some? && (bio.write || !skip))
    ensures Serving(c, s, Apply(c, s, Step.Map(bio, h, v, skip)), if h.Some? then h.value else v.value, s.nextId, bio, h.Some?)
  {
    var u := NewBio(s, bio);
    NewBioThere(s, bio);
    assert Entered(s, u, s.nextId, bio);
    Rests(c, s, if h.Some? then h.value else v.value);
    if h.Some? { HitBegins(c, s, u, h.value, s.nextId, bio); } else { ClaimBegins(c, s, u, v.value, s.nextId, bio); }
  }

  /** The slot has the block, exactly VALID or DIRTY as well; all other slots are as they were, and so
      is the disk but for a write through. */
  ghost predicate Served(c: Config, was: State, s: State, i: nat, bio: Bio, hit: bool) {
    && i < |was.slots| && s.slots == was.slots[i := Slot(VALID.(dirty := Soiled(c, was, i, bio, hit)), bio.dbn, 0, [], NoWork)]
    && s.disk == if bio.write && c.mode == WriteThrough then was.disk[bio.dbn := bio.payload] else was.disk
  }

  lemma ServingEnds(c: Config, was: State, s: State, i: nat, x: nat, bio: Bio, hit: bool)
    requires Inv(c, s) && Serving(c, was, s, i, x, bio, hit) && AtRest(s)
    ensures Served(c, was, s, i, bio, hit)
  {
    assert SlotOk(c, i, s.slots[i]);
    assert s.slots[i].bits == VALID.(dirty := Soiled(c, was, i, bio, hit));
    assert forall n {:trigger s.slots[n]} :: 0 <= n < |s.slots| && n != i ==> s.slots[n] == was.slots[n];
  }

  // ----- a block written back -----

  /** Slot i is being cleaned, on nobody's behalf: the disk gets what the slot holds. */
  ghost predicate Cleaning(c: Config, was: State, s: State, i: nat) {
    && Alone(c, was, s, i) && s.bios == map[] && s.ssd == was.ssd && s.slots[i].bits.valid && s.slots[i].dbn == was.slots[i].dbn
    && !s.slots[i].bits.fallow1 && !s.slots[i].bits.fallow2 && s.slots[i].bits.dirty == !s.slots[i].work.NoWork?
    && (match s.slots[i].work
        case WriteDisk(copy, stored) => (copy.Some? ==> copy.value == s.ssd[i]) && (stored ==> copy.Some?) && if stored then CleanedDisk(was, s, i) else s.disk == was.disk
        case MdClean => CleanedDisk(was, s, i)
        case NoWork => CleanedDisk(was, s, i)
        case _ => false)
  }

  predicate CleanedDisk(was: State, s: State, i: nat)
    requires i < |was.slots| && i < |s.ssd|
  {
    s.disk == was.disk[was.slots[i].dbn := s.ssd[i]]
  }

  lemma CleanSlotBegins(c: Config, s: State, i: nat)
    requires Resting(c, s, i) && s.slots[i].bits.dirty
    ensures Cleaning(c, s, StartClean(c, s, i), i)
  {
    SlotStepsAt(c, s, i);
    RestingAlone(c, s, StartClean(c, s, i), i);
  }

  lemma CleaningBegins(c: Config, s: State, i: nat)
    requires Inv(c, s) && AtRest(s) && Enabled(c, s, CleanSlot(i))
    ensures Cleaning(c, s, Apply(c, s, CleanSlot(i)), i)
  {
    Rests(c, s, i);
    CleanSlotBegins(c, s, i);
  }

  lemma CleaningNext(c: Config, was: State, s: State, i: nat, step: Step)
    requires Cleaning(c, was, s, i) && Productive(c, s, step)
    ensures step == CopyRead(i) || step == CopyWrite(i) || step == CopyDone(i) || step.MdEffect?
            || step == Kickoff(c.mdOf[i]) || step == MdWritten(c.mdOf[i]) || step == MdFinish(c.mdOf[i]) || step == MdAdvance(c.mdOf[i])
  {
  }

  lemma CopyCleans(c: Config, was: State, s: State, i: nat, step: Step)
    requires Cleaning(c, was, s, i) && Enabled(c, s, step) && (step == CopyRead(i) || step == CopyWrite(i)) && !(step.CopyRead? && s.slots[i].work.copy.Some?)
    ensures Cleaning(c, was, Apply(c, s, step), i)
  {
    AloneAt(c, was, s, Apply(c, s, step), i);
  }

  lemma UpdateCleans(c: Config, was: State, s: State, i: nat)
    requires Cleaning(c, was, s, i) && Enabled(c, s, CopyDone(i))
    ensures Cleaning(c, was, KcopydCallback(c, s, i), i)
  {
    MdWriteAt(c, s, i, MdClean);
    AloneAt(c, was, s, KcopydCallback(c, s, i), i);
  }

  lemma UpdatedCleans(c: Config, was: State, s: State, i: nat)
    requires Cleaning(c, was, s, i) && Enabled(c, s, MdFinish(c.mdOf[i])) && s.slots[i].nrQueued == 0
    ensures Cleaning(c, was, MdDoneOne(c, s, c.mdOf[i]), i)
  {
    MdDoneAt(c, s, i);
    AloneAt(c, was, s, MdDoneOne(c, s, c.mdOf[i]), i);
  }

  lemma HeadCleans(c: Config, was: State, s: State, i: nat, step: Step)
    requires Cleaning(c, was, s, i) && Enabled(c, s, step)
    requires step == Kickoff(c.mdOf[i]) || step == MdWritten(c.mdOf[i]) || step == MdAdvance(c.mdOf[i]) || step.MdEffect?
    ensures Cleaning(c, was, Apply(c, s, step), i)
  {
    AloneAt(c, was, s, Apply(c, s, step), i);
  }

  lemma CleaningOn(c: Config, was: State, s: State, i: nat, step: Step)
    requires Inv(c, s) && Cleaning(c, was, s, i) && Productive(c, s, step)
    ensures Cleaning(c, was, Apply(c, s, step), i)
  {
    CleaningNext(c, was, s, i, step);
    assert SlotOk(c, i, s.slots[i]);
    if step.CopyRead? || step.CopyWrite? {
      CopyCleans(c, was, s, i, step);
    } else if step.CopyDone? {
      UpdateCleans(c, was, s, i);
    } else if step.MdFinish? {
      UpdatedCleans(c, was, s, i);
    } else {
      HeadCleans(c, was, s, i, step);
    }
  }

  /** In the end the slot still has its block, exactly VALID, and the disk has what the slot holds. */
  lemma CleaningEnds(c: Config, was: State, s: State, i: nat)
    requires Inv(c, s) && Cleaning(c, was, s, i) && AtRest(s)
    ensures i < |s.slots| == |was.slots| && i < |s.ssd| && s.slots == was.slots[i := Slot(VALID, was.slots[i].dbn, 0, [], NoWork)]
    ensures s.ssd == was.ssd && s.disk == was.disk[was.slots[i].dbn := was.ssd[i]]
  {
    assert SlotOk(c, i, s.slots[i]);
    assert s.slots[i].bits == VALID;
    assert forall n {:trigger s.slots[n]} :: 0 <= n < |s.slots| && n != i ==> s.slots[n] == was.slots[n];
  }

  // ----- a request that goes past the cache -----

  /** Request x has no slot, and once it has ended no slot has its block. */
  ghost predicate Passing(s: State, x: nat, bio: Bio) {
    if x in s.bios then s.bios[x].bio == bio && !s.bios[x].place.OnSlot? else Absent(s, bio.dbn)
  }

  ghost predicate Absent(s: State, b: nat) { forall n: nat {:trigger Cached(s, n, b)} :: !Cached(s, n, b) }

  lemma LegalIsOld(c: Config, s: seq<Slot>, w: Touch)
    requires LegalTouch(c, s, w) && w.Touched? && w.bits.valid && w.i < |s| && s[w.i].bits != VALID && s[w.i].bits != INVALID
    ensures s[w.i].bits.valid && s[w.i].dbn == w.dbn
  {
  }

  /** A slot with a job is neither exactly VALID nor exactly INVALID. */
  lemma WorkShows(c: Config, s: State, i: nat)
    requires Slots(c, s) && i < |s.slots| && !s.slots[i].work.NoWork?
    ensures s.slots[i].bits != VALID && s.slots[i].bits != INVALID
  {
    assert SlotOk(c, i, s.slots[i]);
  }

  lemma InvalIsOld(c: Config, s: State, b: nat, h: Option<nat>)
    requires Slots(c, s) && MaybeIdx(c, s, h) && IsLookup(c, s, b, h)
    ensures var w := InvalTouch(c, s.slots, h); w.Touched? && w.bits.valid ==> w.i < |s.slots| && s.slots[w.i].bits.valid && s.slots[w.i].dbn == w.dbn
  {
  }

  lemma JobTouch(c: Config, s: State, step: Step, i: nat)
    requires Slots(c, s) && Enabled(c, s, step) && i < |s.slots| && !s.slots[i].work.NoWork? && LegalTouch(c, s.slots, StepTouch(c, s, step))
    requires StepTouch(c, s, step).Touched? ==> StepTouch(c, s, step).i == i
    ensures var w := StepTouch(c, s, step); w.Touched? && w.bits.valid ==> s.slots[i].bits.valid && s.slots[i].dbn == w.dbn
  {
    var w := StepTouch(c, s, step);
    WorkShows(c, s, i);
    if w.Touched? && w.bits.valid { LegalIsOld(c, s.slots, w); }
  }

  lemma TouchIsOld(c: Config, s: State, step: Step)
    requires Inv(c, s) && Productive(c, s, step)
    ensures var w := StepTouch(c, s, step); w.Touched? && w.bits.valid ==> w.i < |s.slots| && s.slots[w.i].bits.valid && s.slots[w.i].dbn == w.dbn
  {
    StepLegal(c, s, step);
    if step.UncachedDone? {
      InvalIsOld(c, s, s.bios[step.x].bio.dbn, step.hit);
    } else if step.Replay? {
      InvalIsOld(c, s, s.slots[step.i].dbn, step.hit);
    } else if step.MdFinish? {
      FirstIsJob(c, s, step.m);
      JobTouch(c, s, step, s.heads[step.m].active[0]);
    } else if step.IoDone? || step.Pending? || step.DrainDone? {
      JobTouch(c, s, step, step.i);
    }
  }

  /** Only a submission puts a block into a slot. */
  lemma NotRevived(c: Config, s: State, step: Step, n: nat, b: nat)
    requires Inv(c, s) && Productive(c, s, step) && Cached(Apply(c, s, step), n, b)
    ensures Cached(s, n, b)
  {
    StepTouches(c, s, step);
    TouchIsOld(c, s, step);
  }

  lemma JobsApart(c: Config, s: State, i: nat, x: nat)
    requires Bios(c, s) && i < |s.slots| && x in s.bios && !s.bios[x].place.OnSlot?
    ensures Holder(s.slots[i].work) != Some(x)
  {
    assert JobOk(s, i);
  }

  lemma EndGoesOn(s: State, y: nat, result: Data, i: nat, x: nat)
    requires i < |s.slots| && x in s.bios && x != y
    ensures x in Release(EndBio(s, y, result), i).bios
  {
  }

  lemma CallbackGoesOn(c: Config, s: State, i: nat, x: nat)
    requires Idx(c, s, i) && x in s.bios && Holder(s.slots[i].work) != Some(x)
    ensures x in IoCallback(c, s, i).bios
  {
    match s.slots[i].work
    case ReadCache(y, got) => if got.Some? { EndGoesOn(s, y, got.value, i, x); }
    case ReadFill(y, data, _) => EndGoesOn(s, y, data, i, x);
    case WriteCache(y, _, _) => EndGoesOn(s, y, if c.mode == WriteBack then s.ssd[i] else OnDisk(s, s.slots[i].dbn), i, x);
    case _ =>
  }

  lemma UpdateGoesOn(c: Config, s: State, i: nat, x: nat)
    requires Idx(c, s, i) && x in s.bios && Holder(s.slots[i].work) != Some(x)
    ensures x in MdDoneJob(c, s, i).bios
  {
  }

  lemma EffectGoesOn(c: Config, s: State, step: Step, x: nat)
    requires Enabled(c, s, step) && IsEffect(step) && x in s.bios
    ensures x in Apply(c, s, step).bios && Apply(c, s, step).bios[x].place == s.bios[x].place
  {
    if step.DiskUncached? { assert x in FxUncached(s, step.x).bios; } else { assert Apply(c, s, step).bios == s.bios; }
  }

  /** A job ends its own request at most. */
  lemma SectionGoesOn(c: Config, s: State, step: Step, x: nat)
    requires Enabled(c, s, step) && x in s.bios && !Rehouses(step) && !IsEffect(step)
    requires step.IoDone? ==> Holder(s.slots[step.i].work) != Some(x)
    requires step.MdFinish? ==> Holder(s.slots[s.heads[step.m].active[0]].work) != Some(x)
    ensures x in Apply(c, s, step).bios
  {
    if step.IoDone? {
      CallbackGoesOn(c, s, step.i, x);
    } else if step.MdFinish? {
      UpdateGoesOn(c, s, s.heads[step.m].active[0], x);
    } else {
      assert Apply(c, s, step).bios == s.bios;
    }
  }

  lemma LookupGone(c: Config, s: State, b: nat, h: Option<nat>)
    requires Slots(c, s) && MaybeIdx(c, s, h) && IsLookup(c, s, b, h)
    ensures forall n: nat {:trigger Cached(s, n, b)} :: Cached(s, n, b) ==> h == Some(n)
  {
    forall n: nat | Cached(s, n, b) ensures h == Some(n) { assert SlotOk(c, n, s.slots[n]); }
  }

  /** Invalidation moves no request but its own, and that only into a queue. */
  lemma InvalBios(c: Config, s: State, y: nat, h: Option<nat>)
    requires MaybeIdx(c, s, h) && y in s.bios
    ensures var (t, queued) := InvalBlocks(c, s, y, h);
      if queued then h.Some? && t.bios == s.bios[y := s.bios[y].(place := Queued(h.value))] else t.bios == s.bios
  {
  }

  lemma InvalGone(c: Config, s: State, y: nat, h: Option<nat>, b: nat)
    requires MaybeIdx(c, s, h) && forall n: nat {:trigger Cached(s, n, b)} :: Cached(s, n, b) ==> h == Some(n)
    ensures var (t, queued) := InvalBlocks(c, s, y, h); !queued ==> Absent(t, b)
  {
    var t := InvalBlocks(c, s, y, h).0;
    if !InvalBlocks(c, s, y, h).1 {
      forall n: nat ensures !Cached(t, n, b) { assert Cached(s, n, b) ==> h == Some(n); }
    }
  }

  lemma PassedEnds(c: Config, s: State, x: nat, h: Option<nat>, y: nat, bio: Bio)
    requires Slots(c, s) && Enabled(c, s, UncachedDone(y, h)) && Passing(s, x, bio) && x in s.bios
    ensures Passing(UncachedComplete(c, s, y, h), x, bio)
  {
    var u := Moved(s, y, Hand);
    LookupGone(c, s, s.bios[y].bio.dbn, h);
    InvalBios(c, u, y, h);
    forall n: nat | Cached(u, n, s.bios[y].bio.dbn) ensures h == Some(n) { assert Cached(s, n, s.bios[y].bio.dbn); }
    InvalGone(c, u, y, h, s.bios[y].bio.dbn);
    if !InvalBlocks(c, u, y, h).1 { EndedGone(InvalBlocks(c, u, y, h).0, y, s.bios[y].bio.dbn); }
  }

  lemma EndedGone(s: State, y: nat, b: nat)
    requires Absent(s, b)
    ensures Absent(EndInHand(s, y), b)
  {
    forall n: nat ensures !Cached(EndInHand(s, y), n, b) { assert !Cached(s, n, b); }
  }

  /** A request that goes past the cache waits for a slot or is with the disk. */
  lemma BypassPasses(c: Config, s: State, y: nat, h: Option<nat>, x: nat, bio: Bio)
    requires MaybeIdx(c, s, h) && y in s.bios && x in s.bios && (y == x || !s.bios[x].place.OnSlot?) && s.bios[x].bio == bio
    ensures Passing(Bypass(c, s, y, h), x, bio)
  {
    InvalBios(c, s, y, h);
  }

  lemma DetachedPasses(s: State, i: nat, x: nat, bio: Bio)
    requires i < |s.slots| && s.slots[i].work.Drain? && s.slots[i].work.rest != [] && x in s.bios && Passing(s, x, bio)
    ensures x in DetachNext(s, i).bios && Passing(DetachNext(s, i), x, bio)
  {
  }

  lemma PassedReplayed(c: Config, s: State, i: nat, h: Option<nat>, x: nat, bio: Bio)
    requires Bios(c, s) && Enabled(c, s, Replay(i, h)) && Passing(s, x, bio) && x in s.bios
    ensures Passing(DrainOne(c, s, i, h), x, bio)
  {
    var e, u := s.slots[i].work.rest[0], DetachNext(s, i);
    assert EntriesOk(s, i) && e.id in s.bios;
    DetachedPasses(s, i, x, bio);
    DetachedThere(s, i);
    if e.inval { BypassPasses(c, u, e.id, h, x, bio); }
  }

  lemma DetachedThere(s: State, i: nat)
    requires i < |s.slots| && s.slots[i].work.Drain? && s.slots[i].work.rest != [] && s.slots[i].work.rest[0].id in s.bios
    ensures s.slots[i].work.rest[0].id in DetachNext(s, i).bios
  {
  }

  lemma StaysGone(c: Config, s: State, step: Step, b: nat)
    requires Inv(c, s) && Productive(c, s, step) && Absent(s, b)
    ensures Absent(Apply(c, s, step), b)
  {
    forall n: nat ensures !Cached(Apply(c, s, step), n, b) { if Cached(Apply(c, s, step), n, b) { NotRevived(c, s, step, n, b); } }
  }

  lemma PassingOn(c: Config, s: State, x: nat, bio: Bio, step: Step)
    requires Inv(c, s) && Passing(s, x, bio) && Productive(c, s, step) && Durability.Keeps(s, Apply(c, s, step))
    ensures Passing(Apply(c, s, step), x, bio)
  {
    if x in s.bios { PassingStep(c, s, x, bio, step); } else { StaysGone(c, s, step, bio.dbn); }
  }

  lemma PassingStep(c: Config, s: State, x: nat, bio: Bio, step: Step)
    requires Slots(c, s) && Bios(c, s) && Passing(s, x, bio) && x in s.bios && Productive(c, s, step) && Durability.Keeps(s, Apply(c, s, step))
    ensures Passing(Apply(c, s, step), x, bio)
  {
    if IsEffect(step) {
      EffectGoesOn(c, s, step, x);
    } else if !Rehouses(step) {
      if step.IoDone? { JobsApart(c, s, step.i, x); }
      if step.MdFinish? { JobsApart(c, s, s.heads[step.m].active[0], x); }
      SectionGoesOn(c, s, step, x);
      SectionStays(c, s, step);
    } else if step.UncachedDone? {
      PassedEnds(c, s, x, step.hit, step.x, bio);
    } else if step.Replay? {
      PassedReplayed(c, s, step.i, step.hit, x, bio);
    } else {
      DequeuePasses(s, step.i, x, bio);
    }
  }

  lemma DequeuePasses(s: State, i: nat, x: nat, bio: Bio)
    requires i < |s.slots| && x in s.bios && Passing(s, x, bio)
    ensures Passing(Dequeue(s, i), x, bio)
  {
  }

  lemma PassingBegins(c: Config, s: State, bio: Bio, h: Option<nat>, v: Option<nat>, skip: bool)
    requires Enabled(c, s, Step.Map(bio, h, v, skip)) && Bypasses(c, bio, skip)
    ensures Passing(Apply(c, s, Step.Map(bio, h, v, skip)), s.nextId, bio)
  {
    NewBioThere(s, bio);
    BypassPasses(c, NewBio(s, bio), s.nextId, h, s.nextId, bio);
  }

  // ----- what becomes of one thing done to a cache at rest -----

  datatype Aim =
    | Serve(was: State, i: nat, x: nat, bio: Bio, hit: bool)
    | Clean(was: State, i: nat)
    | Pass(x: nat, bio: Bio)

  ghost predicate Toward(c: Config, s: State, aim: Aim) {
    match aim
    case Serve(was, i, x, bio, hit) => Serving(c, was, s, i, x, bio, hit)
    case Clean(was, i) => Cleaning(c, was, s, i)
    case Pass(x, bio) => Passing(s, x, bio)
  }

  predicate Spares(c: Config, aim: Aim, step: Step) { aim.Serve? ==> Sparing(c, aim.bio, aim.hit, step) }

  lemma TowardOn(c: Config, s: State, aim: Aim, step: Step)
    requires Inv(c, s) && Toward(c, s, aim) && Productive(c, s, step) && Durability.Keeps(s, Apply(c, s, step))
    ensures Toward(c, Apply(c, s, step), aim) && Spares(c, aim, step)
  {
    match aim
    case Serve(was, i, x, bio, hit) => ServingOn(c, was, s, i, x, bio, hit, step);
    case Clean(was, i) => CleaningOn(c, was, s, i, step);
    case Pass(x, bio) => PassingOn(c, s, x, bio, step);
  }

  /** No slot of the set can be had. */
  ghost predicate NoRoom(s: State, start: nat, n: nat) {
    forall i {:trigger s.slots[i]} :: start <= i < start + n && i < |s.slots| ==> s.slots[i].bits != INVALID && s.slots[i].bits != VALID
  }

  /** Slot i of the set can be had, and is INVALID if any is. */
  ghost predicate ToBeHad(s: State, start: nat, n: nat, i: nat) {
    && start <= i < start + n && i < |s.slots| && (s.slots[i].bits == INVALID || s.slots[i].bits == VALID)
    && (s.slots[i].bits == VALID ==> forall k {:trigger s.slots[k]} :: start <= k < start + n && k < |s.slots| ==> s.slots[k].bits != INVALID)
  }

  /** From was to s a request of the set has been served, by the steps given. One that goes past the
      cache leaves its block in no slot. Any other is served by the slot that has its block, without the disk
      being read or, except by a write through, written. If none has it the block is
      in a slot afterwards, unless none can be had or a read is not to fill the cache. */
  ghost predicate Outcome(c: Config, was: State, s: State, steps: seq<Step>, start: nat, n: nat, bio: Bio, skip: bool) {
    if Bypasses(c, bio, skip) then Absent(s, bio.dbn)
    else if !Absent(was, bio.dbn) then exists i: nat {:trigger Cached(was, i, bio.dbn)} :: Cached(was, i, bio.dbn) && ServedBy(c, was, s, steps, i, bio, true)
    else if NoRoom(was, start, n) || (skip && !bio.write) then Absent(s, bio.dbn)
    else exists i: nat {:trigger ToBeHad(was, start, n, i)} :: ToBeHad(was, start, n, i) && ServedBy(c, was, s, steps, i, bio, false)
  }

  ghost predicate ServedBy(c: Config, was: State, s: State, steps: seq<Step>, i: nat, bio: Bio, hit: bool) {
    Served(c, was, s, i, bio, hit) && forall k {:trigger steps[k]} :: 0 <= k < |steps| ==> Sparing(c, bio, hit, steps[k])
  }

  /** What a request is to come to. */
  ghost predicate AimFor(c: Config, was: State, aim: Aim, start: nat, n: nat, bio: Bio, skip: bool) {
    match aim
    case Serve(w, i, _, b, hit) =>
      w == was && b == bio && !Bypasses(c, bio, skip)
      && if hit then Cached(was, i, bio.dbn) else Absent(was, bio.dbn) && ToBeHad(was, start, n, i) && (bio.write || !skip)
    case Clean(_, _) => false
    case Pass(_, b) => b == bio && (Bypasses(c, bio, skip) || (Absent(was, bio.dbn) && (NoRoom(was, start, n) || (skip && !bio.write))))
  }

  lemma AimMet(c: Config, was: State, s: State, steps: seq<Step>, aim: Aim, start: nat, n: nat, bio: Bio, skip: bool)
    requires Inv(c, s) && AtRest(s) && Toward(c, s, aim) && AimFor(c, was, aim, start, n, bio, skip)
    requires forall k {:trigger steps[k]} :: 0 <= k < |steps| ==> Spares(c, aim, steps[k])
    ensures Outcome(c, was, s, steps, start, n, bio, skip)
  {
    if aim.Serve? {
      ServingEnds(c, was, s, aim.i, aim.x, bio, aim.hit);
      assert ServedBy(c, was, s, steps, aim.i, bio, aim.hit);
    }
  }

  /** A miss that finds no slot, or is not to fill one, goes to the disk. */
  lemma MissPasses(c: Config, s: State, bio: Bio, v: Option<nat>, skip: bool)
    requires Enabled(c, s, Step.Map(bio, None, v, skip)) && !Bypasses(c, bio, skip) && (v.None? || (skip && !bio.write))
    ensures Passing(Apply(c, s, Step.Map(bio, None, v, skip)), s.nextId, bio)
  {
    NewBioThere(s, bio);
  }

  // ----- in the midst of anything -----

  /** Ways for slot i to lose its block: taken for another one, invalidated by a request of the block
      that goes past the cache, drained, or cut off. */
  ghost predicate MayLose(c: Config, s: State, step: Step, i: nat) {
    match step
    case Map(bio, h, v, skip) => if Bypasses(c, bio, skip) then h == Some(i) else h.None? && v == Some(i) && (bio.write || !skip)
    case UncachedDone(_, h) => h == Some(i)
    case Replay(_, h) => h == Some(i)
    case Pending(n) => n == i
    case PowerLoss => true
    case _ => false
  }

  predicate KeepsBlock(a: Slot, b: Slot) { a.bits.valid ==> b.bits.valid && b.dbn == a.dbn }

  lemma EndKeepsBlock(s: State, x: nat, result: Data, i: nat)
    requires i < |s.slots|
    ensures |Release(EndBio(s, x, result), i).slots| == |s.slots| && KeepsBlock(s.slots[i], Release(EndBio(s, x, result), i).slots[i])
  {
  }

  lemma CallbackKeepsBlock(c: Config, s: State, i: nat)
    requires Idx(c, s, i)
    ensures i < |IoCallback(c, s, i).slots| && KeepsBlock(s.slots[i], IoCallback(c, s, i).slots[i])
  {
    match s.slots[i].work
    case ReadCache(x, got) => if got.Some? { EndKeepsBlock(s, x, got.value, i); }
    case ReadFill(x, data, _) => EndKeepsBlock(s, x, data, i);
    case WriteCache(x, _, _) => EndKeepsBlock(s, x, if c.mode == WriteBack then s.ssd[i] else OnDisk(s, s.slots[i].dbn), i);
    case _ =>
  }

  lemma UpdateKeepsBlock(c: Config, s: State, i: nat)
    requires Idx(c, s, i)
    ensures KeepsBlock(s.slots[i], MdDoneJob(c, s, i).slots[i])
  {
  }

  lemma UpkeepKeepsBlock(c: Config, s: State, i: nat)
    requires Idx(c, s, i)
    ensures KeepsBlock(s.slots[i], StartClean(c, s, i).slots[i]) && KeepsBlock(s.slots[i], DetectFallow(c, s, i).slots[i])
  {
  }

  lemma MapKeepsBlock(c: Config, s: State, step: Step, i: nat)
    requires Slots(c, s) && Enabled(c, s, step) && step.Map? && i < |s.slots| && !MayLose(c, s, step, i)
    ensures i < |Apply(c, s, step).slots| && KeepsBlock(s.slots[i], Apply(c, s, step).slots[i])
  {
    StepTouches(c, s, step);
  }

  lemma JobKeepsBlock(c: Config, s: State, step: Step, i: nat)
    requires Enabled(c, s, step) && (step.IoDone? || step.MdFinish? || step.CleanSlot? || step.MarkFallow?) && i < |s.slots|
    requires After(s.slots, Apply(c, s, step).slots, StepTouch(c, s, step))
    ensures i < |Apply(c, s, step).slots| && KeepsBlock(s.slots[i], Apply(c, s, step).slots[i])
  {
    if step.IoDone? { CallbackKeepsBlock(c, s, step.i); }
    else if step.MdFinish? { UpdateKeepsBlock(c, s, s.heads[step.m].active[0]); }
    else { UpkeepKeepsBlock(c, s, step.i); }
  }

  lemma RestartKeepsBlock(c: Config, s: State, i: nat)
    requires Enabled(c, s, CleanRestart) && i < |s.slots|
    ensures i < |Remount(c, s).slots| && KeepsBlock(s.slots[i], Remount(c, s).slots[i])
  {
  }

  /** In whatever state and whatever else is under way, a block leaves its slot in these ways only:
      no completion, cleaning, metadata write or clean removal drops one. */
  lemma StaysCached(c: Config, disk: map<nat, Data>, s: State, step: Step, i: nat)
    requires WellFormed(c) && Reachable(c, disk, s) && Enabled(c, s, step) && i < |s.slots| && !MayLose(c, s, step, i)
    ensures i < |Apply(c, s, step).slots| && KeepsBlock(s.slots[i], Apply(c, s, step).slots[i])
  {
    assert Slots(c, s) by { ReachableGood(c, disk, s); }
    if step.CleanRestart? {
      RestartKeepsBlock(c, s, i);
    } else if step.Map? {
      MapKeepsBlock(c, s, step, i);
    } else {
      OtherKeepsBlock(c, s, step, i);
    }
  }

  lemma OtherKeepsBlock(c: Config, s: State, step: Step, i: nat)
    requires Slots(c, s) && Enabled(c, s, step) && !step.Map? && !step.CleanRestart? && i < |s.slots| && !MayLose(c, s, step, i)
    ensures i < |Apply(c, s, step).slots| && KeepsBlock(s.slots[i], Apply(c, s, step).slots[i])
  {
    StepTouches(c, s, step);
    if step.IoDone? || step.MdFinish? || step.CleanSlot? || step.MarkFallow? {
      JobKeepsBlock(c, s, step, i);
    } else if step.DrainDone? {
      assert SlotOk(c, step.i, s.slots[step.i]);
    }
  }
}
