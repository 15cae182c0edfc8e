/** No deadlock and no livelock: as long as anything is unfinished some step moves it on,
    every such step lowers a measure, and so every request ends. */
module Progress {
  import opened Types
  import opened Protocol
  import opened Invariant
  import opened Steps
  import opened StepProofs
  import opened Handover
  import opened Durability
  import opened Theorems

  /** A step of the driver or a device that has not been taken before for the same I/O:
      no new request, no cleaning for its own sake, no crash or removal. */
  ghost predicate Productive(c: Config, s: State, step: Step) {
    Enabled(c, s, step) &&
    match step
    case Map(_, _, _, _) => false
    case CleanSlot(_) => false
    case MarkFallow(_) => false
    case PowerLoss => false
    case CleanRestart => false
    case SsdRead(i) => s.slots[i].work.got.None?
    case DiskRead(i) => s.slots[i].work.got.None?
    case SsdFill(i) => !s.slots[i].work.stored
    case SsdWrite(i) => !s.slots[i].work.stored
    case DiskMirror(i) => !s.slots[i].work.mirrored
    case CopyRead(i) => s.slots[i].work.copy.None?
    case CopyWrite(i) => !s.slots[i].work.stored
    case DiskUncached(x) => !s.bios[x].ran
    case MdEffect(m, k) => k !in s.heads[m].io.applied
    case _ => true
  }

  /** Nothing under way. */
  ghost predicate AtRest(s: State) {
    s.bios == map[]
    && (forall i {:trigger s.slots[i]} :: 0 <= i < |s.slots| ==> s.slots[i].work.NoWork?)
    && (forall m {:trigger s.heads[m]} :: 0 <= m < |s.heads| ==> s.heads[m].io.MdIdle?)
  }

  // ----- the measure -----

  function B(b: bool): nat { if b then 1 else 0 }

  /** How much a slot can still do without a new request. */
  function Rank(sl: Slot): nat {
    match sl.work
    case WriteCache(_, stored, mirrored) => 50 - B(stored) - B(mirrored)
    case ReadDisk(_, got) => 44 - B(got.Some?)
    case ReadFill(_, _, stored) => 42 - B(stored)
    case ReadCache(_, got) => 40 - B(got.Some?)
    case MdDirty(_) => 30
    case WriteDisk(copy, stored) => if copy.None? then 18 else 17 - B(stored)
    case MdClean => 15
    case Finish => if sl.bits.dirty then 21 else 10
    case Limbo => 9
    case Drain(_) => 8
    case NoWork => if sl.bits.dirty then 20 else B(sl.bits.valid)
  }

  function SlotRanks(slots: seq<Slot>): nat {
    if slots == [] then 0 else SlotRanks(slots[..|slots| - 1]) + Rank(slots[|slots| - 1])
  }

  ghost function DetachedSet(s: State): set<nat> { set x | x in s.bios && s.bios[x].place.Detached? }
  ghost function UncachedSet(s: State): set<nat> { set x | x in s.bios && s.bios[x].place == Uncached }
  ghost function UnranSet(s: State): set<nat> { set x | x in s.bios && s.bios[x].place == Uncached && !s.bios[x].ran }

  /** How much the requests on no slot can still do. */
  ghost function BioRanks(s: State): nat { 3 * |DetachedSet(s)| + |UncachedSet(s)| + |UnranSet(s)| }

  /** How much a write head can still do before it finishes a job. */
  ghost function HeadRank(c: Config, h: MdHead): nat {
    match h.io
    case MdIdle => 0
    case MdScheduled => c.size + 2
    case MdWriting(snap, applied) => 1 + |snap.Keys - applied|
    case MdCompleting => if h.active == [] then c.size + 3 else 0
  }

  ghost function HeadRanks(c: Config, heads: seq<MdHead>): nat {
    if heads == [] then 0 else HeadRanks(c, heads[..|heads| - 1]) + HeadRank(c, heads[|heads| - 1])
  }

  ghost predicate Lower(c: Config, s: State, t: State) {
    || SlotRanks(t.slots) < SlotRanks(s.slots)
    || (SlotRanks(t.slots) == SlotRanks(s.slots) && BioRanks(t) < BioRanks(s))
    || (SlotRanks(t.slots) == SlotRanks(s.slots) && BioRanks(t) == BioRanks(s) && HeadRanks(c, t.heads) < HeadRanks(c, s.heads))
  }

  lemma {:induction false} SlotRanksUpdate(slots: seq<Slot>, i: nat, sl: Slot)
    requires i < |slots|
    ensures SlotRanks(slots[i := sl]) == SlotRanks(slots) + Rank(sl) - Rank(slots[i])
  {
    var n := |slots| - 1;
    if i == n {
      assert slots[i := sl][..n] == slots[..n];
    } else {
      SlotRanksUpdate(slots[..n], i, sl);
      assert slots[i := sl][..n] == slots[..n][i := sl];
    }
  }

  lemma {:induction false} HeadRanksUpdate(c: Config, heads: seq<MdHead>, m: nat, h: MdHead)
    requires m < |heads|
    ensures HeadRanks(c, heads[m := h]) == HeadRanks(c, heads) + HeadRank(c, h) - HeadRank(c, heads[m])
  {
    var n := |heads| - 1;
    if m == n {
      assert heads[m := h][..n] == heads[..n];
    } else {
      HeadRanksUpdate(c, heads[..n], m, h);
      assert heads[m := h][..n] == heads[..n][m := h];
    }
  }

  /** Slot i moves on. */
  lemma SlotLower(c: Config, s: State, t: State, i: nat)
    requires i < |s.slots| == |t.slots| && t.slots == s.slots[i := t.slots[i]] && Rank(t.slots[i]) < Rank(s.slots[i])
    ensures Lower(c, s, t)
  {
    SlotRanksUpdate(s.slots, i, t.slots[i]);
  }

  // ----- every productive step lowers it -----

  lemma EffectLowers(c: Config, s: State, step: Step)
    requires Productive(c, s, step) && IsEffect(step) && !step.MdEffect? && !step.DiskUncached?
    ensures Lower(c, s, Apply(c, s, step))
  {
    SlotLower(c, s, Apply(c, s, step), step.i);
  }

  lemma DiskUncachedLowers(c: Config, s: State, x: nat)
    requires x in s.bios && s.bios[x].place == Uncached && !s.bios[x].ran
    ensures Lower(c, s, FxUncached(s, x))
  {
    var t := FxUncached(s, x);
    RanUncached(s, t, x);
    assert t.slots == s.slots;
  }

  lemma RanUncached(s: State, t: State, x: nat)
    requires x in s.bios && s.bios[x].place == Uncached && !s.bios[x].ran && t.bios.Keys == s.bios.Keys
    requires t.bios[x].place == Uncached && t.bios[x].ran && forall y :: y in s.bios && y != x ==> t.bios[y] == s.bios[y]
    ensures DetachedSet(t) == DetachedSet(s) && UncachedSet(t) == UncachedSet(s)
    ensures UnranSet(t) == UnranSet(s) - {x} && x in UnranSet(s) && |UnranSet(t)| < |UnranSet(s)|
  {
  }

  lemma HeadLower(c: Config, s: State, t: State, m: nat)
    requires m < |s.heads| == |t.heads| && t.slots == s.slots && t.bios == s.bios
    requires t.heads == s.heads[m := t.heads[m]] && HeadRank(c, t.heads[m]) < HeadRank(c, s.heads[m])
    ensures Lower(c, s, t)
  {
    HeadRanksUpdate(c, s.heads, m, t.heads[m]);
    assert DetachedSet(t) == DetachedSet(s) && UncachedSet(t) == UncachedSet(s) && UnranSet(t) == UnranSet(s);
  }

  lemma MdEffectLowers(c: Config, s: State, m: nat, k: nat)
    requires Enabled(c, s, MdEffect(m, k)) && k !in s.heads[m].io.applied
    ensures Lower(c, s, FxMetadata(s, m, k))
  {
    var io := s.heads[m].io;
    var left := io.snap.Keys - io.applied;
    assert io.snap.Keys - (io.applied + {k}) == left - {k} && k in left;
    HeadLower(c, s, FxMetadata(s, m, k), m);
  }

  lemma {:induction false} AtMost(k: set<nat>, n: nat)
    requires forall x :: x in k ==> x < n
    ensures |k| <= n
  {
    if n == 0 {
      assert k == {};
    } else {
      AtMost(k - {n - 1}, n - 1);
    }
  }

  lemma KickoffLowers(c: Config, s: State, m: nat)
    requires Slots(c, s) && m < c.mdBlocks && s.heads[m].io.MdScheduled?
    ensures Lower(c, s, MdKickoff(c, s, m))
  {
    var t := MdKickoff(c, s, m);
    var io := t.heads[m].io;
    AtMost(io.snap.Keys - io.applied, c.size);
    HeadLower(c, s, t, m);
  }

  lemma HeadStepLowers(c: Config, s: State, step: Step)
    requires Inv(c, s) && Productive(c, s, step) && (step.Kickoff? || step.MdWritten? || step.MdFinish? || step.MdAdvance?)
    ensures Lower(c, s, Apply(c, s, step))
  {
    match step
    case Kickoff(m) => KickoffLowers(c, s, m);
    case MdWritten(m) => assert HeadOk(c, s, m); MdWrittenLowers(c, s, m);
    case MdFinish(m) => MdFinishLowers(c, s, m);
    case MdAdvance(m) => MdAdvanceLowers(c, s, m);
  }

  lemma MdWrittenLowers(c: Config, s: State, m: nat)
    requires m < |s.heads| && HeadOk(c, s, m) && s.heads[m].io.MdWriting?
    ensures Lower(c, s, MdDone(s, m))
  {
    HeadLower(c, s, MdDone(s, m), m);
  }

  lemma MdAdvanceLowers(c: Config, s: State, m: nat)
    requires m < |s.heads| && s.heads[m].io.MdCompleting? && s.heads[m].active == []
    ensures Lower(c, s, MdNext(s, m))
  {
    HeadLower(c, s, MdNext(s, m), m);
  }

  lemma MdFinishLowers(c: Config, s: State, m: nat)
    requires Inv(c, s) && Enabled(c, s, MdFinish(m))
    ensures Lower(c, s, MdDoneOne(c, s, m))
  {
    var i := s.heads[m].active[0];
    assert HeadOk(c, s, m) && All(s.heads[m])[0] == i && SlotOk(c, i, s.slots[i]);
    MdDoneRank(c, s, i);
    SlotLower(c, s, MdDoneOne(c, s, m), i);
  }

  /** Only slot i is another. */
  ghost predicate OnlySlot(s: State, t: State, i: nat) {
    i < |s.slots| == |t.slots| && t.slots == s.slots[i := t.slots[i]]
  }

  lemma ReleaseRank(s: State, i: nat)
    requires i < |s.slots|
    ensures OnlySlot(s, Release(s, i), i) && Rank(Release(s, i).slots[i]) <= if s.slots[i].bits.dirty then 21 else 10
  {
  }

  lemma MdDoneRank(c: Config, s: State, i: nat)
    requires Idx(c, s, i) && InMd(s.slots[i].work)
    ensures OnlySlot(s, MdDoneJob(c, s, i), i) && Rank(MdDoneJob(c, s, i).slots[i]) < Rank(s.slots[i])
  {
    if s.slots[i].work.MdDirty? {
      assert Rank(MdDoneJob(c, s, i).slots[i]) <= 21;
    }
  }

  lemma IoDoneLowers(c: Config, s: State, i: nat)
    requires Enabled(c, s, IoDone(i))
    ensures Lower(c, s, IoCallback(c, s, i))
  {
    var t := IoCallback(c, s, i);
    match s.slots[i].work {
      case ReadDisk(_, _) =>
      case ReadCache(x, got) => ReleaseRank(EndBio(s, x, got.value), i);
      case ReadFill(x, data, _) => ReleaseRank(EndBio(s, x, data), i);
      case WriteCache(x, _, _) =>
        ReleaseRank(EndBio(s, x, s.ssd[i]), i);
        ReleaseRank(EndBio(s, x, OnDisk(s, s.slots[i].dbn)), i);
    }
    SlotLower(c, s, t, i);
  }

  lemma PendingLowers(c: Config, s: State, i: nat)
    requires Idx(c, s, i) && s.slots[i].work.Finish?
    ensures Lower(c, s, DoPending(c, s, i))
  {
    SlotLower(c, s, DoPending(c, s, i), i);
  }

  lemma SlotStepLowers(c: Config, s: State, step: Step)
    requires Slots(c, s) && Productive(c, s, step) && (step.IoDone? || step.CopyDone? || step.Pending? || step.Detach? || step.DrainDone?)
    ensures Lower(c, s, Apply(c, s, step))
  {
    match step
    case IoDone(i) => IoDoneLowers(c, s, i);
    case CopyDone(i) => SlotLower(c, s, KcopydCallback(c, s, i), i);
    case Pending(i) => PendingLowers(c, s, i);
    case Detach(i) => SlotLower(c, s, Dequeue(s, i), i);
    case DrainDone(i) => assert SlotOk(c, i, s.slots[i]); SlotLower(c, s, DrainEnd(s, i), i);
  }

  /** flashcache_inval_blocks never gives a slot more to do. */
  lemma InvalBlocksRank(c: Config, s: State, x: nat, b: nat, h: Option<nat>)
    requires Slots(c, s) && MaybeIdx(c, s, h) && IsLookup(c, s, b, h)
    ensures SlotRanks(InvalBlocks(c, s, x, h).0.slots) <= SlotRanks(s.slots)
  {
    if h.Some? {
      var i := h.value;
      var t := InvalBlocks(c, s, x, h).0;
      assert SlotOk(c, i, s.slots[i]);
      InvalRank(c, s, x, i);
      SlotRanksUpdate(s.slots, i, t.slots[i]);
    }
  }

  lemma InvalRank(c: Config, s: State, x: nat, i: nat)
    requires Idx(c, s, i) && SlotOk(c, i, s.slots[i]) && s.slots[i].bits.valid
    ensures OnlySlot(s, InvalBlocks(c, s, x, Some(i)).0, i) && Rank(InvalBlocks(c, s, x, Some(i)).0.slots[i]) <= Rank(s.slots[i])
  {
    var e := Enqueue(s, x, i, true);
    assert OnlySlot(s, e, i) && Rank(e.slots[i]) == Rank(s.slots[i]);
    assert OnlySlot(s, StartClean(c, e, i), i) && Rank(StartClean(c, e, i).slots[i]) == 18;
  }

  lemma InvalBlocksBios(c: Config, s: State, x: nat, h: Option<nat>)
    requires MaybeIdx(c, s, h) && x in s.bios
    ensures var (t, queued) := InvalBlocks(c, s, x, h);
            if queued then h.Some? && t.bios == s.bios[x := s.bios[x].(place := Queued(h.value))] else t.bios == s.bios
  {
  }

  /** A detached request that is replayed is queued again or started uncached. */
  lemma ReplayLowers(c: Config, s: State, i: nat, h: Option<nat>)
    requires Inv(c, s) && Enabled(c, s, Replay(i, h))
    ensures Lower(c, s, DrainOne(c, s, i, h))
  {
    var e := s.slots[i].work.rest[0];
    assert EntriesOk(s, i) && e.id in s.bios && s.bios[e.id].place == Detached(i);
    ReplayRanks(c, s, i, h);
    ReplayBios(c, s, i, h);
  }

  lemma ReplayRanks(c: Config, s: State, i: nat, h: Option<nat>)
    requires Inv(c, s) && Enabled(c, s, Replay(i, h))
    ensures SlotRanks(DrainOne(c, s, i, h).slots) <= SlotRanks(s.slots)
  {
    var e, t := s.slots[i].work.rest[0], DetachNext(s, i);
    SlotRanksUpdate(s.slots, i, t.slots[i]);
    if e.inval {
      LookupAfterDetach(c, s, i, h);
      DetachNextSlots(c, s, i);
      InvalBlocksRank(c, t, e.id, s.slots[i].dbn, h);
    }
  }

  lemma ReplayBios(c: Config, s: State, i: nat, h: Option<nat>)
    requires Idx(c, s, i) && MaybeIdx(c, s, h) && s.slots[i].work.Drain? && s.slots[i].work.rest != []
    requires s.slots[i].work.rest[0].id in s.bios && s.bios[s.slots[i].work.rest[0].id].place == Detached(i)
    ensures BioRanks(DrainOne(c, s, i, h)) < BioRanks(s)
  {
    var e := s.slots[i].work.rest[0];
    var t := DetachNext(s, i);
    var u := DrainOne(c, s, i, h);
    if e.inval { InvalBlocksBios(c, t, e.id, h); }
    assert forall y :: y in u.bios && y != e.id ==> y in s.bios && u.bios[y] == s.bios[y];
    LeftDetached(s, u, e.id);
  }

  lemma LeftDetached(s: State, u: State, x: nat)
    requires x in s.bios && s.bios[x].place.Detached? && x in u.bios && !u.bios[x].place.Detached?
    requires u.bios.Keys == s.bios.Keys && forall y :: y in u.bios && y != x ==> u.bios[y] == s.bios[y]
    ensures BioRanks(u) < BioRanks(s)
  {
    assert DetachedSet(u) == DetachedSet(s) - {x} && x in DetachedSet(s);
    assert x !in UncachedSet(s) && x !in UnranSet(s);
    AtMostOneMore(UncachedSet(s), UncachedSet(u), x);
    AtMostOneMore(UnranSet(s), UnranSet(u), x);
  }

  lemma AtMostOneMore(a: set<nat>, b: set<nat>, x: nat)
    requires a <= b <= a + {x}
    ensures |b| <= |a| + 1
  {
    if x in b { assert b == a + {x}; } else { assert b == a; }
  }

  lemma UncachedDoneLowers(c: Config, s: State, x: nat, h: Option<nat>)
    requires Inv(c, s) && Enabled(c, s, UncachedDone(x, h))
    ensures Lower(c, s, UncachedComplete(c, s, x, h))
  {
    var u := Moved(s, x, Hand);
    assert Slots(c, u) by { forall k | 0 <= k < c.size ensures SlotOk(c, k, u.slots[k]) { assert SlotOk(c, k, s.slots[k]); } }
    InvalBlocksRank(c, u, x, s.bios[x].bio.dbn, h);
    UncachedDoneBios(c, s, x, h);
  }

  lemma UncachedDoneBios(c: Config, s: State, x: nat, h: Option<nat>)
    requires MaybeIdx(c, s, h) && x in s.bios && s.bios[x].place == Uncached && s.bios[x].ran
    ensures BioRanks(UncachedComplete(c, s, x, h)) < BioRanks(s)
  {
    var t := UncachedComplete(c, s, x, h);
    InvalBlocksBios(c, Moved(s, x, Hand), x, h);
    assert forall y :: y != x ==> (y in t.bios <==> y in s.bios) && (y in t.bios ==> t.bios[y] == s.bios[y]);
    assert UncachedSet(t) == UncachedSet(s) - {x} && x in UncachedSet(s);
    assert DetachedSet(t) == DetachedSet(s) && UnranSet(t) == UnranSet(s);
  }

  lemma ProductiveLowers(c: Config, s: State, step: Step)
    requires Inv(c, s) && Productive(c, s, step)
    ensures Lower(c, s, Apply(c, s, step))
  {
    match step
    case Replay(i, hit) => ReplayLowers(c, s, i, hit);
    case UncachedDone(x, hit) => UncachedDoneLowers(c, s, x, hit);
    case DiskUncached(x) => DiskUncachedLowers(c, s, x);
    case MdEffect(m, k) => MdEffectLowers(c, s, m, k);
    case Kickoff(_) => HeadStepLowers(c, s, step);
    case MdWritten(_) => HeadStepLowers(c, s, step);
    case MdFinish(_) => HeadStepLowers(c, s, step);
    case MdAdvance(_) => HeadStepLowers(c, s, step);
    case IoDone(_) => SlotStepLowers(c, s, step);
    case CopyDone(_) => SlotStepLowers(c, s, step);
    case Pending(_) => SlotStepLowers(c, s, step);
    case Detach(_) => SlotStepLowers(c, s, step);
    case DrainDone(_) => SlotStepLowers(c, s, step);
    case _ => EffectLowers(c, s, step);
  }

  // ----- unless at rest, some step is productive -----

  ghost function Lookup(c: Config, s: State, b: nat): (h: Option<nat>)
    requires Slots(c, s)
    ensures MaybeIdx(c, s, h) && IsLookup(c, s, b, h)
  {
    if i :| 0 <= i < |s.slots| && s.slots[i].bits.valid && s.slots[i].dbn == b
    then assert SlotOk(c, i, s.slots[i]) && c.setOf[i] < c.sets && c.mdOf[i] < c.mdBlocks; Some(i)
    else None
  }

  lemma HeadMoves(c: Config, s: State, m: nat) returns (step: Step)
    requires Inv(c, s) && m < c.mdBlocks && !s.heads[m].io.MdIdle?
    ensures Productive(c, s, step)
  {
    var h := s.heads[m];
    assert HeadOk(c, s, m);
    match h.io
    case MdScheduled => step := Kickoff(m);
    case MdWriting(snap, applied) =>
      if k :| k in snap && k !in applied { step := MdEffect(m, k); } else { step := MdWritten(m); }
    case MdCompleting =>
      if h.active == [] {
        step := MdAdvance(m);
      } else {
        assert All(h)[0] == h.active[0] && c.setOf[h.active[0]] < c.sets;
        step := MdFinish(m);
      }
  }

  /** What is to happen next to slot i, whose job is w; a drain comes to its end. */
  function Due(mode: Mode, w: Work, i: nat): Step {
    match w
    case ReadCache(_, got) => if got.None? then SsdRead(i) else IoDone(i)
    case ReadDisk(_, got) => if got.None? then DiskRead(i) else IoDone(i)
    case ReadFill(_, _, stored) => if !stored then SsdFill(i) else IoDone(i)
    case WriteCache(_, stored, mirrored) =>
      if !stored then SsdWrite(i) else if mode == WriteBack || mirrored then IoDone(i) else DiskMirror(i)
    case WriteDisk(copy, stored) => if copy.None? then CopyRead(i) else if !stored then CopyWrite(i) else CopyDone(i)
    case Finish => Pending(i)
    case Limbo => Detach(i)
    case _ => DrainDone(i)
  }

  /** A job whose next step is its own: it does not wait for a metadata write or a lookup. */
  predicate OnItsOwn(w: Work) { !w.NoWork? && !InMd(w) && (w.Drain? ==> w.rest == []) }

  lemma DueMoves(c: Config, s: State, i: nat)
    requires Slots(c, s) && Idx(c, s, i) && OnItsOwn(s.slots[i].work)
    ensures Productive(c, s, Due(c.mode, s.slots[i].work, i))
  {
  }

  lemma JobMoves(c: Config, s: State, i: nat) returns (step: Step)
    requires Inv(c, s) && Idx(c, s, i) && !s.slots[i].work.NoWork? && !InMd(s.slots[i].work)
    ensures Productive(c, s, step)
  {
    if OnItsOwn(s.slots[i].work) {
      DueMoves(c, s, i);
      step := Due(c.mode, s.slots[i].work, i);
    } else {
      step := Replay(i, Lookup(c, s, s.slots[i].dbn));
    }
  }

  /** While no slot is at work the requests are with the disk. */
  lemma NoneElsewhere(c: Config, s: State, x: nat)
    requires Inv(c, s) && Settled(s) && x in s.bios
    requires forall i {:trigger s.slots[i]} :: 0 <= i < |s.slots| ==> s.slots[i].work.NoWork?
    ensures s.bios[x].place == Uncached
  {
    assert PlaceOk(s, x, s.bios[x].place);
    forall i | 0 <= i < |s.slots| ensures s.slots[i].pend == [] { assert SlotOk(c, i, s.slots[i]); }
  }

  lemma BioMoves(c: Config, s: State, x: nat) returns (step: Step)
    requires Inv(c, s) && Settled(s) && x in s.bios
    requires forall i {:trigger s.slots[i]} :: 0 <= i < |s.slots| ==> s.slots[i].work.NoWork?
    ensures Productive(c, s, step)
  {
    NoneElsewhere(c, s, x);
    step := if s.bios[x].ran then UncachedDone(x, Lookup(c, s, s.bios[x].bio.dbn)) else DiskUncached(x);
  }

  /** No deadlock. */
  lemma NoDeadlock(c: Config, s: State) returns (step: Step)
    requires Inv(c, s) && Settled(s) && !AtRest(s)
    ensures Productive(c, s, step)
  {
    if m: nat :| m < |s.heads| && !s.heads[m].io.MdIdle? {
      step := HeadMoves(c, s, m);
    } else if i: nat :| i < |s.slots| && !s.slots[i].work.NoWork? {
      assert c.setOf[i] < c.sets && c.mdOf[i] < c.mdBlocks && HeadOk(c, s, c.mdOf[i]);
      step := JobMoves(c, s, i);
    } else {
      var x :| x in s.bios;
      step := BioMoves(c, s, x);
    }
  }

  // ----- so everything ends -----

  ghost predicate IsProductiveRun(c: Config, s: State, run: seq<State>, steps: seq<Step>) {
    && |run| == |steps| + 1 && run[0] == s
    && forall k {:trigger steps[k]} :: 0 <= k < |steps| ==> Productive(c, run[k], steps[k]) && run[k + 1] == Apply(c, run[k], steps[k])
  }

  lemma StepThenRun(c: Config, s: State, step: Step, run: seq<State>, steps: seq<Step>)
    requires Productive(c, s, step) && IsProductiveRun(c, Apply(c, s, step), run, steps)
    ensures IsProductiveRun(c, s, [s] + run, [step] + steps) && ([s] + run)[|[step] + steps|] == run[|steps|]
  {
    var run1, steps1 := [s] + run, [step] + steps;
    forall k | 0 <= k < |steps1| ensures Productive(c, run1[k], steps1[k]) && run1[k + 1] == Apply(c, run1[k], steps1[k]) {
      if k > 0 { assert steps1[k] == steps[k - 1] && run1[k] == run[k - 1] && run1[k + 1] == run[k - 1 + 1]; }
    }
  }

  /** From every good state productive steps lead to rest, whichever are taken on the way. */
  lemma {:induction false} ComesToRest(c: Config, disk: map<nat, Data>, s: State) returns (run: seq<State>, steps: seq<Step>)
    requires Good(c, disk, s)
    ensures IsProductiveRun(c, s, run, steps) && Good(c, disk, run[|steps|]) && AtRest(run[|steps|])
    decreases SlotRanks(s.slots), BioRanks(s), HeadRanks(c, s.heads)
  {
    if AtRest(s) {
      run, steps := [s], [];
    } else {
      var step := NoDeadlock(c, s);
      var t := Apply(c, s, step);
      ProductiveLowers(c, s, step);
      StepKeeps(c, s, step);
      StepSettled(c, s, step);
      StepDurable(c, disk, s, step);
      var run', steps' := ComesToRest(c, disk, t);
      run, steps := [s] + run', [step] + steps';
      StepThenRun(c, s, step, run', steps');
    }
  }

  lemma {:induction false} LostNone(c: Config, s: State, run: seq<State>, steps: seq<Step>, n: nat)
    requires IsProductiveRun(c, s, run, steps) && n < |run|
    ensures run[n].lost == s.lost && run[n].nextId == s.nextId
    decreases n
  {
    if n > 0 {
      var u, step := run[n - 1], steps[n - 1];
      LostNone(c, s, run, steps, n - 1);
      assert Productive(c, u, step) && run[n - 1 + 1] == Apply(c, u, step);
      StepLosesNone(c, u, step);
    }
  }

  lemma StepLosesNone(c: Config, s: State, step: Step)
    requires Productive(c, s, step)
    ensures Apply(c, s, step).lost == s.lost && Apply(c, s, step).nextId == s.nextId
  {
    if step.Replay? {
      InvalLosesNone(c, DetachNext(s, step.i), s.slots[step.i].work.rest[0].id, step.hit);
    } else if step.UncachedDone? {
      InvalLosesNone(c, Moved(s, step.x, Hand), step.x, step.hit);
    } else if step.IoDone? {
      EndLosesNone(c, s, step.i);
    } else if step.MdFinish? {
      MdLosesNone(c, s, s.heads[step.m].active[0]);
    } else if step.Pending? {
      PendingLosesNone(c, s, step.i);
    }
  }

  lemma InvalLosesNone(c: Config, s: State, x: nat, h: Option<nat>)
    requires MaybeIdx(c, s, h)
    ensures InvalBlocks(c, s, x, h).0.lost == s.lost && InvalBlocks(c, s, x, h).0.nextId == s.nextId
  {
  }

  lemma EndLosesNone(c: Config, s: State, i: nat)
    requires Idx(c, s, i)
    ensures IoCallback(c, s, i).lost == s.lost && IoCallback(c, s, i).nextId == s.nextId
  {
    match s.slots[i].work
    case ReadCache(x, got) => if got.Some? { ReleaseLosesNone(s, i, x, got.value); }
    case ReadFill(x, data, _) => ReleaseLosesNone(s, i, x, data);
    case WriteCache(x, _, _) =>
      ReleaseLosesNone(s, i, x, s.ssd[i]);
      ReleaseLosesNone(s, i, x, OnDisk(s, s.slots[i].dbn));
    case _ =>
  }

  lemma ReleaseLosesNone(s: State, i: nat, x: nat, result: Data)
    requires i < |s.slots|
    ensures Release(EndBio(s, x, result), i).lost == s.lost && Release(EndBio(s, x, result), i).nextId == s.nextId
  {
  }

  lemma MdLosesNone(c: Config, s: State, i: nat)
    requires Idx(c, s, i)
    ensures MdDoneJob(c, s, i).lost == s.lost && MdDoneJob(c, s, i).nextId == s.nextId
  {
  }

  lemma PendingLosesNone(c: Config, s: State, i: nat)
    requires Idx(c, s, i)
    ensures DoPending(c, s, i).lost == s.lost && DoPending(c, s, i).nextId == s.nextId
  {
  }

  /** Every unfinished request of every reachable state can be brought to its end, and is
      then ended exactly once, with nothing lost. */
  lemma EveryRequestEnds(c: Config, disk: map<nat, Data>, s: State) returns (t: State)
    requires WellFormed(c) && Reachable(c, disk, s)
    ensures Good(c, disk, t) && AtRest(t) && t.lost == s.lost
    ensures forall x :: x in s.bios ==> x in Acked(t.log)
    ensures exists run, steps :: IsProductiveRun(c, s, run, steps) && run[|steps|] == t
  {
    ReachableGood(c, disk, s);
    var run, steps := ComesToRest(c, disk, s);
    t := run[|steps|];
    LostNone(c, s, run, steps, |steps|);
    assert IsProductiveRun(c, s, run, steps) && run[|steps|] == t;
    forall x | x in s.bios ensures x in Acked(t.log) { assert x < t.nextId && x !in t.lost; }
  }
}
