/** No content comes from nowhere. Whatever a block is found to hold, in whatever interleaving and
    after whatever crashes, is its initial content patched by some sequence of writes of that
    block that have been submitted, also when those overlapped.

    `p` is any property of a block's content that the initial content has and every submitted
    write of the block keeps; everything the cache holds or answers for the block has it. */
module WriteOrder {
  import opened Types
  import opened Protocol
  import opened Invariant
  import opened Steps
  import opened Theorems

  type Prop = Data -> bool

  /** A write keeps the property. */
  ghost predicate Keeps(p: Prop, bio: Bio) { forall d: Data {:trigger Patch(d, bio)} :: p(d) ==> p(Patch(d, bio)) }

  /** The SSD block of the slot has the content of the slot's block. */
  predicate Solid(sl: Slot) {
    sl.bits.dirty || match sl.work
      case NoWork => sl.bits.valid
      case ReadDisk(_, _) => false
      case ReadFill(_, _, stored) => stored
      case WriteCache(_, stored, _) => stored
      case Limbo => false
      case Drain(_) => false
      case _ => true
  }

  /** What a job has in its buffer. */
  predicate Carried(p: Prop, w: Work) {
    match w
    case ReadCache(_, got) => got.Some? ==> p(got.value)
    case ReadDisk(_, got) => got.Some? ==> p(got.value)
    case ReadFill(_, data, _) => p(data)
    case WriteDisk(copy, _) => copy.Some? ==> p(copy.value)
    case _ => true
  }

  predicate SlotMade(p: Prop, b: nat, sl: Slot, data: Data) { sl.dbn == b ==> (Solid(sl) ==> p(data)) && Carried(p, sl.work) }

  ghost predicate SlotsMade(p: Prop, b: nat, s: State) {
    |s.ssd| == |s.slots| && forall i: nat {:trigger SlotMade(p, b, s.slots[i], s.ssd[i])} {:trigger s.slots[i]} :: i < |s.slots| ==> SlotMade(p, b, s.slots[i], s.ssd[i])
  }

  ghost predicate BioMade(p: Prop, b: nat, f: Flight) {
    f.bio.dbn == b ==> if f.bio.write then Keeps(p, f.bio) else f.ran ==> p(f.got)
  }

  ghost predicate BiosMade(p: Prop, b: nat, s: State) { forall x {:trigger BioMade(p, b, s.bios[x])} {:trigger s.bios[x]} :: x in s.bios ==> BioMade(p, b, s.bios[x]) }

  ghost predicate LogMade(p: Prop, b: nat, log: seq<Ack>) { forall k {:trigger log[k]} :: 0 <= k < |log| && log[k].bio.dbn == b ==> p(log[k].result) }

  /** All that is held or has been answered for block b has the property. */
  ghost predicate Made(p: Prop, b: nat, s: State) {
    SlotsMade(p, b, s) && BiosMade(p, b, s) && LogMade(p, b, s.log) && p(OnDisk(s, b)) && p(Logical(s, b))
  }

  // ----- the primitives -----

  /** Slot i changes, the rest stays. */
  lemma SlotChanges(p: Prop, b: nat, s: State, i: nat, sl: Slot)
    requires Made(p, b, s) && i < |s.slots| && SlotMade(p, b, sl, s.ssd[i])
    ensures Made(p, b, WithSlot(s, i, sl))
  {
    var t := WithSlot(s, i, sl);
    forall j: nat | j < |t.slots| ensures SlotMade(p, b, t.slots[j], t.ssd[j]) { assert SlotMade(p, b, s.slots[j], s.ssd[j]); }
  }

  lemma MovedMade(p: Prop, b: nat, s: State, x: nat, place: Place)
    requires Made(p, b, s)
    ensures Made(p, b, Moved(s, x, place))
  {
    var t := Moved(s, x, place);
    forall y | y in t.bios ensures BioMade(p, b, t.bios[y]) { assert BioMade(p, b, s.bios[y]); }
  }

  lemma UncachedMade(p: Prop, b: nat, s: State, x: nat)
    requires Made(p, b, s)
    ensures Made(p, b, StartUncached(s, x))
  {
    var t := StartUncached(s, x);
    forall y | y in t.bios ensures BioMade(p, b, t.bios[y]) { assert BioMade(p, b, s.bios[y]); }
  }

  lemma CountedMade(p: Prop, b: nat, s: State, k: Counters)
    requires Made(p, b, s)
    ensures Made(p, b, s.(ctr := k))
  {
  }

  /** Other bits than VALID and DIRTY do not matter. */
  lemma BitsMade(p: Prop, b: nat, s: State, i: nat, bits: Bits)
    requires Made(p, b, s) && i < |s.slots| && bits.dirty == s.slots[i].bits.dirty && bits.valid == s.slots[i].bits.valid
    ensures Made(p, b, WithSlot(s, i, s.slots[i].(bits := bits)))
  {
    assert SlotMade(p, b, s.slots[i], s.ssd[i]);
    SlotChanges(p, b, s, i, s.slots[i].(bits := bits));
  }

  lemma YoungMade(p: Prop, b: nat, c: Config, s: State, i: nat)
    requires Made(p, b, s) && Idx(c, s, i)
    ensures Made(p, b, ClearFallow(c, s, i)) && Idx(c, ClearFallow(c, s, i), i)
  {
    BitsMade(p, b, s, i, s.slots[i].bits.Young());
  }

  lemma OldMade(p: Prop, b: nat, c: Config, s: State, i: nat)
    requires Made(p, b, s) && Idx(c, s, i)
    ensures Made(p, b, DetectFallow(c, s, i))
  {
    var sl := s.slots[i];
    if c.mode == WriteBack && sl.bits.dirty && !sl.bits.Busy() {
      if !sl.bits.fallow1 {
        BitsMade(p, b, s, i, sl.bits.(fallow1 := true));
      } else if !sl.bits.fallow2 {
        BitsMade(p, b, s, i, sl.bits.(fallow2 := true));
      }
    }
  }

  lemma YoungSame(c: Config, s: State, i: nat)
    requires Idx(c, s, i)
    ensures var t := ClearFallow(c, s, i);
            t.bios == s.bios && t.slots[i] == s.slots[i].(bits := t.slots[i].bits) && t.slots[i].bits.valid == s.slots[i].bits.valid
            && t.slots[i].bits.dirty == s.slots[i].bits.dirty && t.slots[i].bits.Busy() == s.slots[i].bits.Busy()
  {
  }

  lemma QueuedMade(p: Prop, b: nat, s: State, x: nat, i: nat, inval: bool)
    requires Made(p, b, s) && i < |s.slots|
    ensures Made(p, b, Enqueue(s, x, i, inval))
  {
    var sl := s.slots[i];
    assert SlotMade(p, b, sl, s.ssd[i]);
    SlotChanges(p, b, s, i, sl.(pend := sl.pend + [Entry(x, inval)], nrQueued := sl.nrQueued + 1));
    MovedMade(p, b, WithSlot(s, i, sl.(pend := sl.pend + [Entry(x, inval)], nrQueued := sl.nrQueued + 1)), x, Queued(i));
  }

  /** A DIRTY slot starts being cleaned. */
  lemma CleanMade(p: Prop, b: nat, c: Config, s: State, i: nat)
    requires Made(p, b, s) && Idx(c, s, i) && s.slots[i].bits.dirty
    ensures Made(p, b, StartClean(c, s, i))
  {
    YoungMade(p, b, c, s, i);
    YoungSame(c, s, i);
    var t := ClearFallow(c, s, i);
    var sl := t.slots[i].(bits := t.slots[i].bits.Idle().(diskWrite := true), work := WriteDisk(None, false));
    assert SlotMade(p, b, t.slots[i], t.ssd[i]);
    SlotChanges(p, b, t, i, sl);
  }

  lemma InvalMade(p: Prop, b: nat, c: Config, s: State, x: nat, h: Option<nat>)
    requires Made(p, b, s) && MaybeIdx(c, s, h) && (h.Some? && !s.slots[h.value].bits.Busy() ==> s.slots[h.value].work.NoWork?)
    ensures Made(p, b, InvalBlocks(c, s, x, h).0) && Made(p, b, Bypass(c, s, x, h))
  {
    if h.Some? {
      var i := h.value;
      var sl := s.slots[i];
      if !sl.bits.Busy() && !sl.bits.dirty && sl.nrQueued == 0 {
        SlotChanges(p, b, s, i, sl.(bits := INVALID));
      } else {
        QueuedMade(p, b, s, x, i, true);
        if sl.bits.dirty && !sl.bits.Busy() { CleanMade(p, b, c, Enqueue(s, x, i, true), i); }
      }
    }
    UncachedMade(p, b, InvalBlocks(c, s, x, h).0, x);
  }

  // ----- requests -----

  lemma HitMade(p: Prop, b: nat, c: Config, s: State, x: nat, i: nat)
    requires Made(p, b, s) && Idx(c, s, i) && (!s.slots[i].bits.Busy() ==> s.slots[i].work.NoWork?) && s.slots[i].bits.valid
    ensures Made(p, b, Hit(c, s, x, i))
  {
    YoungMade(p, b, c, s, i);
    YoungSame(c, s, i);
    var t := ClearFallow(c, s, i);
    var sl := t.slots[i];
    if !sl.bits.Busy() && sl.nrQueued == 0 {
      assert SlotMade(p, b, sl, t.ssd[i]);
      var sl' := if BioOf(t, x).write then sl.(bits := sl.bits.(cacheWrite := true), work := WriteCache(x, false, false))
                 else sl.(bits := sl.bits.(cacheRead := true), work := ReadCache(x, None));
      SlotChanges(p, b, t, i, sl');
      MovedMade(p, b, WithSlot(t, i, sl'), x, OnSlot(i));
    } else {
      QueuedMade(p, b, t, x, i, false);
    }
  }

  lemma MissMade(p: Prop, b: nat, s: State, x: nat, v: Option<nat>, skip: bool)
    requires Made(p, b, s) && (v.Some? ==> v.value < |s.slots|)
    ensures Made(p, b, Miss(s, x, v, skip))
  {
    if v.None? || (skip && !BioOf(s, x).write) {
      UncachedMade(p, b, s, x);
    } else {
      var i, bio := v.value, BioOf(s, x);
      var sl := s.slots[i];
      var k := if sl.bits.valid then s.ctr else s.ctr.(cached := s.ctr.cached + 1);
      var sl' := if bio.write then sl.(bits := VALID.(cacheWrite := true), dbn := bio.dbn, work := WriteCache(x, false, false))
                 else sl.(bits := VALID.(diskRead := true), dbn := bio.dbn, work := ReadDisk(x, None));
      CountedMade(p, b, s, k);
      SlotChanges(p, b, s.(ctr := k), i, sl');
      MovedMade(p, b, WithSlot(s.(ctr := k), i, sl'), x, OnSlot(i));
    }
  }

  lemma NewMade(p: Prop, b: nat, s: State, bio: Bio)
    requires Made(p, b, s) && (bio.write && bio.dbn == b ==> Keeps(p, bio))
    ensures Made(p, b, NewBio(s, bio))
  {
    var t := NewBio(s, bio);
    forall y | y in t.bios ensures BioMade(p, b, t.bios[y]) { if y != s.nextId { assert BioMade(p, b, s.bios[y]); } }
  }

  /** A slot that is not busy has no job. */
  lemma IdleNoWork(c: Config, s: State, i: nat)
    requires Slots(c, s) && i < |s.slots|
    ensures !s.slots[i].bits.Busy() ==> s.slots[i].work.NoWork?
  {
    assert SlotOk(c, i, s.slots[i]);
  }

  lemma SubmitMade(p: Prop, b: nat, c: Config, s: State, bio: Bio, h: Option<nat>, v: Option<nat>, skip: bool)
    requires Made(p, b, s) && Slots(c, s) && MaybeIdx(c, s, h) && MaybeIdx(c, s, v) && IsLookup(c, s, bio.dbn, h) && (bio.write && bio.dbn == b ==> Keeps(p, bio))
    ensures Made(p, b, Submit(c, s, bio, h, v, skip))
  {
    var x, t := s.nextId, NewBio(s, bio);
    NewMade(p, b, s, bio);
    if h.Some? { IdleNoWork(c, s, h.value); }
    if !bio.full || (bio.write && (c.mode == WriteAround || skip)) {
      InvalMade(p, b, c, t, x, h);
    } else if h.Some? {
      HitMade(p, b, c, t, x, h.value);
    } else {
      MissMade(p, b, t, x, v, skip);
    }
  }

  /** A request ends with a result that has the property. */
  lemma EndMade(p: Prop, b: nat, s: State, x: nat, result: Data)
    requires Made(p, b, s) && (x in s.bios && s.bios[x].bio.dbn == b ==> p(result))
    ensures Made(p, b, EndBio(s, x, result))
  {
    var t := EndBio(s, x, result);
    forall y | y in t.bios ensures BioMade(p, b, t.bios[y]) { assert BioMade(p, b, s.bios[y]); }
  }

  lemma InHandMade(p: Prop, b: nat, s: State, x: nat)
    requires Made(p, b, s) && (x in s.bios && !s.bios[x].bio.write ==> s.bios[x].ran)
    ensures Made(p, b, EndInHand(s, x))
  {
    if x in s.bios { assert BioMade(p, b, s.bios[x]); }
    EndMade(p, b, s, x, if BioOf(s, x).write then OnDisk(s, BioOf(s, x).dbn) else if x in s.bios then s.bios[x].got else map[]);
  }

  /** A job's slot is let go with its block's content on the SSD. */
  lemma ReleasedMade(p: Prop, b: nat, s: State, i: nat)
    requires Made(p, b, s) && i < |s.slots| && Solid(s.slots[i])
    ensures Made(p, b, Release(s, i))
  {
    var sl := s.slots[i];
    assert SlotMade(p, b, sl, s.ssd[i]);
    SlotChanges(p, b, s, i, sl.(work := Finish));
    SlotChanges(p, b, s, i, sl.(bits := sl.bits.Idle(), work := NoWork));
  }

  // ----- the driver's steps -----

  /** The metadata heads do not matter. */
  lemma HeadsMade(p: Prop, b: nat, s: State, heads: seq<MdHead>)
    requires Made(p, b, s)
    ensures Made(p, b, s.(heads := heads))
  {
  }

  lemma EndReleased(p: Prop, b: nat, s: State, x: nat, result: Data, i: nat)
    requires Made(p, b, s) && i < |s.slots| && Solid(s.slots[i]) && (x in s.bios && s.bios[x].bio.dbn == b ==> p(result))
    ensures Made(p, b, Release(EndBio(s, x, result), i))
  {
    EndMade(p, b, s, x, result);
    ReleasedMade(p, b, EndBio(s, x, result), i);
  }

  lemma CallbackMade(p: Prop, b: nat, c: Config, s: State, i: nat)
    requires Made(p, b, s) && Bios(c, s) && Enabled(c, s, IoDone(i))
    ensures Made(p, b, IoCallback(c, s, i))
  {
    assert SlotMade(p, b, s.slots[i], s.ssd[i]) && JobOk(s, i);
    match s.slots[i].work
    case ReadDisk(x, got) => SlotChanges(p, b, s, i, s.slots[i].(work := ReadFill(x, got.value, false)));
    case ReadCache(x, got) => EndReleased(p, b, s, x, got.value, i);
    case ReadFill(x, data, _) => EndReleased(p, b, s, x, data, i);
    case WriteCache(x, _, _) => WroteMade(p, b, c, s, i, x);
    case _ =>
  }

  lemma WroteMade(p: Prop, b: nat, c: Config, s: State, i: nat, x: nat)
    requires Made(p, b, s) && Idx(c, s, i) && s.slots[i].work.WriteCache? && s.slots[i].work.id == x && s.slots[i].work.stored && JobOk(s, i)
    ensures Made(p, b, IoCallback(c, s, i))
  {
    assert SlotMade(p, b, s.slots[i], s.ssd[i]);
    if c.mode != WriteBack {
      EndReleased(p, b, s, x, OnDisk(s, s.slots[i].dbn), i);
    } else if s.slots[i].bits.dirty {
      EndReleased(p, b, s, x, s.ssd[i], i);
    } else {
      SlotChanges(p, b, s, i, s.slots[i].(work := MdDirty(x)));
      HeadsMade(p, b, WithWork(s, i, MdDirty(x)), MdWrite(c, WithWork(s, i, MdDirty(x)), i).heads);
    }
  }

  lemma CopiedMade(p: Prop, b: nat, c: Config, s: State, i: nat)
    requires Made(p, b, s) && Enabled(c, s, CopyDone(i))
    ensures Made(p, b, KcopydCallback(c, s, i))
  {
    assert SlotMade(p, b, s.slots[i], s.ssd[i]);
    SlotChanges(p, b, s, i, s.slots[i].(work := MdClean));
    HeadsMade(p, b, WithWork(s, i, MdClean), KcopydCallback(c, s, i).heads);
  }

  lemma RecordedMade(p: Prop, b: nat, c: Config, s: State, i: nat)
    requires Made(p, b, s) && Idx(c, s, i) && InMd(s.slots[i].work) && JobOk(s, i) && s.slots[i].bits.valid
    ensures Made(p, b, MdDoneJob(c, s, i))
  {
    var sl := s.slots[i];
    assert SlotMade(p, b, sl, s.ssd[i]);
    if sl.work.MdDirty? {
      var x, t := sl.work.id, WithSlot(s, i, sl.(bits := sl.bits.(dirty := true)));
      SlotChanges(p, b, s, i, sl.(bits := sl.bits.(dirty := true)));
      EndReleased(p, b, t, x, t.ssd[i], i);
      CountedMade(p, b, Release(EndBio(t, x, t.ssd[i]), i), MdDoneJob(c, s, i).ctr);
    } else {
      var t := WithSlot(s, i, sl.(bits := sl.bits.(dirty := false)));
      SlotChanges(p, b, s, i, sl.(bits := sl.bits.(dirty := false)));
      ReleasedMade(p, b, t, i);
      CountedMade(p, b, Release(t, i), MdDoneJob(c, s, i).ctr);
    }
  }

  lemma PendingMade(p: Prop, b: nat, c: Config, s: State, i: nat)
    requires Made(p, b, s) && Idx(c, s, i)
    ensures Made(p, b, DoPending(c, s, i))
  {
    var sl := s.slots[i];
    if sl.bits.dirty {
      CleanMade(p, b, c, s, i);
    } else {
      SlotChanges(p, b, s, i, sl.(bits := sl.bits.(valid := false, invalid := true), work := Limbo));
    }
  }

  lemma DetachedMade(p: Prop, b: nat, s: State, i: nat)
    requires Made(p, b, s) && i < |s.slots| && !s.slots[i].bits.dirty
    ensures Made(p, b, Dequeue(s, i))
  {
    var t := Dequeue(s, i);
    SlotChanges(p, b, s, i, s.slots[i].(pend := [], work := Drain(s.slots[i].pend)));
    forall y | y in t.bios ensures BioMade(p, b, t.bios[y]) { assert BioMade(p, b, s.bios[y]); }
  }

  lemma DetachNextMade(p: Prop, b: nat, s: State, i: nat)
    requires Made(p, b, s) && i < |s.slots| && s.slots[i].work.Drain? && s.slots[i].work.rest != []
    ensures Made(p, b, DetachNext(s, i))
  {
    var t := DetachNext(s, i);
    var sl := s.slots[i];
    assert SlotMade(p, b, sl, s.ssd[i]);
    SlotChanges(p, b, s, i, sl.(work := Drain(sl.work.rest[1..]), nrQueued := sl.nrQueued - 1));
    forall y | y in t.bios ensures BioMade(p, b, t.bios[y]) { assert BioMade(p, b, s.bios[y]); }
  }

  lemma ReplayedMade(p: Prop, b: nat, c: Config, s: State, i: nat, h: Option<nat>)
    requires Made(p, b, s) && Slots(c, s) && Enabled(c, s, Replay(i, h))
    ensures Made(p, b, DrainOne(c, s, i, h))
  {
    var e, t := s.slots[i].work.rest[0], DetachNext(s, i);
    DetachNextMade(p, b, s, i);
    assert SlotOk(c, i, s.slots[i]);
    if h.Some? { IdleNoWork(c, s, h.value); }
    if e.inval { InvalMade(p, b, c, t, e.id, h); } else { UncachedMade(p, b, t, e.id); }
  }

  lemma DrainedMade(p: Prop, b: nat, s: State, i: nat)
    requires Made(p, b, s) && i < |s.slots| && !s.slots[i].bits.dirty && !s.slots[i].bits.valid
    ensures Made(p, b, DrainEnd(s, i))
  {
    SlotChanges(p, b, s, i, s.slots[i].(bits := s.slots[i].bits.Idle(), work := NoWork));
  }

  lemma CompletedMade(p: Prop, b: nat, c: Config, s: State, x: nat, h: Option<nat>)
    requires Made(p, b, s) && Slots(c, s) && Enabled(c, s, UncachedDone(x, h))
    ensures Made(p, b, UncachedComplete(c, s, x, h))
  {
    var t := Moved(s, x, Hand);
    MovedMade(p, b, s, x, Hand);
    if h.Some? { IdleNoWork(c, s, h.value); }
    InvalMade(p, b, c, t, x, h);
    var (u, queued) := InvalBlocks(c, t, x, h);
    if !queued { InHandMade(p, b, u, x); }
  }

  // ----- devices, crashes and reloads -----

  /** One SSD block is written. */
  lemma StoredMade(p: Prop, b: nat, s: State, i: nat, sl: Slot, data: Data)
    requires Made(p, b, s) && i < |s.slots| && SlotMade(p, b, sl, data)
    ensures Made(p, b, WithSlot(s, i, sl).(ssd := s.ssd[i := data]))
  {
    var t := WithSlot(s, i, sl).(ssd := s.ssd[i := data]);
    forall j: nat | j < |t.slots| ensures SlotMade(p, b, t.slots[j], t.ssd[j]) { assert SlotMade(p, b, s.slots[j], s.ssd[j]); }
  }

  /** A disk block is written. */
  lemma DiskMade(p: Prop, b: nat, s: State, d: nat, data: Data)
    requires Made(p, b, s) && (d == b ==> p(data))
    ensures Made(p, b, s.(disk := s.disk[d := data]))
  {
  }

  /** The payload of a whole-block write a slot's job carries. */
  lemma PayloadMade(p: Prop, b: nat, s: State, i: nat)
    requires Made(p, b, s) && i < |s.slots| && s.slots[i].work.WriteCache? && JobOk(s, i) && s.slots[i].dbn == b
    ensures p(BioOf(s, s.slots[i].work.id).payload)
  {
    var f := s.bios[s.slots[i].work.id];
    assert BioMade(p, b, f);
    assert Patch(OnDisk(s, b), f.bio) == f.bio.payload;
  }

  lemma SsdStepMade(p: Prop, b: nat, c: Config, s: State, step: Step)
    requires Made(p, b, s) && Bios(c, s) && Enabled(c, s, step) && (step.SsdRead? || step.DiskRead? || step.SsdFill? || step.SsdWrite?)
    ensures Made(p, b, Apply(c, s, step))
  {
    var i := step.i;
    var sl := s.slots[i];
    assert SlotMade(p, b, sl, s.ssd[i]) && JobOk(s, i);
    if step.SsdRead? {
      SlotChanges(p, b, s, i, sl.(work := ReadCache(sl.work.id, Some(s.ssd[i]))));
    } else if step.DiskRead? {
      SlotChanges(p, b, s, i, sl.(work := ReadDisk(sl.work.id, Some(OnDisk(s, sl.dbn)))));
    } else if step.SsdFill? {
      StoredMade(p, b, s, i, sl.(work := ReadFill(sl.work.id, sl.work.data, true)), sl.work.data);
    } else {
      if sl.dbn == b { PayloadMade(p, b, s, i); }
      StoredMade(p, b, s, i, sl.(work := WriteCache(sl.work.id, true, sl.work.mirrored)), BioOf(s, sl.work.id).payload);
    }
  }

  lemma DiskStepMade(p: Prop, b: nat, c: Config, s: State, step: Step)
    requires Made(p, b, s) && Bios(c, s) && Slots(c, s) && Enabled(c, s, step) && (step.DiskMirror? || step.CopyRead? || step.CopyWrite?)
    ensures Made(p, b, Apply(c, s, step))
  {
    var i := step.i;
    var sl := s.slots[i];
    assert SlotMade(p, b, sl, s.ssd[i]) && JobOk(s, i);
    if step.DiskMirror? {
      if sl.dbn == b { PayloadMade(p, b, s, i); }
      SlotChanges(p, b, s, i, sl.(work := WriteCache(sl.work.id, sl.work.stored, true)));
      DiskMade(p, b, WithWork(s, i, WriteCache(sl.work.id, sl.work.stored, true)), sl.dbn, BioOf(s, sl.work.id).payload);
    } else if step.CopyRead? {
      SlotChanges(p, b, s, i, sl.(work := WriteDisk(Some(s.ssd[i]), false)));
    } else {
      SlotChanges(p, b, s, i, sl.(work := WriteDisk(sl.work.copy, true)));
      DiskMade(p, b, WithWork(s, i, WriteDisk(sl.work.copy, true)), sl.dbn, sl.work.copy.value);
    }
  }

  lemma UncachedStepMade(p: Prop, b: nat, s: State, x: nat)
    requires Made(p, b, s) && x in s.bios
    ensures Made(p, b, FxUncached(s, x))
  {
    var t := FxUncached(s, x);
    assert BioMade(p, b, s.bios[x]);
    assert s.bios[x].bio.write && s.bios[x].bio.dbn == b ==> p(Patch(OnDisk(s, b), s.bios[x].bio));
    forall y | y in t.bios ensures BioMade(p, b, t.bios[y]) { assert BioMade(p, b, s.bios[y]); }
  }

  /** A DIRTY record of the block is of a slot with its content. */
  lemma RecordMade(p: Prop, b: nat, c: Config, s: State, i: nat)
    requires Made(p, b, s) && Slots(c, s) && Meta(c, s) && i < c.size && s.md[i].dirty && s.md[i].dbn == b
    ensures p(s.ssd[i])
  {
    assert SlotOk(c, i, s.slots[i]) && RecOk(c, s, i) && SlotMade(p, b, s.slots[i], s.ssd[i]);
  }

  lemma CrashMade(p: Prop, b: nat, c: Config, s: State)
    requires Made(p, b, s) && Slots(c, s) && Meta(c, s)
    ensures Made(p, b, Crash(c, s))
  {
    var t := Crash(c, s);
    forall j: nat | j < |t.slots| ensures SlotMade(p, b, t.slots[j], t.ssd[j]) { if s.md[j].dirty && s.md[j].dbn == b { RecordMade(p, b, c, s, j); } }
    forall i | 0 <= i < |s.md| && i < |s.ssd| && s.md[i].dirty && s.md[i].dbn == b ensures p(s.ssd[i]) { RecordMade(p, b, c, s, i); }
    assert p(Recovered(s, b));
  }

  lemma RestartMade(p: Prop, b: nat, c: Config, s: State)
    requires Made(p, b, s) && Enabled(c, s, CleanRestart)
    ensures Made(p, b, Remount(c, s))
  {
    var t := Remount(c, s);
    forall j: nat | j < |t.slots| ensures SlotMade(p, b, t.slots[j], t.ssd[j]) { assert SlotMade(p, b, s.slots[j], s.ssd[j]); }
  }

  // ----- every step, every run -----

  lemma SameMade(p: Prop, b: nat, c: Config, s: State, step: Step)
    requires Made(p, b, s) && Enabled(c, s, step) && (step.Kickoff? || step.MdWritten? || step.MdAdvance? || step.MdEffect?)
    ensures Made(p, b, Apply(c, s, step))
  {
  }

  lemma FinishMade(p: Prop, b: nat, c: Config, s: State, m: nat)
    requires Made(p, b, s) && Slots(c, s) && Bios(c, s) && Meta(c, s) && Enabled(c, s, MdFinish(m))
    ensures Made(p, b, MdDoneOne(c, s, m))
  {
    var i := s.heads[m].active[0];
    assert HeadOk(c, s, m) && All(s.heads[m])[0] == i && SlotOk(c, i, s.slots[i]) && JobOk(s, i);
    RecordedMade(p, b, c, s, i);
    HeadsMade(p, b, MdDoneJob(c, s, i), MdDoneOne(c, s, m).heads);
  }

  lemma DrainStepMade(p: Prop, b: nat, c: Config, s: State, step: Step)
    requires Made(p, b, s) && Slots(c, s) && Enabled(c, s, step) && (step.Pending? || step.Detach? || step.Replay? || step.DrainDone? || step.CleanSlot? || step.MarkFallow?)
    ensures Made(p, b, Apply(c, s, step))
  {
    assert SlotOk(c, step.i, s.slots[step.i]);
    if step.Pending? {
      PendingMade(p, b, c, s, step.i);
    } else if step.Detach? {
      DetachedMade(p, b, s, step.i);
    } else if step.Replay? {
      ReplayedMade(p, b, c, s, step.i, step.hit);
    } else if step.DrainDone? {
      DrainedMade(p, b, s, step.i);
    } else if step.CleanSlot? {
      CleanMade(p, b, c, s, step.i);
    } else {
      OldMade(p, b, c, s, step.i);
    }
  }

  /** Every step keeps it that all there is of block b has a property that every write of b keeps. */
  lemma StepMade(p: Prop, b: nat, c: Config, s: State, step: Step)
    requires Made(p, b, s) && Inv(c, s) && Enabled(c, s, step)
    requires step.Map? && step.bio.write && step.bio.dbn == b ==> Keeps(p, step.bio)
    ensures Made(p, b, Apply(c, s, step))
  {
    if step.Map? {
      SubmitMade(p, b, c, s, step.bio, step.hit, step.victim, step.skip);
    } else if step.IoDone? {
      CallbackMade(p, b, c, s, step.i);
    } else if step.CopyDone? {
      CopiedMade(p, b, c, s, step.i);
    } else if step.MdFinish? {
      FinishMade(p, b, c, s, step.m);
    } else if step.UncachedDone? {
      CompletedMade(p, b, c, s, step.x, step.hit);
    } else if step.SsdRead? || step.DiskRead? || step.SsdFill? || step.SsdWrite? {
      SsdStepMade(p, b, c, s, step);
    } else if step.DiskMirror? || step.CopyRead? || step.CopyWrite? {
      DiskStepMade(p, b, c, s, step);
    } else if step.DiskUncached? {
      UncachedStepMade(p, b, s, step.x);
    } else if step.PowerLoss? {
      CrashMade(p, b, c, s);
    } else if step.CleanRestart? {
      RestartMade(p, b, c, s);
    } else if step.Kickoff? || step.MdWritten? || step.MdAdvance? || step.MdEffect? {
      SameMade(p, b, c, s, step);
    } else {
      DrainStepMade(p, b, c, s, step);
    }
  }

  ghost predicate Submits(step: Step, bio: Bio) { step.Map? && step.bio == bio }

  lemma {:induction false} RunMade(p: Prop, b: nat, c: Config, disk: map<nat, Data>, run: seq<State>, steps: seq<Step>, n: nat)
    requires WellFormed(c) && IsRun(c, disk, run, steps) && n < |run| && p(At(disk, b, map[]))
    requires forall k {:trigger steps[k]} :: 0 <= k < |steps| && steps[k].Map? && steps[k].bio.write && steps[k].bio.dbn == b ==> Keeps(p, steps[k].bio)
    ensures Made(p, b, run[n])
    decreases n
  {
    if n == 0 {
      StartMade(p, b, c, disk);
    } else {
      RunMade(p, b, c, disk, run, steps, n - 1);
      RunGood(c, disk, run, steps, n - 1);
      assert Follows(c, run, steps, n - 1);
      StepMade(p, b, c, run[n - 1], steps[n - 1]);
    }
  }

  lemma StartMade(p: Prop, b: nat, c: Config, disk: map<nat, Data>)
    requires p(At(disk, b, map[]))
    ensures Made(p, b, Start(c, disk))
  {
  }

  /** What a sequence of writes makes of a content. */
  function Outcome(v: Data, ws: seq<Bio>): Data {
    if ws == [] then v else Patch(Outcome(v, ws[..|ws| - 1]), ws[|ws| - 1])
  }

  /** The write is of block b and one of the run's steps submits it. */
  ghost predicate WriteOf(steps: seq<Step>, b: nat, bio: Bio) { bio.write && bio.dbn == b && exists k :: 0 <= k < |steps| && Submits(steps[k], bio) }

  /** The content is what some sequence of writes of the run makes of v. */
  ghost predicate FromWrites(steps: seq<Step>, b: nat, v: Data, d: Data) {
    exists ws: seq<Bio> :: (forall k {:trigger ws[k]} :: 0 <= k < |ws| ==> WriteOf(steps, b, ws[k])) && d == Outcome(v, ws)
  }

  lemma OneMoreWrite(steps: seq<Step>, b: nat, v: Data, d: Data, bio: Bio)
    requires FromWrites(steps, b, v, d) && WriteOf(steps, b, bio)
    ensures FromWrites(steps, b, v, Patch(d, bio))
  {
    var ws: seq<Bio> :| (forall k {:trigger ws[k]} :: 0 <= k < |ws| ==> WriteOf(steps, b, ws[k])) && d == Outcome(v, ws);
    var more := ws + [bio];
    assert more[..|more| - 1] == ws;
    assert Outcome(v, more) == Patch(d, bio);
  }

  /** Whatever a run does to block b, its overlapping writes included: the disk, the content
      after the last answered write and the result of every request of b are its initial content
      patched by some sequence of the run's writes of b. */
  lemma NothingInvented(c: Config, disk: map<nat, Data>, run: seq<State>, steps: seq<Step>, b: nat, k: nat)
    requires WellFormed(c) && IsRun(c, disk, run, steps)
    ensures var s, v := run[|steps|], At(disk, b, map[]);
      FromWrites(steps, b, v, OnDisk(s, b)) && FromWrites(steps, b, v, Logical(s, b))
      && (k < |s.log| && s.log[k].bio.dbn == b ==> FromWrites(steps, b, v, s.log[k].result))
  {
    var v := At(disk, b, map[]);
    var p: Prop := d => FromWrites(steps, b, v, d);
    assert Outcome(v, []) == v;
    forall j | 0 <= j < |steps| && steps[j].Map? && steps[j].bio.write && steps[j].bio.dbn == b ensures Keeps(p, steps[j].bio) {
      assert Submits(steps[j], steps[j].bio);
      forall d: Data | p(d) ensures p(Patch(d, steps[j].bio)) { OneMoreWrite(steps, b, v, d, steps[j].bio); }
    }
    RunMade(p, b, c, disk, run, steps, |steps|);
  }
}
