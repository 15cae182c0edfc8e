/** Each critical section touches one slot and one block. These lemmas carry the
    families of the invariant over everything such a change leaves alone. */
module Frames {
  import opened Types
  import opened Protocol
  import opened Invariant

  ghost predicate SlotsOff(s: State, t: State, i: nat) {
    |t.slots| == |s.slots| && forall k {:trigger t.slots[k]} {:trigger s.slots[k]} :: 0 <= k < |s.slots| && k != i ==> t.slots[k] == s.slots[k]
  }

  ghost predicate SsdOff(s: State, t: State, i: nat) {
    |t.ssd| == |s.ssd| && forall k {:trigger t.ssd[k]} {:trigger s.ssd[k]} :: 0 <= k < |s.ssd| && k != i ==> t.ssd[k] == s.ssd[k]
  }

  ghost predicate DiskOff(s: State, t: State, b: nat) {
    forall d: nat {:trigger OnDisk(t, d)} {:trigger OnDisk(s, d)} :: d != b ==> OnDisk(t, d) == OnDisk(s, d)
  }

  ghost predicate LogicalOff(s: State, t: State, b: nat) {
    forall d: nat {:trigger Logical(t, d)} {:trigger Logical(s, d)} :: d != b ==> Logical(t, d) == Logical(s, d)
  }

  /** Requests of other blocks are as before. */
  ghost predicate FlightsOff(s: State, t: State, b: nat) {
    && (forall y {:trigger s.bios[y]} {:trigger y in t.bios} :: y in s.bios && s.bios[y].bio.dbn != b ==> y in t.bios && t.bios[y] == s.bios[y])
    && (forall y {:trigger t.bios[y]} {:trigger y in s.bios} :: y in t.bios && t.bios[y].bio.dbn != b ==> y in s.bios && t.bios[y] == s.bios[y])
  }

  /** The slot a request sits at, if any. */
  function Seat(p: Place): Option<nat> {
    match p
    case OnSlot(i) => Some(i)
    case Queued(i) => Some(i)
    case Detached(i) => Some(i)
    case _ => None
  }

  predicate Elsewhere(p: Place, i: nat) { Seat(p).Some? && Seat(p) != Some(i) }

  /** Requests sitting at other slots stay there. */
  ghost predicate SeatsOff(s: State, t: State, i: nat) {
    && (forall y {:trigger s.bios[y]} {:trigger y in t.bios} :: y in s.bios && Elsewhere(s.bios[y].place, i) ==>
          y in t.bios && t.bios[y].place == s.bios[y].place && t.bios[y].bio == s.bios[y].bio
          && (t.bios[y].alone ==> s.bios[y].alone && t.bios[y].pre == s.bios[y].pre))
    && (forall y {:trigger t.bios[y]} {:trigger y in s.bios} :: y in t.bios && Elsewhere(t.bios[y].place, i) ==>
          y in s.bios && t.bios[y].place == s.bios[y].place)
  }

  ghost predicate NoValid(s: State, b: nat) {
    forall k {:trigger s.slots[k]} :: 0 <= k < |s.slots| && s.slots[k].bits.valid ==> s.slots[k].dbn != b
  }

  ghost predicate NoOther(s: State, b: nat, i: nat) {
    forall k {:trigger s.slots[k]} :: 0 <= k < |s.slots| && k != i && s.slots[k].bits.valid ==> s.slots[k].dbn != b
  }

  /** Nothing of block b changes that a slot of it could notice. */
  ghost predicate Gentle(s: State, t: State, b: nat) {
    OnDisk(t, b) == OnDisk(s, b) && (Tainted(s, b) ==> Tainted(t, b))
  }

  /** The shape of a state. */
  ghost predicate Shape(c: Config, s: State) {
    && |s.slots| == |s.ssd| == |s.md| == c.size && |s.heads| == c.mdBlocks
    && |s.ctr.setDirty| == |s.ctr.setFallow| == |s.ctr.setCleaning| == c.sets
  }

  lemma SlotsFrame(c: Config, s: State, t: State, i: nat)
    requires Slots(c, s) && Shape(c, t) && SlotsOff(s, t, i)
    requires i < c.size ==> SlotOk(c, i, t.slots[i])
    requires i < c.size && t.slots[i].bits.valid ==> NoOther(s, t.slots[i].dbn, i)
    ensures Slots(c, t)
  {
  }

  lemma BiosFrame(c: Config, s: State, t: State, i: nat)
    requires Bios(c, s) && SlotsOff(s, t, i) && SeatsOff(s, t, i)
    requires i < |t.slots| ==> JobOk(t, i) && EntriesOk(t, i)
    requires forall y {:trigger t.bios[y]} :: y in t.bios && Seat(t.bios[y].place) == Some(i) ==> PlaceOk(t, y, t.bios[y].place)
    ensures Bios(c, t)
  {
    forall k | 0 <= k < |t.slots| && k != i
      ensures JobOk(t, k) && EntriesOk(t, k)
    {
      assert t.slots[k] == s.slots[k];
      assert JobOk(s, k) && EntriesOk(s, k);
    }
    forall y | y in t.bios
      ensures PlaceOk(t, y, t.bios[y].place)
    {
      if Elsewhere(t.bios[y].place, i) { assert PlaceOk(s, y, s.bios[y].place); }
    }
  }

  /** Nothing the metadata records tell has changed. */
  predicate SameToMeta(a: Slot, b: Slot) {
    a.bits.dirty == b.bits.dirty && ((a.bits.dirty || a.work.MdDirty?) ==> a.dbn == b.dbn)
    && a.work.MdDirty? == b.work.MdDirty? && a.work.MdClean? == b.work.MdClean?
  }

  lemma MetaFrame(c: Config, s: State, t: State, i: nat)
    requires Slots(c, s) && Slots(c, t) && Meta(c, s) && SlotsOff(s, t, i)
    requires t.heads == s.heads && t.md == s.md
    requires i < c.size ==> SameToMeta(s.slots[i], t.slots[i])
    ensures Meta(c, t)
  {
    forall k | 0 <= k < c.size
      ensures SameToMeta(s.slots[k], t.slots[k]) && RecOk(c, t, k)
      ensures InMd(t.slots[k].work) ==> k in All(t.heads[c.mdOf[k]])
    {
      assert k != i ==> t.slots[k] == s.slots[k];
      assert RecOk(c, s, k) && (InMd(s.slots[k].work) ==> k in All(s.heads[c.mdOf[k]]));
    }
    forall m | 0 <= m < c.mdBlocks
      ensures HeadOk(c, t, m)
    {
      assert HeadOk(c, s, m);
    }
  }

  lemma TaintedFrame(s: State, t: State, b: nat, d: nat)
    requires FlightsOff(s, t, b) && d != b
    ensures Tainted(s, d) ==> Tainted(t, d)
  {
    if Tainted(s, d) {
      var x :| x in s.bios && s.bios[x].bio.write && s.bios[x].bio.dbn == d && (s.bios[x].place == Uncached || s.bios[x].place == Hand);
      assert t.bios[x] == s.bios[x];
    }
  }

  lemma AwaitedFrame(c: Config, s: State, t: State, i: nat, k: nat)
    requires Bios(c, s) && SeatsOff(s, t, i) && k < |s.slots| == |t.slots| && k != i
    requires t.slots[k] == s.slots[k]
    ensures AwaitedByWrite(s, k) ==> AwaitedByWrite(t, k)
  {
    if AwaitedByWrite(s, k) {
      assert EntriesOk(s, k);
      var e :| e in s.slots[k].pend && e.id in s.bios && s.bios[e.id].bio.write && (s.slots[k].bits.dirty ==> !s.bios[e.id].alone);
      assert Elsewhere(s.bios[e.id].place, i);
      assert e.id in t.bios && t.bios[e.id].bio == s.bios[e.id].bio;
    }
  }

  lemma ContentFrame(c: Config, s: State, t: State, i: nat, b: nat)
    requires Slots(c, s) && Slots(c, t) && Bios(c, s) && Content(c, s)
    requires SlotsOff(s, t, i) && SsdOff(s, t, i) && DiskOff(s, t, b) && FlightsOff(s, t, b) && SeatsOff(s, t, i)
    requires NoOther(s, b, i) || Gentle(s, t, b)
    requires i < c.size ==> ContentOk(c, t, i)
    ensures Content(c, t)
  {
    forall k | 0 <= k < c.size && k != i
      ensures ContentOk(c, t, k)
    {
      assert t.slots[k] == s.slots[k] && t.ssd[k] == s.ssd[k] && SlotOk(c, k, s.slots[k]);
      assert s.slots[k].bits.valid && s.slots[k].dbn == b ==> !NoOther(s, b, i);
      OtherContent(c, s, t, i, b, k);
    }
  }

  lemma OtherContent(c: Config, s: State, t: State, i: nat, b: nat, k: nat)
    requires Bios(c, s) && k < |s.slots| == |s.ssd| && |t.slots| == |t.ssd| == |s.slots| && |c.setOf| == |s.slots|
    requires SlotOk(c, k, s.slots[k]) && ContentOk(c, s, k)
    requires DiskOff(s, t, b) && FlightsOff(s, t, b) && SeatsOff(s, t, i)
    requires k != i && t.slots[k] == s.slots[k] && t.ssd[k] == s.ssd[k]
    requires s.slots[k].bits.valid && s.slots[k].dbn == b ==> Gentle(s, t, b)
    ensures ContentOk(c, t, k)
  {
    assert JobOk(s, k);
    if s.slots[k].bits.valid {
      if s.slots[k].dbn != b { TaintedFrame(s, t, b, s.slots[k].dbn); }
      AwaitedFrame(c, s, t, i, k);
    }
  }

  lemma HoldsFrame(c: Config, s: State, t: State, i: nat, b: nat, d: nat, v: Data)
    requires SlotsOff(s, t, i) && SsdOff(s, t, i) && DiskOff(s, t, b) && d != b
    requires i < |s.slots| ==> (DirtyAt(s, d, i) <==> DirtyAt(t, d, i)) && (DirtyAt(s, d, i) ==> i < |s.ssd| && t.ssd[i] == s.ssd[i])
    ensures NoDirty(s, d) <==> NoDirty(t, d)
    ensures Holds(s, d, v) ==> Holds(t, d, v)
  {
    forall k | 0 <= k < |s.slots|
      ensures DirtyAt(s, d, k) <==> DirtyAt(t, d, k)
    {
      assert k != i ==> t.slots[k] == s.slots[k];
    }
  }

  /** Slot i is DIRTY for no block other than b, before and after. */
  predicate DirtyOnly(s: State, t: State, i: nat, b: nat) {
    i < |s.slots| == |t.slots| ==> (s.slots[i].bits.dirty ==> s.slots[i].dbn == b) && (t.slots[i].bits.dirty ==> t.slots[i].dbn == b)
  }

  lemma RegisterFrame(c: Config, s: State, t: State, i: nat, b: nat)
    requires Slots(c, s) && Bios(c, s) && Register(c, s)
    requires SlotsOff(s, t, i) && SsdOff(s, t, i) && DiskOff(s, t, b) && LogicalOff(s, t, b) && FlightsOff(s, t, b)
    requires DirtyOnly(s, t, i, b) && SeatedAway(t, i, b) && SeatsOff(s, t, i)
    requires forall y {:trigger t.bios[y]} :: y in t.bios && t.bios[y].bio.dbn == b ==> FlightOk(t, y, t.bios[y])
    requires NoWrite(t, b) ==> Holds(t, b, Logical(t, b))
    requires i < |t.slots| ==> BufferOk(t, i)
    requires forall k {:trigger t.log[k]} :: 0 <= k < |t.log| ==> AckOk(t.log[k])
    ensures Register(c, t)
  {
    forall y | y in t.bios && t.bios[y].bio.dbn != b
      ensures FlightOk(t, y, t.bios[y])
    {
      OtherFlight(c, s, t, i, b, y);
    }
    forall d: nat | NoWrite(t, d)
      ensures Holds(t, d, Logical(t, d))
    {
      if d != b {
        assert NoWrite(s, d);
        HoldsFrame(c, s, t, i, b, d, Logical(s, d));
      }
    }
    forall k | 0 <= k < |t.slots|
      ensures BufferOk(t, k)
    {
      if k != i {
        assert t.slots[k] == s.slots[k] && BufferOk(s, k) && JobOk(s, k) && SlotOk(c, k, s.slots[k]);
      }
    }
  }

  /** Requests queued at slot i are for block b, if the slot is not VALID. */
  ghost predicate SeatedAway(t: State, i: nat, b: nat) {
    i < |t.slots| && !t.slots[i].bits.valid ==>
      forall y {:trigger t.bios[y]} :: y in t.bios && t.bios[y].place == Queued(i) ==> t.bios[y].bio.dbn == b
  }

  lemma OtherFlight(c: Config, s: State, t: State, i: nat, b: nat, y: nat)
    requires Register(c, s)
    requires SlotsOff(s, t, i) && SsdOff(s, t, i) && DiskOff(s, t, b) && LogicalOff(s, t, b) && FlightsOff(s, t, b)
    requires DirtyOnly(s, t, i, b) && SeatedAway(t, i, b)
    requires y in t.bios && t.bios[y].bio.dbn != b
    ensures FlightOk(t, y, t.bios[y])
  {
    var f := t.bios[y];
    var d := f.bio.dbn;
    assert f == s.bios[y] && FlightOk(s, y, f);
    HoldsFrame(c, s, t, i, b, d, f.pre);
    HoldsFrame(c, s, t, i, b, d, Patch(f.pre, f.bio));
    assert Past(t, f.place) ==> Past(s, f.place);
    assert Logical(t, d) == Logical(s, d) && OnDisk(t, d) == OnDisk(s, d);
  }

  lemma HistorySame(s: State, t: State)
    requires History(s) && t.bios == s.bios && t.log == s.log && t.nextId == s.nextId && t.lost == s.lost
    ensures History(t)
  {
  }

  /** t is s but for slot i and block b. */
  ghost predicate Off(c: Config, s: State, t: State, i: nat, b: nat) {
    && Shape(c, t)
    && SlotsOff(s, t, i) && SsdOff(s, t, i) && DiskOff(s, t, b) && LogicalOff(s, t, b)
    && FlightsOff(s, t, b) && SeatsOff(s, t, i) && (NoOther(s, b, i) || Gentle(s, t, b))
    && (i < |s.slots| ==> (s.slots[i].bits.dirty ==> s.slots[i].dbn == b) && t.slots[i].dbn == b)
  }

  /** Slot i of t is in order, apart from the requests. */
  ghost predicate SlotInOrder(c: Config, t: State, i: nat)
    requires Shape(c, t) && WellFormed(c)
  {
    i < c.size ==> SlotOk(c, i, t.slots[i]) && JobOk(t, i) && EntriesOk(t, i) && ContentOk(c, t, i) && BufferOk(t, i)
  }

  /** The requests of block b in t are in order. */
  ghost predicate BlockInOrder(c: Config, t: State, i: nat, b: nat) {
    && (forall y {:trigger t.bios[y]} :: y in t.bios && Seat(t.bios[y].place) == Some(i) ==> PlaceOk(t, y, t.bios[y].place))
    && (forall y {:trigger t.bios[y]} :: y in t.bios && t.bios[y].bio.dbn == b ==> FlightOk(t, y, t.bios[y]))
    && (NoWrite(t, b) ==> Holds(t, b, Logical(t, b)))
    && (forall k {:trigger t.log[k]} :: 0 <= k < |t.log| ==> AckOk(t.log[k]))
    && History(t)
  }

  /** A change that is in order where it happens keeps all families but Meta. */
  lemma LocalChange(c: Config, s: State, t: State, i: nat, b: nat)
    requires Inv(c, s) && Off(c, s, t, i, b) && SlotInOrder(c, t, i) && BlockInOrder(c, t, i, b)
    requires i < c.size && t.slots[i].bits.valid ==> NoOther(s, b, i)
    ensures Slots(c, t) && Bios(c, t) && History(t) && Content(c, t) && Register(c, t)
  {
    SlotsFrame(c, s, t, i);
    BiosFrame(c, s, t, i);
    ContentFrame(c, s, t, i, b);
    LocalRegister(c, s, t, i, b);
  }

  lemma LocalRegister(c: Config, s: State, t: State, i: nat, b: nat)
    requires Slots(c, s) && Bios(c, s) && Register(c, s) && WellFormed(c)
    requires Off(c, s, t, i, b) && SlotInOrder(c, t, i) && BlockInOrder(c, t, i, b) && Bios(c, t)
    ensures Register(c, t)
  {
    assert SeatedAway(t, i, b) by { assert i < |t.slots| ==> EntriesOk(t, i); }
    RegisterFrame(c, s, t, i, b);
  }

  /** ... and keeps Meta if no record tells of it. */
  lemma LocalKeeps(c: Config, s: State, t: State, i: nat, b: nat)
    requires Inv(c, s) && Off(c, s, t, i, b) && SlotInOrder(c, t, i) && BlockInOrder(c, t, i, b)
    requires i < c.size && t.slots[i].bits.valid ==> NoOther(s, b, i)
    requires t.heads == s.heads && t.md == s.md
    requires i < c.size ==> SameToMeta(s.slots[i], t.slots[i])
    ensures Inv(c, t)
  {
    LocalChange(c, s, t, i, b);
    MetaFrame(c, s, t, i);
  }

  /** Block b reads the same in t as in s, and no write of it is new. */
  ghost predicate SameBlock(s: State, t: State, b: nat) {
    && OnDisk(t, b) == OnDisk(s, b) && Logical(t, b) == Logical(s, b)
    && (NoDirty(s, b) ==> NoDirty(t, b))
    && (forall v: Data {:trigger Holds(s, b, v)} {:trigger Holds(t, b, v)} :: Holds(s, b, v) ==> Holds(t, b, v))
    && (forall y {:trigger t.bios[y]} :: y in t.bios && t.bios[y].bio.write && t.bios[y].bio.dbn == b ==> y in s.bios && s.bios[y].bio == t.bios[y].bio)
  }

  /** If slot i keeps its DIRTY bit, dbn and SSD data, the block reads the same. */
  lemma SameBlockFrame(s: State, t: State, i: nat, b: nat)
    requires SlotsOff(s, t, i) && t.ssd == s.ssd && OnDisk(t, b) == OnDisk(s, b) && Logical(t, b) == Logical(s, b)
    requires i < |s.slots| ==> t.slots[i].bits.dirty == s.slots[i].bits.dirty && (s.slots[i].bits.dirty ==> t.slots[i].dbn == s.slots[i].dbn)
    requires forall y {:trigger t.bios[y]} :: y in t.bios && t.bios[y].bio.write && t.bios[y].bio.dbn == b ==> y in s.bios && s.bios[y].bio == t.bios[y].bio
    ensures SameBlock(s, t, b)
  {
    forall k | 0 <= k < |s.slots|
      ensures DirtyAt(s, b, k) <==> DirtyAt(t, b, k)
    {
      assert k != i ==> t.slots[k] == s.slots[k];
    }
  }

  /** A request whose record did not change stays in order. */
  lemma KeptFlight(s: State, t: State, y: nat)
    requires y in s.bios && y in t.bios && t.bios[y] == s.bios[y] && FlightOk(s, y, s.bios[y])
    requires SameBlock(s, t, s.bios[y].bio.dbn)
    requires Past(t, t.bios[y].place) ==> Past(s, t.bios[y].place) || NoDirty(s, s.bios[y].bio.dbn)
    ensures FlightOk(t, y, t.bios[y])
  {
    var f := s.bios[y];
    assert Holds(s, f.bio.dbn, f.pre) ==> Holds(t, f.bio.dbn, f.pre);
    assert Holds(s, f.bio.dbn, Patch(f.pre, f.bio)) ==> Holds(t, f.bio.dbn, Patch(f.pre, f.bio));
  }

  /** All requests of a block stay in order when only slot i changed. */
  lemma KeptBlock(c: Config, s: State, t: State, i: nat, b: nat)
    requires Register(c, s) && SameBlock(s, t, b) && t.bios == s.bios && SlotsOff(s, t, i)
    requires i < |s.slots| && s.slots[i].bits.valid && !t.slots[i].bits.valid ==> NoDirty(s, b)
    ensures forall y {:trigger t.bios[y]} :: y in t.bios && t.bios[y].bio.dbn == b ==> FlightOk(t, y, t.bios[y])
    ensures NoWrite(t, b) ==> Holds(t, b, Logical(t, b))
  {
    forall y | y in t.bios && t.bios[y].bio.dbn == b
      ensures FlightOk(t, y, t.bios[y])
    {
      var p := t.bios[y].place;
      assert p.Queued? && p.i < |s.slots| && p.i != i ==> t.slots[p.i] == s.slots[p.i];
      KeptFlight(s, t, y);
    }
    assert NoWrite(t, b) ==> NoWrite(s, b);
  }

  // ----- changes of one slot that leave the requests where they are -----

  /** t is s with another record for slot i: same block, DIRTY bit, holder and entries. */
  ghost predicate SlotOnly(c: Config, s: State, t: State, i: nat) {
    && i < |s.slots| == |t.slots| && t.slots == s.slots[i := t.slots[i]] && Shape(c, t)
    && t.ssd == s.ssd && t.disk == s.disk && t.md == s.md && t.heads == s.heads && t.bios == s.bios
    && t.log == s.log && t.nextId == s.nextId && t.lost == s.lost && t.logical == s.logical
    && SameSlot(s.slots[i], t.slots[i])
  }

  predicate SameSlot(a: Slot, b: Slot) {
    && b.dbn == a.dbn && b.bits.dirty == a.bits.dirty && b.pend == a.pend && Rest(b.work) == Rest(a.work)
    && Holder(b.work) == Holder(a.work) && (b.bits.valid ==> a.bits.valid)
    && (b.work.WriteCache? || b.work.MdDirty?) == (a.work.WriteCache? || a.work.MdDirty?)
  }

  lemma SlotOnlyOff(c: Config, s: State, t: State, i: nat)
    requires Slots(c, s) && SlotOnly(c, s, t, i)
    ensures Off(c, s, t, i, s.slots[i].dbn)
    ensures s.slots[i].bits.valid ==> NoOther(s, s.slots[i].dbn, i)
  {
    assert Gentle(s, t, s.slots[i].dbn) by { TaintedSame(s, t, s.slots[i].dbn); }
    assert SlotOk(c, i, s.slots[i]);
  }

  lemma TaintedSame(s: State, t: State, b: nat)
    requires t.bios == s.bios
    ensures Tainted(s, b) ==> Tainted(t, b)
  {
    if Tainted(s, b) {
      var x :| x in s.bios && s.bios[x].bio.write && s.bios[x].bio.dbn == b && (s.bios[x].place == Uncached || s.bios[x].place == Hand);
      assert t.bios[x] == s.bios[x];
    }
  }

  lemma AloneInBlock(c: Config, s: State, i: nat)
    requires Slots(c, s) && i < c.size && s.slots[i].bits.valid && !s.slots[i].bits.dirty
    ensures NoDirty(s, s.slots[i].dbn)
  {
    forall k | 0 <= k < |s.slots|
      ensures !DirtyAt(s, s.slots[i].dbn, k)
    {
      assert SlotOk(c, k, s.slots[k]);
    }
  }

  lemma SlotOnlyBlock(c: Config, s: State, t: State, i: nat)
    requires Slots(c, s) && Bios(c, s) && History(s) && Register(c, s) && SlotOnly(c, s, t, i)
    requires t.slots[i].bits.dirty ==> t.slots[i].bits.valid
    ensures BlockInOrder(c, t, i, s.slots[i].dbn)
  {
    var b := s.slots[i].dbn;
    SameBlockFrame(s, t, i, b);
    if s.slots[i].bits.valid && !t.slots[i].bits.valid { AloneInBlock(c, s, i); }
    KeptBlock(c, s, t, i, b);
    forall y | y in t.bios && Seat(t.bios[y].place) == Some(i)
      ensures PlaceOk(t, y, t.bios[y].place)
    {
      assert PlaceOk(s, y, s.bios[y].place);
    }
  }

  lemma SlotOnlyChange(c: Config, s: State, t: State, i: nat)
    requires Inv(c, s) && SlotOnly(c, s, t, i)
    requires SlotOk(c, i, t.slots[i]) && ContentOk(c, t, i) && BufferOk(t, i)
    ensures Slots(c, t) && Bios(c, t) && History(t) && Content(c, t) && Register(c, t)
  {
    SlotOnlyOff(c, s, t, i);
    SlotOnlyBlock(c, s, t, i);
    assert JobOk(t, i) && EntriesOk(t, i) by { assert JobOk(s, i) && EntriesOk(s, i); }
    LocalChange(c, s, t, i, s.slots[i].dbn);
  }

  lemma SlotOnlyKeeps(c: Config, s: State, t: State, i: nat)
    requires Inv(c, s) && SlotOnly(c, s, t, i) && SameToMeta(s.slots[i], t.slots[i])
    requires SlotOk(c, i, t.slots[i]) && ContentOk(c, t, i) && BufferOk(t, i)
    ensures Inv(c, t)
  {
    SlotOnlyChange(c, s, t, i);
    MetaFrame(c, s, t, i);
  }

  // ----- changes of the metadata side only -----

  ghost predicate MetaOnly(c: Config, s: State, t: State) {
    && Shape(c, t)
    && t.slots == s.slots && t.ssd == s.ssd && t.disk == s.disk && t.bios == s.bios
    && t.log == s.log && t.nextId == s.nextId && t.lost == s.lost && t.logical == s.logical
  }

  /** The families but Meta do not read the metadata. */
  lemma MetaOnlyKeeps(c: Config, s: State, t: State)
    requires MetaOnly(c, s, t)
    ensures Slots(c, s) ==> Slots(c, t)
    ensures Bios(c, s) ==> Bios(c, t)
    ensures History(s) ==> History(t)
    ensures Register(c, s) ==> Register(c, t)
  {
    if Bios(c, s) { BiosFrame(c, s, t, |s.slots|); }
    if Register(c, s) { MetaOnlyRegister(c, s, t); }
  }

  lemma MetaOnlyRegister(c: Config, s: State, t: State)
    requires MetaOnly(c, s, t) && Register(c, s)
    ensures Register(c, t)
  {
    forall b: nat ensures SameBlock(s, t, b) { SameBlockFrame(s, t, |s.slots|, b); }
    forall y | y in t.bios ensures FlightOk(t, y, t.bios[y]) { KeptFlight(s, t, y); }
    forall b: nat | NoWrite(t, b) ensures Holds(t, b, Logical(t, b)) { assert NoWrite(s, b) && SameBlock(s, t, b); }
    forall k | 0 <= k < |t.slots| ensures BufferOk(t, k) { assert BufferOk(s, k); }
  }

  lemma MetaOnlyContent(c: Config, s: State, t: State)
    requires MetaOnly(c, s, t) && Slots(c, s) && Slots(c, t) && Bios(c, s) && Content(c, s)
    ensures Content(c, t)
  {
    TaintedSame(s, t, 0);
    ContentFrame(c, s, t, c.size, 0);
  }

  // ----- blocks no write is under way for -----

  lemma NoExcuse(c: Config, s: State, i: nat)
    requires Bios(c, s) && i < |s.slots| && NoWrite(s, s.slots[i].dbn)
    ensures !Excused(s, i)
  {
    assert EntriesOk(s, i);
  }

  /** A clean slot's good data is then the block's logical content. */
  lemma QuietClean(c: Config, s: State, i: nat, v: Data)
    requires Slots(c, s) && Bios(c, s) && Register(c, s)
    requires i < c.size && s.slots[i].bits.valid && !s.slots[i].bits.dirty
    requires NoWrite(s, s.slots[i].dbn) && Matches(s, i, v)
    ensures v == Logical(s, s.slots[i].dbn)
  {
    NoExcuse(c, s, i);
    AloneInBlock(c, s, i);
    assert Holds(s, s.slots[i].dbn, Logical(s, s.slots[i].dbn));
  }

  /** A dirty slot's SSD data is then the block's logical content. */
  lemma QuietDirty(c: Config, s: State, i: nat)
    requires Slots(c, s) && Register(c, s)
    requires i < c.size && s.slots[i].bits.dirty && NoWrite(s, s.slots[i].dbn)
    ensures s.ssd[i] == Logical(s, s.slots[i].dbn)
  {
    assert Holds(s, s.slots[i].dbn, Logical(s, s.slots[i].dbn));
    assert DirtyAt(s, s.slots[i].dbn, i);
  }

  /** A read that met no write has no write beside it. */
  lemma AloneRead(s: State, x: nat)
    requires x in s.bios && FlightOk(s, x, s.bios[x]) && s.bios[x].alone && !s.bios[x].bio.write
    ensures NoWrite(s, s.bios[x].bio.dbn) && s.bios[x].pre == Logical(s, s.bios[x].bio.dbn)
  {
  }
}
