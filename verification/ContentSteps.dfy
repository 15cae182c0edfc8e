/** Writes to the SSD and the disk, drains and request ends keep the invariant. */
module ContentSteps {
  import opened Types
  import opened Protocol
  import opened Invariant
  import opened Frames
  import opened RequestSteps

  // ----- data reaches a device on behalf of the job of slot i -----

  /** Slot i's job progressed and its block's data changed on the SSD or the disk. */
  ghost predicate DataOnly(c: Config, s: State, t: State, i: nat) {
    && Shape(c, s) && Shape(c, t) && i < c.size && s.slots[i].bits.valid
    && t.slots == s.slots[i := t.slots[i]] && SameSlot(s.slots[i], t.slots[i]) && t.slots[i].bits == s.slots[i].bits
    && SsdOff(s, t, i) && DiskOff(s, t, s.slots[i].dbn)
    && t.md == s.md && t.heads == s.heads && t.bios == s.bios
    && t.log == s.log && t.nextId == s.nextId && t.lost == s.lost && t.logical == s.logical
  }

  lemma DataOff(c: Config, s: State, t: State, i: nat)
    requires Slots(c, s) && DataOnly(c, s, t, i)
    ensures Off(c, s, t, i, s.slots[i].dbn) && NoOther(s, s.slots[i].dbn, i)
  {
  }

  lemma DataSeats(c: Config, s: State, t: State, i: nat)
    requires Bios(c, s) && DataOnly(c, s, t, i)
    ensures forall y {:trigger t.bios[y]} :: y in t.bios && Seat(t.bios[y].place) == Some(i) ==> PlaceOk(t, y, t.bios[y].place)
    ensures JobOk(t, i) && EntriesOk(t, i)
  {
    forall y | y in t.bios && Seat(t.bios[y].place) == Some(i)
      ensures PlaceOk(t, y, t.bios[y].place)
    {
      assert PlaceOk(s, y, s.bios[y].place);
    }
    assert JobOk(s, i) && EntriesOk(s, i);
  }

  lemma DataMeta(s: State, t: State, i: nat)
    requires i < |s.slots| == |t.slots| && SameSlot(s.slots[i], t.slots[i]) && t.slots[i].bits == s.slots[i].bits
    requires InMd(s.slots[i].work) == InMd(t.slots[i].work) == false
    ensures SameToMeta(s.slots[i], t.slots[i])
  {
  }

  lemma DataKeeps(c: Config, s: State, t: State, i: nat)
    requires Inv(c, s) && DataOnly(c, s, t, i) && !InMd(s.slots[i].work) && !InMd(t.slots[i].work)
    requires SlotOk(c, i, t.slots[i]) && ContentOk(c, t, i) && BufferOk(t, i)
    requires forall y {:trigger t.bios[y]} :: y in t.bios && t.bios[y].bio.dbn == s.slots[i].dbn ==> FlightOk(t, y, t.bios[y])
    requires NoWrite(t, s.slots[i].dbn) ==> Holds(t, s.slots[i].dbn, Logical(t, s.slots[i].dbn))
    ensures Inv(c, t)
  {
    DataOff(c, s, t, i);
    DataSeats(c, s, t, i);
    HistorySame(s, t);
    DataMeta(s, t, i);
    LocalKeeps(c, s, t, i, s.slots[i].dbn);
  }

  /** While the slot's own write is unfinished, the block's other requests are not alone. */
  lemma WriterFlights(s: State, t: State, i: nat, x: nat, b: nat)
    requires x in s.bios && s.bios[x].bio.write && s.bios[x].bio.dbn == b && s.bios[x].place == OnSlot(i)
    requires forall y {:trigger FlightOk(s, y, s.bios[y])} :: y in s.bios ==> FlightOk(s, y, s.bios[y])
    requires t.bios == s.bios && t.logical == s.logical
    requires s.bios[x].alone ==> Holds(t, b, s.bios[x].pre) || Holds(t, b, Patch(s.bios[x].pre, s.bios[x].bio))
    ensures forall y {:trigger t.bios[y]} :: y in t.bios && t.bios[y].bio.dbn == b ==> FlightOk(t, y, t.bios[y])
    ensures !NoWrite(t, b)
  {
    forall y | y in t.bios && t.bios[y].bio.dbn == b
      ensures FlightOk(t, y, t.bios[y])
    {
      assert FlightOk(s, y, s.bios[y]);
    }
    assert t.bios[x].bio.write;
  }

  lemma FxReadFillFlights(c: Config, s: State, i: nat)
    requires Slots(c, s) && Register(c, s) && i < c.size && s.slots[i].work.ReadFill?
    ensures forall y {:trigger s.bios[y]} :: y in s.bios && s.bios[y].bio.dbn == s.slots[i].dbn ==> FlightOk(FxReadFill(s, i), y, s.bios[y])
    ensures NoWrite(FxReadFill(s, i), s.slots[i].dbn) ==> Holds(FxReadFill(s, i), s.slots[i].dbn, Logical(FxReadFill(s, i), s.slots[i].dbn))
  {
    var t := FxReadFill(s, i);
    var b := s.slots[i].dbn;
    assert SlotOk(c, i, s.slots[i]);
    assert SameBlock(s, t, b) by {
      forall k | 0 <= k < |s.slots| ensures DirtyAt(s, b, k) <==> DirtyAt(t, b, k) { assert k != i ==> t.slots[k] == s.slots[k]; }
      assert NoDirty(s, b) <==> NoDirty(t, b);
    }
    KeptBlock(c, s, t, i, b);
  }

  lemma FxReadFillKeeps(c: Config, s: State, i: nat)
    requires Inv(c, s) && i < c.size && s.slots[i].work.ReadFill?
    ensures Inv(c, FxReadFill(s, i))
  {
    var t := FxReadFill(s, i);
    assert SlotOk(c, i, s.slots[i]) && SlotOk(c, i, t.slots[i]) && BufferOk(s, i);
    assert ContentOk(c, t, i) by {
      assert ContentOk(c, s, i);
      TaintedSame(s, t, s.slots[i].dbn);
    }
    FxReadFillFlights(c, s, i);
    DataKeeps(c, s, t, i);
  }

  /** The block holds its old content or the new one, whether or not the slot was DIRTY. */
  lemma FxWriteCacheHolds(c: Config, s: State, i: nat)
    requires Slots(c, s) && Bios(c, s) && Register(c, s) && i < c.size && s.slots[i].work.WriteCache?
    ensures s.slots[i].work.id in s.bios
    ensures var f := s.bios[s.slots[i].work.id];
            f.alone ==> Holds(FxWriteCache(s, i), s.slots[i].dbn, f.pre)
                        || Holds(FxWriteCache(s, i), s.slots[i].dbn, Patch(f.pre, f.bio))
  {
    var t := FxWriteCache(s, i);
    var x := s.slots[i].work.id;
    var b := s.slots[i].dbn;
    assert SlotOk(c, i, s.slots[i]) && JobOk(s, i) && FlightOk(s, x, s.bios[x]);
    forall k | 0 <= k < |s.slots|
      ensures DirtyAt(s, b, k) <==> DirtyAt(t, b, k)
      ensures DirtyAt(s, b, k) ==> k == i
    {
      assert SlotOk(c, k, s.slots[k]);
    }
    if s.slots[i].bits.dirty {
      assert DirtyAt(t, b, i);
      assert Holds(t, b, s.bios[x].bio.payload);
    } else {
      assert NoDirty(s, b) && NoDirty(t, b);
    }
  }

  lemma FxMirrorHolds(c: Config, s: State, i: nat)
    requires Slots(c, s) && Bios(c, s) && i < c.size && s.slots[i].work.WriteCache? && c.mode != WriteBack
    ensures s.slots[i].work.id in s.bios
    ensures Holds(FxMirror(s, i), s.slots[i].dbn, Patch(s.bios[s.slots[i].work.id].pre, s.bios[s.slots[i].work.id].bio))
  {
    var t := FxMirror(s, i);
    assert JobOk(s, i);
    forall k | 0 <= k < |s.slots| ensures !t.slots[k].bits.dirty { assert SlotOk(c, k, s.slots[k]); }
  }

  lemma FxWriteCacheKeeps(c: Config, s: State, i: nat)
    requires Inv(c, s) && i < c.size && s.slots[i].work.WriteCache?
    ensures Inv(c, FxWriteCache(s, i))
  {
    var t := FxWriteCache(s, i);
    assert SlotOk(c, i, s.slots[i]) && SlotOk(c, i, t.slots[i]) && JobOk(s, i);
    assert ContentOk(c, t, i) by {
      assert ContentOk(c, s, i);
      TaintedSame(s, t, s.slots[i].dbn);
    }
    FxWriteCacheHolds(c, s, i);
    WriterFlights(s, t, i, s.slots[i].work.id, s.slots[i].dbn);
    DataKeeps(c, s, t, i);
  }

  lemma FxMirrorKeeps(c: Config, s: State, i: nat)
    requires Inv(c, s) && i < c.size && s.slots[i].work.WriteCache? && c.mode != WriteBack
    ensures Inv(c, FxMirror(s, i))
  {
    var t := FxMirror(s, i);
    assert SlotOk(c, i, s.slots[i]) && SlotOk(c, i, t.slots[i]) && JobOk(s, i);
    assert ContentOk(c, t, i) by { assert ContentOk(c, s, i); }
    FxMirrorHolds(c, s, i);
    WriterFlights(s, t, i, s.slots[i].work.id, s.slots[i].dbn);
    DataKeeps(c, s, t, i);
  }

  lemma FxCopyWriteHolds(c: Config, s: State, i: nat, v: Data)
    requires Slots(c, s) && i < c.size && s.slots[i].work.WriteDisk? && s.slots[i].work.copy.Some?
    ensures !NoDirty(s, s.slots[i].dbn)
    ensures Holds(s, s.slots[i].dbn, v) ==> Holds(FxCopyWrite(s, i), s.slots[i].dbn, v)
  {
    var t := FxCopyWrite(s, i);
    var b := s.slots[i].dbn;
    assert SlotOk(c, i, s.slots[i]) && DirtyAt(s, b, i) && DirtyAt(t, b, i);
    forall k | 0 <= k < |s.slots| ensures DirtyAt(s, b, k) <==> DirtyAt(t, b, k) { assert k != i ==> t.slots[k] == s.slots[k]; }
  }

  lemma FxCopyWriteFlights(c: Config, s: State, i: nat)
    requires Slots(c, s) && Register(c, s) && i < c.size && s.slots[i].work.WriteDisk? && s.slots[i].work.copy.Some?
    ensures forall y {:trigger s.bios[y]} :: y in s.bios && s.bios[y].bio.dbn == s.slots[i].dbn ==> FlightOk(FxCopyWrite(s, i), y, s.bios[y])
    ensures NoWrite(FxCopyWrite(s, i), s.slots[i].dbn) ==> Holds(FxCopyWrite(s, i), s.slots[i].dbn, Logical(FxCopyWrite(s, i), s.slots[i].dbn))
  {
    var t := FxCopyWrite(s, i);
    var b := s.slots[i].dbn;
    forall v: Data ensures Holds(s, b, v) ==> Holds(t, b, v) { FxCopyWriteHolds(c, s, i, v); }
    FxCopyWriteHolds(c, s, i, Logical(s, b));
    forall y | y in s.bios && s.bios[y].bio.dbn == b
      ensures FlightOk(t, y, s.bios[y])
    {
      var f := s.bios[y];
      assert FlightOk(s, y, f);
      assert f.place.Queued? && f.place.i < |s.slots| ==> t.slots[f.place.i].bits == s.slots[f.place.i].bits;
      FxCopyWriteHolds(c, s, i, f.pre);
      FxCopyWriteHolds(c, s, i, Patch(f.pre, f.bio));
    }
    assert NoWrite(t, b) ==> NoWrite(s, b);
  }

  lemma FxCopyWriteKeeps(c: Config, s: State, i: nat)
    requires Inv(c, s) && i < c.size && s.slots[i].work.WriteDisk? && s.slots[i].work.copy.Some?
    ensures Inv(c, FxCopyWrite(s, i))
  {
    var t := FxCopyWrite(s, i);
    assert SlotOk(c, i, s.slots[i]) && SlotOk(c, i, t.slots[i]) && ContentOk(c, s, i);
    FxCopyWriteFlights(c, s, i);
    DataKeeps(c, s, t, i);
  }

  // ----- an uncached write reaches the disk -----

  /** i is the VALID slot of b, or out of range if there is none. */
  ghost predicate SlotFor(c: Config, s: State, b: nat, i: nat) {
    if i < |s.slots| then s.slots[i].bits.valid && s.slots[i].dbn == b else i == c.size && NoValid(s, b)
  }

  ghost function FindSlot(c: Config, s: State, b: nat): (i: nat)
    requires |s.slots| == c.size
    ensures SlotFor(c, s, b, i)
  {
    if k :| 0 <= k < |s.slots| && s.slots[k].bits.valid && s.slots[k].dbn == b then k else c.size
  }

  lemma FxUncachedWriteOff(c: Config, s: State, x: nat, i: nat)
    requires Slots(c, s) && x in s.bios && s.bios[x].place == Uncached && s.bios[x].bio.write && SlotFor(c, s, s.bios[x].bio.dbn, i)
    ensures Off(c, s, FxUncached(s, x), i, s.bios[x].bio.dbn) && NoOther(s, s.bios[x].bio.dbn, i)
  {
  }

  lemma FxUncachedWriteSlot(c: Config, s: State, x: nat, i: nat)
    requires Slots(c, s) && Bios(c, s) && Content(c, s) && Register(c, s)
    requires x in s.bios && s.bios[x].place == Uncached && s.bios[x].bio.write && SlotFor(c, s, s.bios[x].bio.dbn, i)
    ensures Shape(c, FxUncached(s, x)) && SlotInOrder(c, FxUncached(s, x), i)
  {
    var t := FxUncached(s, x);
    if i < c.size {
      assert SlotOk(c, i, s.slots[i]) && JobOk(s, i) && EntriesOk(s, i) && ContentOk(c, s, i) && BufferOk(s, i);
      assert t.bios[x].bio.write && t.bios[x].place == Uncached;
      assert Tainted(t, t.slots[i].dbn);
    }
  }

  lemma FxUncachedWriteFlights(c: Config, s: State, x: nat)
    requires Register(c, s) && x in s.bios && s.bios[x].place == Uncached && s.bios[x].bio.write
    ensures forall y {:trigger FxUncached(s, x).bios[y]} :: y in FxUncached(s, x).bios && FxUncached(s, x).bios[y].bio.dbn == s.bios[x].bio.dbn ==>
              FlightOk(FxUncached(s, x), y, FxUncached(s, x).bios[y])
    ensures !NoWrite(FxUncached(s, x), s.bios[x].bio.dbn)
  {
    var t := FxUncached(s, x);
    var f := s.bios[x];
    var b := f.bio.dbn;
    assert t.bios[x].bio.write;
    assert FlightOk(s, x, f);
    forall k | 0 <= k < |s.slots| ensures DirtyAt(s, b, k) <==> DirtyAt(t, b, k) {}
    assert f.alone ==> NoDirty(s, b) && NoDirty(t, b);
    PatchTwice(f.pre, f.bio);
    forall y | y in t.bios && t.bios[y].bio.dbn == b
      ensures FlightOk(t, y, t.bios[y])
    {
      assert FlightOk(s, y, s.bios[y]);
    }
  }

  lemma FxUncachedSeats(c: Config, s: State, x: nat)
    requires Bios(c, s) && x in s.bios && s.bios[x].place == Uncached
    ensures forall y {:trigger FxUncached(s, x).bios[y]} :: y in FxUncached(s, x).bios ==> PlaceOk(FxUncached(s, x), y, FxUncached(s, x).bios[y].place)
  {
    forall y | y in s.bios ensures PlaceOk(FxUncached(s, x), y, s.bios[y].place) { assert PlaceOk(s, y, s.bios[y].place); }
  }

  lemma FxUncachedKeeps(c: Config, s: State, x: nat)
    requires Inv(c, s) && x in s.bios && s.bios[x].place == Uncached
    ensures Inv(c, FxUncached(s, x))
  {
    if s.bios[x].bio.write {
      var i := FindSlot(c, s, s.bios[x].bio.dbn);
      FxUncachedWriteOff(c, s, x, i);
      FxUncachedWriteSlot(c, s, x, i);
      FxUncachedWriteFlights(c, s, x);
      FxUncachedSeats(c, s, x);
      MovedHistory(s, FxUncached(s, x), x);
      LocalKeeps(c, s, FxUncached(s, x), i, s.bios[x].bio.dbn);
    } else {
      FxUncachedReadKeeps(c, s, x);
    }
  }
}
