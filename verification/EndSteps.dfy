/** Ending requests and draining the pending entries of a slot keep the invariant. */
module EndSteps {
  import opened Types
  import opened Protocol
  import opened Invariant
  import opened Frames
  import opened RequestSteps

  lemma EndHistory(s: State, x: nat, result: Data)
    requires History(s) && x in s.bios
    ensures History(EndBio(s, x, result))
  {
    var t := EndBio(s, x, result);
    assert Acked(t.log) == Acked(s.log) + {x} by {
      assert t.log[|s.log|].id == x;
      forall a | a in s.log ensures a in t.log {}
    }
  }

  /** Nobody's view of a block changes by the end of a read; the end of a write settles the block. */
  lemma EndFlights(c: Config, s: State, t: State, x: nat, i: nat, b: nat)
    requires Register(c, s) && x in s.bios && s.bios[x].bio.dbn == b && t.bios == s.bios - {x}
    requires SlotsOff(s, t, i) && (i < |s.slots| && s.slots[i].bits.valid ==> t.slots[i].bits.valid)
    requires s.bios[x].bio.write || SameBlock(s, t, b)
    requires s.bios[x].bio.write ==> NoWrite(t, b) ==> Holds(t, b, Logical(t, b))
    ensures forall y {:trigger t.bios[y]} :: y in t.bios && t.bios[y].bio.dbn == b ==> FlightOk(t, y, t.bios[y])
    ensures NoWrite(t, b) ==> Holds(t, b, Logical(t, b))
  {
    assert forall y {:trigger t.bios[y]} :: y in t.bios && y != x ==> (Past(t, t.bios[y].place) ==> Past(s, t.bios[y].place)) by {
      forall y | y in t.bios ensures Past(t, t.bios[y].place) ==> Past(s, t.bios[y].place)
      {
        var p := t.bios[y].place;
        assert p.Queued? && p.i < |s.slots| && p.i != i ==> t.slots[p.i] == s.slots[p.i];
      }
    }
    OtherFlights(s, t, x, b);
    if NoWrite(t, b) && !s.bios[x].bio.write {
      forall y | y in s.bios && s.bios[y].bio.write ensures s.bios[y].bio.dbn != b { assert y in t.bios && t.bios[y] == s.bios[y]; }
      assert Holds(s, b, Logical(s, b));
    }
  }

  // ----- a request in hand ends -----

  predicate Finished(s: State, x: nat) {
    x in s.bios && s.bios[x].place == Hand && s.bios[x].ran
  }

  lemma EndInHandOff(c: Config, s: State, x: nat)
    requires Slots(c, s) && Finished(s, x) && NoValid(s, s.bios[x].bio.dbn)
    ensures Off(c, s, EndInHand(s, x), c.size, s.bios[x].bio.dbn)
  {
    assert NoOther(s, s.bios[x].bio.dbn, c.size);
  }

  lemma EndInHandBlock(c: Config, s: State, x: nat)
    requires Slots(c, s) && Register(c, s) && Finished(s, x) && NoValid(s, s.bios[x].bio.dbn)
    ensures s.bios[x].bio.write || SameBlock(s, EndInHand(s, x), s.bios[x].bio.dbn)
    ensures s.bios[x].bio.write ==> Holds(EndInHand(s, x), s.bios[x].bio.dbn, Logical(EndInHand(s, x), s.bios[x].bio.dbn))
    ensures AckOk(EndInHand(s, x).log[|s.log|])
  {
    var t := EndInHand(s, x);
    var b := s.bios[x].bio.dbn;
    NoValidNoDirty(c, s, b);
    assert FlightOk(s, x, s.bios[x]);
    assert NoDirty(t, b) by { forall k | 0 <= k < |t.slots| ensures !DirtyAt(t, b, k) { assert !DirtyAt(s, b, k); } }
    if !s.bios[x].bio.write { SameBlockFrame(s, t, c.size, b); }
  }

  lemma EndSeats(c: Config, s: State, t: State, x: nat)
    requires Bios(c, s) && x in s.bios && t.bios == s.bios - {x} && |s.slots| == |t.slots| == c.size
    ensures forall y {:trigger t.bios[y]} :: y in t.bios ==> Seat(t.bios[y].place) != Some(c.size)
  {
    forall y | y in t.bios ensures Seat(t.bios[y].place) != Some(c.size) { assert PlaceOk(s, y, s.bios[y].place); }
  }

  lemma EndInHandKeeps(c: Config, s: State, x: nat)
    requires Inv(c, s) && Finished(s, x) && NoValid(s, s.bios[x].bio.dbn)
    ensures Inv(c, EndInHand(s, x))
  {
    var t := EndInHand(s, x);
    EndInHandOff(c, s, x);
    EndInHandBlock(c, s, x);
    EndFlights(c, s, t, x, c.size, s.bios[x].bio.dbn);
    EndSeats(c, s, t, x);
    EndHistory(s, x, if s.bios[x].bio.write then OnDisk(s, s.bios[x].bio.dbn) else s.bios[x].got);
    LocalKeeps(c, s, t, c.size, s.bios[x].bio.dbn);
  }

  // ----- the request of slot i's job ends, and the job with it -----

  /** The I/O of slot i's job is complete; `result` is what its request ends with. */
  ghost predicate JobDone(c: Config, s: State, i: nat, x: nat, result: Data)
    requires Shape(c, s) && i < c.size
  {
    Holder(s.slots[i].work) == Some(x) &&
    match s.slots[i].work
    case ReadCache(_, got) => got == Some(result)
    case ReadFill(_, data, stored) => stored && result == data
    case WriteCache(_, stored, mirrored) =>
      stored && if c.mode == WriteBack then s.slots[i].bits.dirty && result == s.ssd[i]
                else mirrored && result == OnDisk(s, s.slots[i].dbn)
    case MdDirty(_) => result == s.ssd[i]
    case _ => false
  }

  /** A slot is DIRTY after its job if it was, or if the job was a metadata update to that end. */
  function EndJob(s: State, i: nat, x: nat, result: Data): State
    requires i < |s.slots|
  {
    var sl := s.slots[i];
    var t := WithSlot(s, i, sl.(bits := sl.bits.(dirty := sl.bits.dirty || sl.work.MdDirty?)));
    Release(EndBio(t, x, result), i)
  }

  lemma EndJobMatches(c: Config, s: State, i: nat, x: nat, result: Data, v: Data)
    requires Slots(c, s) && Bios(c, s) && i < c.size && JobDone(c, s, i, x, result) && !s.slots[i].work.MdDirty?
    ensures Matches(s, i, v) ==> Matches(EndJob(s, i, x, result), i, v)
  {
    assert JobOk(s, i) && EntriesOk(s, i);
    if Tainted(s, s.slots[i].dbn) {
      EndJobTainted(c, s, i, x, result);
    } else if AwaitedByWrite(s, i) {
      EndJobAwaited(c, s, i, x, result);
    }
  }

  lemma EndJobTainted(c: Config, s: State, i: nat, x: nat, result: Data)
    requires Shape(c, s) && i < c.size && Tainted(s, s.slots[i].dbn) && JobDone(c, s, i, x, result) && JobOk(s, i)
    ensures Tainted(EndJob(s, i, x, result), s.slots[i].dbn)
  {
    var t, b := EndJob(s, i, x, result), s.slots[i].dbn;
    var y :| y in s.bios && s.bios[y].bio.write && s.bios[y].bio.dbn == b && (s.bios[y].place == Uncached || s.bios[y].place == Hand);
    assert t.bios[y] == s.bios[y];
  }

  lemma EndJobAwaited(c: Config, s: State, i: nat, x: nat, result: Data)
    requires Slots(c, s) && i < c.size && AwaitedByWrite(s, i) && JobDone(c, s, i, x, result) && JobOk(s, i) && EntriesOk(s, i) && !s.slots[i].work.MdDirty?
    ensures AwaitedByWrite(EndJob(s, i, x, result), i)
  {
    var t := EndJob(s, i, x, result);
    var e :| e in s.slots[i].pend && e.id in s.bios && s.bios[e.id].bio.write && (s.slots[i].bits.dirty ==> !s.bios[e.id].alone);
    assert e in t.slots[i].pend && e.id in t.bios && t.bios[e.id] == s.bios[e.id];
  }

  lemma EndJobSlot(c: Config, s: State, i: nat, x: nat, result: Data)
    requires Slots(c, s) && Bios(c, s) && Content(c, s) && i < c.size && JobDone(c, s, i, x, result)
    ensures Shape(c, EndJob(s, i, x, result)) && SlotInOrder(c, EndJob(s, i, x, result), i)
  {
    var t := EndJob(s, i, x, result);
    assert SlotOk(c, i, s.slots[i]) && JobOk(s, i) && EntriesOk(s, i) && ContentOk(c, s, i);
    if !s.slots[i].work.MdDirty? {
      EndJobMatches(c, s, i, x, result, s.ssd[i]);
      EndJobMatches(c, s, i, x, result, BioOf(s, x).payload);
    }
  }

  lemma EndJobBios(c: Config, s: State, i: nat, x: nat, result: Data)
    requires Bios(c, s) && Shape(c, s) && i < c.size && JobDone(c, s, i, x, result)
    ensures x in s.bios && s.bios[x].bio.dbn == s.slots[i].dbn && EndJob(s, i, x, result).bios == s.bios - {x}
    ensures FlightsOff(s, EndJob(s, i, x, result), s.slots[i].dbn)
    ensures SeatsOff(s, EndJob(s, i, x, result), i)
  {
    assert JobOk(s, i);
    assert EndJob(s, i, x, result).bios == s.bios - {x};
  }

  lemma EndJobRest(s: State, i: nat, x: nat, result: Data)
    requires i < |s.slots| && x in s.bios && s.bios[x].bio.dbn == s.slots[i].dbn
    ensures LogicalOff(s, EndJob(s, i, x, result), s.slots[i].dbn)
    ensures SlotsOff(s, EndJob(s, i, x, result), i)
    ensures EndJob(s, i, x, result).ssd == s.ssd && EndJob(s, i, x, result).disk == s.disk
  {
  }

  lemma EndJobOff(c: Config, s: State, t: State, i: nat)
    requires Slots(c, s) && Shape(c, t) && i < c.size && s.slots[i].bits.valid && t.slots[i].dbn == s.slots[i].dbn
    requires SlotsOff(s, t, i) && t.ssd == s.ssd && t.disk == s.disk
    requires FlightsOff(s, t, s.slots[i].dbn) && SeatsOff(s, t, i) && LogicalOff(s, t, s.slots[i].dbn)
    ensures Off(c, s, t, i, s.slots[i].dbn) && NoOther(s, s.slots[i].dbn, i)
  {
  }

  /** The ending write, alone, finds its own data where the block is kept. */
  lemma EndJobResult(c: Config, s: State, i: nat, x: nat, result: Data)
    requires Slots(c, s) && Bios(c, s) && Content(c, s) && Register(c, s) && i < c.size && JobDone(c, s, i, x, result)
    ensures x in s.bios && s.bios[x].alone ==> result == if s.bios[x].bio.write then Patch(s.bios[x].pre, s.bios[x].bio) else s.bios[x].pre
  {
    assert JobOk(s, i) && ContentOk(c, s, i) && BufferOk(s, i) && EntriesOk(s, i);
    assert FlightOk(s, x, s.bios[x]);
    if s.bios[x].alone && s.bios[x].bio.write { AloneWriterUnexcused(s, i, x); }
  }

  lemma AloneWriterUnexcused(s: State, i: nat, x: nat)
    requires i < |s.slots| && x in s.bios && s.bios[x].alone && s.bios[x].place == OnSlot(i) && s.bios[x].bio.dbn == s.slots[i].dbn
    requires FlightOk(s, x, s.bios[x]) && EntriesOk(s, i)
    ensures !Excused(s, i)
  {
  }

  lemma EndJobHolds(c: Config, s: State, i: nat, x: nat, result: Data)
    requires Slots(c, s) && i < c.size && JobDone(c, s, i, x, result) && x in s.bios && s.bios[x].bio.write && s.bios[x].bio.dbn == s.slots[i].dbn
    requires s.slots[i].work.WriteCache? || s.slots[i].work.MdDirty?
    ensures Holds(EndJob(s, i, x, result), s.slots[i].dbn, Logical(EndJob(s, i, x, result), s.slots[i].dbn))
  {
    var t := EndJob(s, i, x, result);
    var b := s.slots[i].dbn;
    assert SlotOk(c, i, s.slots[i]);
    assert Logical(t, b) == result;
    assert DirtyAt(t, b, i) <==> s.slots[i].bits.dirty || s.slots[i].work.MdDirty?;
    forall k | 0 <= k < |t.slots| && k != i ensures !DirtyAt(t, b, k) { assert t.slots[k] == s.slots[k] && SlotOk(c, k, s.slots[k]); }
  }

  lemma EndJobSeats(c: Config, s: State, i: nat, x: nat, result: Data)
    requires Slots(c, s) && Bios(c, s) && i < c.size && JobDone(c, s, i, x, result)
    ensures var t := EndJob(s, i, x, result);
            forall y {:trigger t.bios[y]} :: y in t.bios && Seat(t.bios[y].place) == Some(i) ==> PlaceOk(t, y, t.bios[y].place)
  {
    var t := EndJob(s, i, x, result);
    forall y | y in t.bios && Seat(t.bios[y].place) == Some(i)
      ensures PlaceOk(t, y, t.bios[y].place)
    {
      assert PlaceOk(s, y, s.bios[y].place);
    }
  }

  lemma EndJobFlights(c: Config, s: State, i: nat, x: nat, result: Data)
    requires Slots(c, s) && Bios(c, s) && Register(c, s) && i < c.size && JobDone(c, s, i, x, result)
    ensures var t := EndJob(s, i, x, result);
            forall y {:trigger t.bios[y]} :: y in t.bios && t.bios[y].bio.dbn == s.slots[i].dbn ==> FlightOk(t, y, t.bios[y])
    ensures var t := EndJob(s, i, x, result);
            NoWrite(t, s.slots[i].dbn) ==> Holds(t, s.slots[i].dbn, Logical(t, s.slots[i].dbn))
  {
    var t := EndJob(s, i, x, result);
    assert JobOk(s, i) && SlotOk(c, i, s.slots[i]);
    if s.bios[x].bio.write { EndJobHolds(c, s, i, x, result); } else { SameBlockFrame(s, t, i, s.slots[i].dbn); }
    EndFlights(c, s, t, x, i, s.slots[i].dbn);
  }

  lemma EndJobHistory(c: Config, s: State, i: nat, x: nat, result: Data)
    requires Slots(c, s) && Bios(c, s) && History(s) && Content(c, s) && Register(c, s) && i < c.size && JobDone(c, s, i, x, result)
    ensures var t := EndJob(s, i, x, result);
            History(t) && forall k {:trigger t.log[k]} :: 0 <= k < |t.log| ==> AckOk(t.log[k])
  {
    assert JobOk(s, i);
    EndJobResult(c, s, i, x, result);
    EndHistory(s, x, result);
  }

  lemma EndJobChange(c: Config, s: State, i: nat, x: nat, result: Data)
    requires Inv(c, s) && i < c.size && JobDone(c, s, i, x, result)
    ensures var t := EndJob(s, i, x, result);
            Slots(c, t) && Bios(c, t) && History(t) && Content(c, t) && Register(c, t)
  {
    var t := EndJob(s, i, x, result);
    assert SlotOk(c, i, s.slots[i]);
    EndJobSlot(c, s, i, x, result);
    EndJobBios(c, s, i, x, result);
    EndJobRest(s, i, x, result);
    EndJobOff(c, s, t, i);
    EndJobFlights(c, s, i, x, result);
    EndJobSeats(c, s, i, x, result);
    EndJobHistory(c, s, i, x, result);
    LocalChange(c, s, t, i, s.slots[i].dbn);
  }

  lemma EndJobKeeps(c: Config, s: State, i: nat, x: nat, result: Data)
    requires Inv(c, s) && i < c.size && JobDone(c, s, i, x, result) && !s.slots[i].work.MdDirty?
    ensures Inv(c, Release(EndBio(s, x, result), i))
  {
    var t := EndJob(s, i, x, result);
    assert s.slots[i := s.slots[i]] == s.slots;
    assert t == Release(EndBio(s, x, result), i);
    EndJobChange(c, s, i, x, result);
    EndJobMeta(c, s, i, x, result);
  }

  lemma EndJobMeta(c: Config, s: State, i: nat, x: nat, result: Data)
    requires Slots(c, s) && Meta(c, s) && i < c.size && JobDone(c, s, i, x, result) && !s.slots[i].work.MdDirty?
    requires Slots(c, EndJob(s, i, x, result))
    ensures Meta(c, EndJob(s, i, x, result))
  {
    MetaFrame(c, s, EndJob(s, i, x, result), i);
  }

  // ----- the drain of slot i -----

  lemma DetachNextKeeps(c: Config, s: State, i: nat)
    requires Inv(c, s) && i < c.size && s.slots[i].work.Drain? && s.slots[i].work.rest != []
    ensures Inv(c, DetachNext(s, i))
    ensures var x := s.slots[i].work.rest[0].id;
            x in s.bios && DetachNext(s, i).bios == s.bios[x := s.bios[x].(place := Hand, ran := false)] && s.bios[x].bio.dbn == s.slots[i].dbn
  {
    var t := DetachNext(s, i);
    var x := s.slots[i].work.rest[0].id;
    DetachNextSlot(c, s, i);
    DetachNextOff(c, s, i);
    DetachNextFlight(c, s, i);
    MoveKeeps(c, s, t, x, i, s.slots[i].dbn);
  }

  lemma DetachNextSlot(c: Config, s: State, i: nat)
    requires Slots(c, s) && Bios(c, s) && i < c.size && s.slots[i].work.Drain? && s.slots[i].work.rest != []
    ensures Shape(c, DetachNext(s, i)) && SlotInOrder(c, DetachNext(s, i), i)
    ensures var x := s.slots[i].work.rest[0].id;
            x in s.bios && s.bios[x].place == Detached(i) && s.bios[x].bio.dbn == s.slots[i].dbn
    ensures EntriesKept(s, DetachNext(s, i), s.slots[i].work.rest[0].id, i)
  {
    var t := DetachNext(s, i);
    var rest := s.slots[i].work.rest;
    assert SlotOk(c, i, s.slots[i]) && EntriesOk(s, i) && rest[0].id in s.bios;
    assert rest == [rest[0]] + rest[1..];
    assert forall e {:trigger e in rest} :: e in rest && e != rest[0] ==> e in rest[1..];
  }

  lemma DetachNextOff(c: Config, s: State, i: nat)
    requires Slots(c, s) && i < c.size && s.slots[i].work.Drain? && s.slots[i].work.rest != []
    requires var x := s.slots[i].work.rest[0].id; x in s.bios && s.bios[x].place == Detached(i) && s.bios[x].bio.dbn == s.slots[i].dbn
    ensures Off(c, s, DetachNext(s, i), i, s.slots[i].dbn) && SameBlock(s, DetachNext(s, i), s.slots[i].dbn)
  {
    var t := DetachNext(s, i);
    var x := s.slots[i].work.rest[0].id;
    assert SlotOk(c, i, s.slots[i]);
    assert Gentle(s, t, s.slots[i].dbn) by { TaintedByOther(s, t, x, s.slots[i].dbn); }
    SameBlockFrame(s, t, i, s.slots[i].dbn);
  }

  lemma DetachNextFlight(c: Config, s: State, i: nat)
    requires Register(c, s) && i < |s.slots| && s.slots[i].work.Drain? && s.slots[i].work.rest != []
    requires var x := s.slots[i].work.rest[0].id; x in s.bios && s.bios[x].place == Detached(i)
    ensures var t := DetachNext(s, i); var x := s.slots[i].work.rest[0].id; x in t.bios && FlightOk(t, x, t.bios[x])
  {
    var t := DetachNext(s, i);
    var x := s.slots[i].work.rest[0].id;
    var b := s.bios[x].bio.dbn;
    assert FlightOk(s, x, s.bios[x]);
    SameDirty(s, t, i, b, s.bios[x].pre);
    SameDirty(s, t, i, b, Patch(s.bios[x].pre, s.bios[x].bio));
    forall k | 0 <= k < |s.slots| ensures DirtyAt(s, b, k) <==> DirtyAt(t, b, k) { assert k != i ==> t.slots[k] == s.slots[k]; }
  }

  // ----- the pending entries of slot i are detached -----

  lemma DequeueSlot(c: Config, s: State, i: nat)
    requires Slots(c, s) && Bios(c, s) && i < c.size && s.slots[i].work.Limbo?
    ensures Shape(c, Dequeue(s, i)) && SlotInOrder(c, Dequeue(s, i), i)
  {
    var t := Dequeue(s, i);
    assert SlotOk(c, i, s.slots[i]) && EntriesOk(s, i);
    forall k | 0 <= k < |s.slots[i].pend|
      ensures s.slots[i].pend[k].id in t.bios && t.bios[s.slots[i].pend[k].id].place == Detached(i)
      ensures t.bios[s.slots[i].pend[k].id].bio.dbn == s.slots[i].dbn
    {
      assert s.slots[i].pend[k] in s.slots[i].pend;
    }
  }

  /** Exactly the requests queued for slot i are moved. */
  lemma DequeueMoves(c: Config, s: State, i: nat, y: nat)
    requires Bios(c, s) && i < |s.slots| && y in s.bios
    ensures y in Dequeue(s, i).bios
    ensures Dequeue(s, i).bios[y] == if s.bios[y].place == Queued(i) then s.bios[y].(place := Detached(i)) else s.bios[y]
    ensures s.bios[y].place == Queued(i) ==> s.bios[y].bio.dbn == s.slots[i].dbn
  {
    assert EntriesOk(s, i) && PlaceOk(s, y, s.bios[y].place);
    var moved := set e | e in s.slots[i].pend :: e.id;
    if y in moved {
      var e :| e in s.slots[i].pend && e.id == y;
    } else {
      assert Entry(y, true) !in s.slots[i].pend && Entry(y, false) !in s.slots[i].pend;
    }
  }

  lemma DequeueOff(c: Config, s: State, i: nat)
    requires Slots(c, s) && Bios(c, s) && i < c.size && s.slots[i].work.Limbo?
    ensures Off(c, s, Dequeue(s, i), i, s.slots[i].dbn)
  {
    var t := Dequeue(s, i);
    var b := s.slots[i].dbn;
    assert SlotOk(c, i, s.slots[i]);
    forall y | y in s.bios
      ensures y in t.bios && t.bios[y] == if s.bios[y].place == Queued(i) then s.bios[y].(place := Detached(i)) else s.bios[y]
      ensures s.bios[y].place == Queued(i) ==> s.bios[y].bio.dbn == b
    {
      DequeueMoves(c, s, i, y);
    }
    DequeueTaint(c, s, i);
  }

  lemma DequeueTaint(c: Config, s: State, i: nat)
    requires Bios(c, s) && i < |s.slots|
    ensures Gentle(s, Dequeue(s, i), s.slots[i].dbn)
  {
    var b := s.slots[i].dbn;
    if Tainted(s, b) {
      var y :| y in s.bios && s.bios[y].bio.write && s.bios[y].bio.dbn == b && (s.bios[y].place == Uncached || s.bios[y].place == Hand);
      DequeueMoves(c, s, i, y);
      assert Dequeue(s, i).bios[y] == s.bios[y];
    }
  }

  lemma DequeueSeats(c: Config, s: State, i: nat)
    requires Bios(c, s) && i < |s.slots| && s.slots[i].work.Limbo?
    ensures var t := Dequeue(s, i);
            forall y {:trigger t.bios[y]} :: y in t.bios && Seat(t.bios[y].place) == Some(i) ==> PlaceOk(t, y, t.bios[y].place)
  {
    var t := Dequeue(s, i);
    forall y | y in t.bios && Seat(t.bios[y].place) == Some(i)
      ensures PlaceOk(t, y, t.bios[y].place)
    {
      DequeueMoves(c, s, i, y);
      assert PlaceOk(s, y, s.bios[y].place);
    }
  }

  lemma DequeueFlights(c: Config, s: State, i: nat)
    requires Slots(c, s) && Bios(c, s) && Register(c, s) && i < c.size && s.slots[i].work.Limbo?
    ensures var t := Dequeue(s, i);
            forall y {:trigger t.bios[y]} :: y in t.bios && t.bios[y].bio.dbn == s.slots[i].dbn ==> FlightOk(t, y, t.bios[y])
  {
    var t := Dequeue(s, i);
    var b := s.slots[i].dbn;
    assert SlotOk(c, i, s.slots[i]);
    SameContentAt(s, t, i, b);
    forall y | y in t.bios && t.bios[y].bio.dbn == b
      ensures FlightOk(t, y, t.bios[y])
    {
      DequeueMoves(c, s, i, y);
      assert FlightOk(s, y, s.bios[y]);
      assert Past(t, t.bios[y].place) ==> Past(s, s.bios[y].place) by {
        var p := s.bios[y].place;
        assert p.Queued? && p.i < |s.slots| && p.i != i ==> t.slots[p.i] == s.slots[p.i];
      }
      forall z | z in t.bios ensures z in s.bios && t.bios[z].bio == s.bios[z].bio { DequeueMoves(c, s, i, z); }
    }
  }

  lemma SameContentAt(s: State, t: State, i: nat, b: nat)
    requires SlotsOff(s, t, i) && t.ssd == s.ssd && t.disk == s.disk
    requires i < |s.slots| ==> t.slots[i].bits.dirty == s.slots[i].bits.dirty && t.slots[i].dbn == s.slots[i].dbn
    ensures NoDirty(s, b) ==> NoDirty(t, b)
    ensures forall v: Data {:trigger Holds(s, b, v)} {:trigger Holds(t, b, v)} :: Holds(s, b, v) ==> Holds(t, b, v)
  {
    forall k | 0 <= k < |s.slots|
      ensures DirtyAt(s, b, k) <==> DirtyAt(t, b, k)
    {
      assert k != i ==> t.slots[k] == s.slots[k];
    }
    forall v: Data ensures Holds(s, b, v) ==> Holds(t, b, v) { SameDirty(s, t, i, b, v); }
  }

  lemma DequeueHolds(c: Config, s: State, i: nat)
    requires Bios(c, s) && Register(c, s) && i < |s.slots|
    ensures var t := Dequeue(s, i); NoWrite(t, s.slots[i].dbn) ==> Holds(t, s.slots[i].dbn, Logical(t, s.slots[i].dbn))
  {
    var t := Dequeue(s, i);
    var b := s.slots[i].dbn;
    SameContentAt(s, t, i, b);
    if NoWrite(t, b) {
      forall y | y in s.bios && s.bios[y].bio.write ensures s.bios[y].bio.dbn != b { DequeueMoves(c, s, i, y); assert t.bios[y].bio.write; }
      assert Holds(s, b, Logical(s, b));
    }
  }

  lemma DequeueKeeps(c: Config, s: State, i: nat)
    requires Inv(c, s) && i < c.size && s.slots[i].work.Limbo?
    ensures Inv(c, Dequeue(s, i))
  {
    var t := Dequeue(s, i);
    DequeueSlot(c, s, i);
    DequeueOff(c, s, i);
    DequeueSeats(c, s, i);
    DequeueFlights(c, s, i);
    DequeueHolds(c, s, i);
    assert t.bios.Keys == s.bios.Keys;
    assert SlotOk(c, i, s.slots[i]);
    LocalKeeps(c, s, t, i, s.slots[i].dbn);
  }
}
