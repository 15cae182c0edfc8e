/** The critical sections that take, move or end a request keep the invariant. */
module RequestSteps {
  import opened Types
  import opened Protocol
  import opened Invariant
  import opened Frames

  /** Beside an unfinished write no request of its block is alone; beside a read all stays as it was. */
  lemma OtherFlights(s: State, t: State, x: nat, b: nat)
    requires forall y {:trigger s.bios[y]} {:trigger FlightOk(s, y, s.bios[y])} :: y in s.bios ==> FlightOk(s, y, s.bios[y])
    requires x in s.bios && s.bios[x].bio.dbn == b
    requires s.bios[x].bio.write || SameBlock(s, t, b)
    requires forall y {:trigger t.bios[y]} {:trigger y in s.bios} :: y in t.bios && y != x ==>
               y in s.bios && t.bios[y] == s.bios[y] && (Past(t, t.bios[y].place) ==> Past(s, t.bios[y].place))
    ensures forall y {:trigger t.bios[y]} :: y in t.bios && y != x && t.bios[y].bio.dbn == b ==> FlightOk(t, y, t.bios[y])
  {
    forall y | y in t.bios && y != x && t.bios[y].bio.dbn == b
      ensures FlightOk(t, y, t.bios[y])
    {
      assert FlightOk(s, y, s.bios[y]);
      if !s.bios[x].bio.write { KeptFlight(s, t, y); }
    }
  }

  lemma TaintedByOther(s: State, t: State, x: nat, b: nat)
    requires x in s.bios && !(s.bios[x].bio.write && (s.bios[x].place == Uncached || s.bios[x].place == Hand))
    requires forall y {:trigger s.bios[y]} :: y in s.bios && y != x ==> y in t.bios && t.bios[y] == s.bios[y]
    ensures Tainted(s, b) ==> Tainted(t, b)
  {
    if Tainted(s, b) {
      var y :| y in s.bios && s.bios[y].bio.write && s.bios[y].bio.dbn == b && (s.bios[y].place == Uncached || s.bios[y].place == Hand);
      assert t.bios[y] == s.bios[y];
    }
  }

  // ----- a request enters -----

  lemma NewBioTaint(s: State, bio: Bio)
    requires s.nextId !in s.bios
    ensures Gentle(s, NewBio(s, bio), bio.dbn)
  {
    var t := NewBio(s, bio);
    if Tainted(s, bio.dbn) {
      var x :| x in s.bios && s.bios[x].bio.write && s.bios[x].bio.dbn == bio.dbn && (s.bios[x].place == Uncached || s.bios[x].place == Hand);
      assert t.bios[x].place == s.bios[x].place && t.bios[x].bio == s.bios[x].bio;
    }
  }

  lemma NewBioOff(c: Config, s: State, bio: Bio)
    requires Slots(c, s) && s.nextId !in s.bios
    ensures Off(c, s, NewBio(s, bio), c.size, bio.dbn)
  {
    NewBioTaint(s, bio);
  }

  lemma NewBioHistory(s: State, bio: Bio)
    requires History(s)
    ensures History(NewBio(s, bio))
  {
    var t := NewBio(s, bio);
    forall x: nat | x < t.nextId
      ensures x in t.bios || x in t.lost || x in Acked(t.log)
    {
      assert x < s.nextId || x in t.bios;
    }
  }

  lemma NewBioSeats(c: Config, s: State, bio: Bio)
    requires Bios(c, s) && |s.slots| == c.size && s.nextId !in s.bios
    ensures forall y {:trigger NewBio(s, bio).bios[y]} :: y in NewBio(s, bio).bios ==> Seat(NewBio(s, bio).bios[y].place) != Some(c.size)
  {
    var t := NewBio(s, bio);
    forall y | y in t.bios
      ensures Seat(t.bios[y].place) != Some(c.size)
    {
      if y != s.nextId { assert PlaceOk(s, y, s.bios[y].place); }
    }
  }

  lemma NewBioFlights(c: Config, s: State, bio: Bio)
    requires Slots(c, s) && History(s) && Register(c, s)
    ensures forall y {:trigger NewBio(s, bio).bios[y]} :: y in NewBio(s, bio).bios && NewBio(s, bio).bios[y].bio.dbn == bio.dbn ==>
              FlightOk(NewBio(s, bio), y, NewBio(s, bio).bios[y])
    ensures NoWrite(NewBio(s, bio), bio.dbn) ==> Holds(NewBio(s, bio), bio.dbn, Logical(NewBio(s, bio), bio.dbn))
  {
    var t := NewBio(s, bio);
    var x := s.nextId;
    var b := bio.dbn;
    assert x !in s.bios && t.bios[x].place == Fresh;
    SameContent(s, t, b, Logical(s, b));
    if t.bios[x].alone { assert NoWrite(s, b); }
    forall y | y in t.bios && t.bios[y].bio.dbn == b
      ensures FlightOk(t, y, t.bios[y])
    {
      if y != x && !bio.write {
        SameBlockFrame(s, t, c.size, b);
        KeptFlight(s, t, y);
      }
    }
    if NoWrite(t, b) {
      assert !t.bios[x].bio.write;
      forall y | y in s.bios && s.bios[y].bio.write ensures s.bios[y].bio.dbn != b { assert t.bios[y].bio == s.bios[y].bio; }
    }
  }

  lemma SameContent(s: State, t: State, b: nat, v: Data)
    requires t.slots == s.slots && t.ssd == s.ssd && t.disk == s.disk
    ensures Holds(s, b, v) ==> Holds(t, b, v)
  {
    assert NoDirty(t, b) ==> NoDirty(s, b) by {
      forall k | 0 <= k < |s.slots| ensures DirtyAt(s, b, k) ==> DirtyAt(t, b, k) {}
    }
  }

  lemma NewBioKeeps(c: Config, s: State, bio: Bio)
    requires Inv(c, s)
    ensures Inv(c, NewBio(s, bio))
    ensures InHand(NewBio(s, bio), s.nextId) && NewBio(s, bio).bios[s.nextId].bio == bio
  {
    var t := NewBio(s, bio);
    assert s.nextId !in s.bios;
    NewBioOff(c, s, bio);
    NewBioHistory(s, bio);
    NewBioSeats(c, s, bio);
    NewBioFlights(c, s, bio);
    LocalKeeps(c, s, t, c.size, bio.dbn);
  }

  // ----- a request changes hands -----

  /** A request changes hands while its block reads the same. */
  lemma MovedFlights(c: Config, s: State, t: State, x: nat, i: nat, b: nat)
    requires Register(c, s) && SlotsOff(s, t, i) && SameBlock(s, t, b)
    requires x in s.bios && s.bios[x].bio.dbn == b && x in t.bios && FlightOk(t, x, t.bios[x])
    requires t.bios == s.bios[x := t.bios[x]] && t.bios[x].bio == s.bios[x].bio
    requires i < |s.slots| && s.slots[i].bits.valid ==> t.slots[i].bits.valid
    ensures forall y {:trigger t.bios[y]} :: y in t.bios && t.bios[y].bio.dbn == b ==> FlightOk(t, y, t.bios[y])
    ensures NoWrite(t, b) ==> Holds(t, b, Logical(t, b))
  {
    forall y | y in t.bios && t.bios[y].bio.dbn == b
      ensures FlightOk(t, y, t.bios[y])
    {
      if y != x {
        var p := t.bios[y].place;
        assert p.Queued? && p.i < |s.slots| && p.i != i ==> t.slots[p.i] == s.slots[p.i];
        KeptFlight(s, t, y);
      }
    }
    if NoWrite(t, b) {
      forall y | y in s.bios && s.bios[y].bio.write ensures s.bios[y].bio.dbn != b { assert t.bios[y].bio == s.bios[y].bio; }
    }
  }

  /** Slot i still has the entries and the holder of s, but for x. */
  ghost predicate EntriesKept(s: State, t: State, x: nat, i: nat)
    requires i < |s.slots| == |t.slots|
  {
    && (forall e {:trigger e in t.slots[i].pend} {:trigger e in s.slots[i].pend} :: e in s.slots[i].pend && e.id != x ==> e in t.slots[i].pend)
    && (forall e {:trigger e in Rest(t.slots[i].work)} {:trigger e in Rest(s.slots[i].work)} :: e in Rest(s.slots[i].work) && e.id != x ==> e in Rest(t.slots[i].work))
    && (Holder(s.slots[i].work) == None || Holder(s.slots[i].work) == Holder(t.slots[i].work))
  }

  lemma MovedSeats(c: Config, s: State, t: State, x: nat, i: nat)
    requires Bios(c, s) && |t.slots| == |s.slots|
    requires x in s.bios && x in t.bios && t.bios == s.bios[x := t.bios[x]]
    requires Seat(t.bios[x].place) == Some(i) ==> PlaceOk(t, x, t.bios[x].place)
    requires i < |s.slots| ==> EntriesKept(s, t, x, i)
    ensures forall y {:trigger t.bios[y]} :: y in t.bios && Seat(t.bios[y].place) == Some(i) ==> PlaceOk(t, y, t.bios[y].place)
  {
    forall y | y in t.bios && Seat(t.bios[y].place) == Some(i)
      ensures PlaceOk(t, y, t.bios[y].place)
    {
      if y != x { assert PlaceOk(s, y, s.bios[y].place); }
    }
  }

  lemma MovedHistory(s: State, t: State, x: nat)
    requires History(s) && x in s.bios && x in t.bios && t.bios == s.bios[x := t.bios[x]]
    requires t.log == s.log && t.lost == s.lost && t.nextId == s.nextId
    ensures History(t)
  {
    assert t.bios.Keys == s.bios.Keys;
  }

  /** One request changes hands, slot i changing with it. */
  lemma MoveKeeps(c: Config, s: State, t: State, x: nat, i: nat, b: nat)
    requires Inv(c, s) && Off(c, s, t, i, b) && SlotInOrder(c, t, i) && SameBlock(s, t, b)
    requires i < c.size && t.slots[i].bits.valid ==> NoOther(s, b, i)
    requires i < c.size && s.slots[i].bits.valid ==> t.slots[i].bits.valid
    requires x in s.bios && s.bios[x].bio.dbn == b && x in t.bios && FlightOk(t, x, t.bios[x])
    requires t.bios == s.bios[x := t.bios[x]] && t.bios[x].bio == s.bios[x].bio
    requires t.log == s.log && t.lost == s.lost && t.nextId == s.nextId
    requires t.heads == s.heads && t.md == s.md
    requires i < c.size ==> SameToMeta(s.slots[i], t.slots[i]) && EntriesKept(s, t, x, i)
    requires Seat(t.bios[x].place) == Some(i) ==> PlaceOk(t, x, t.bios[x].place)
    ensures Inv(c, t)
  {
    MovedFlights(c, s, t, x, i, b);
    MovedSeats(c, s, t, x, i);
    MovedHistory(s, t, x);
    LocalKeeps(c, s, t, i, b);
  }

  // ----- a request is queued for a busy slot -----

  predicate CanQueue(c: Config, s: State, x: nat, i: nat) {
    Idx(c, s, i) && InHand(s, x) && s.slots[i].bits.valid && !s.slots[i].work.NoWork? && s.slots[i].dbn == s.bios[x].bio.dbn
  }

  lemma EnqueueMatches(c: Config, s: State, x: nat, i: nat, inval: bool, v: Data)
    requires CanQueue(c, s, x, i) && FlightOk(s, x, s.bios[x])
    ensures Matches(s, i, v) ==> Matches(Enqueue(s, x, i, inval), i, v)
  {
    var t := Enqueue(s, x, i, inval);
    var b := s.slots[i].dbn;
    assert Entry(x, inval) in t.slots[i].pend;
    if Tainted(s, b) {
      if s.bios[x].bio.write && s.bios[x].place == Hand {
        assert DirtyAt(s, b, i) ==> !s.bios[x].alone;
        assert AwaitedByWrite(t, i);
      } else {
        TaintedByOther(s, t, x, b);
      }
    } else if AwaitedByWrite(s, i) {
      var e :| e in s.slots[i].pend && e.id in s.bios && s.bios[e.id].bio.write && (s.slots[i].bits.dirty ==> !s.bios[e.id].alone);
      assert e in t.slots[i].pend && e.id in t.bios && t.bios[e.id].bio.write;
    }
  }

  lemma EnqueueSlot(c: Config, s: State, x: nat, i: nat, inval: bool)
    requires Slots(c, s) && Bios(c, s) && Content(c, s) && Register(c, s) && CanQueue(c, s, x, i)
    requires Shape(c, Enqueue(s, x, i, inval))
    ensures SlotInOrder(c, Enqueue(s, x, i, inval), i)
  {
    var t := Enqueue(s, x, i, inval);
    assert SlotOk(c, i, s.slots[i]) && JobOk(s, i) && EntriesOk(s, i) && ContentOk(c, s, i) && BufferOk(s, i);
    assert FlightOk(s, x, s.bios[x]);
    forall v: Data ensures Matches(s, i, v) ==> Matches(t, i, v) { EnqueueMatches(c, s, x, i, inval, v); }
  }

  lemma EnqueueOff(c: Config, s: State, x: nat, i: nat, inval: bool)
    requires Slots(c, s) && CanQueue(c, s, x, i)
    ensures Off(c, s, Enqueue(s, x, i, inval), i, s.slots[i].dbn)
    ensures NoOther(s, s.slots[i].dbn, i)
    ensures SameBlock(s, Enqueue(s, x, i, inval), s.slots[i].dbn)
  {
    SameBlockFrame(s, Enqueue(s, x, i, inval), i, s.slots[i].dbn);
  }

  lemma EnqueueFlight(c: Config, s: State, x: nat, i: nat, inval: bool)
    requires Register(c, s) && CanQueue(c, s, x, i)
    ensures FlightOk(Enqueue(s, x, i, inval), x, Enqueue(s, x, i, inval).bios[x])
    ensures EntriesKept(s, Enqueue(s, x, i, inval), x, i)
    ensures PlaceOk(Enqueue(s, x, i, inval), x, Queued(i))
  {
    var t := Enqueue(s, x, i, inval);
    assert FlightOk(s, x, s.bios[x]);
    assert Entry(x, inval) in t.slots[i].pend;
    var b := s.bios[x].bio.dbn;
    forall v: Data ensures Holds(s, b, v) ==> Holds(t, b, v) { SameDirty(s, t, i, b, v); }
  }

  lemma SameDirty(s: State, t: State, i: nat, b: nat, v: Data)
    requires SlotsOff(s, t, i) && t.ssd == s.ssd && t.disk == s.disk
    requires i < |s.slots| ==> t.slots[i].bits.dirty == s.slots[i].bits.dirty && t.slots[i].dbn == s.slots[i].dbn
    ensures Holds(s, b, v) ==> Holds(t, b, v)
  {
    forall k | 0 <= k < |s.slots|
      ensures DirtyAt(s, b, k) <==> DirtyAt(t, b, k)
    {
      assert k != i ==> t.slots[k] == s.slots[k];
    }
  }

  lemma EnqueueKeeps(c: Config, s: State, x: nat, i: nat, inval: bool)
    requires Inv(c, s) && CanQueue(c, s, x, i)
    ensures Inv(c, Enqueue(s, x, i, inval))
  {
    var t := Enqueue(s, x, i, inval);
    var b := s.slots[i].dbn;
    EnqueueOff(c, s, x, i, inval);
    EnqueueSlot(c, s, x, i, inval);
    EnqueueFlight(c, s, x, i, inval);
    MoveKeeps(c, s, t, x, i, b);
  }

  // ----- a request goes to the disk uncached -----

  /** Only the record of x changed, and x sits at no slot. */
  ghost predicate HandOnly(c: Config, s: State, t: State, x: nat) {
    && Shape(c, s) && Shape(c, t) && x in s.bios && x in t.bios
    && t.slots == s.slots && t.ssd == s.ssd && t.disk == s.disk && t.logical == s.logical
    && t.bios == s.bios[x := t.bios[x]] && t.bios[x].bio == s.bios[x].bio
    && Seat(s.bios[x].place) == None && Seat(t.bios[x].place) == None
    && (s.bios[x].place == Uncached || s.bios[x].place == Hand ==> t.bios[x].place == Uncached || t.bios[x].place == Hand)
  }

  lemma HandTaint(c: Config, s: State, t: State, x: nat)
    requires HandOnly(c, s, t, x)
    ensures Gentle(s, t, s.bios[x].bio.dbn)
  {
    var b := s.bios[x].bio.dbn;
    if Tainted(s, b) {
      var y :| y in s.bios && s.bios[y].bio.write && s.bios[y].bio.dbn == b && (s.bios[y].place == Uncached || s.bios[y].place == Hand);
      assert t.bios[y].bio.write && (t.bios[y].place == Uncached || t.bios[y].place == Hand);
    }
  }

  lemma HandOff(c: Config, s: State, t: State, x: nat)
    requires HandOnly(c, s, t, x)
    ensures Off(c, s, t, c.size, s.bios[x].bio.dbn)
    ensures SameBlock(s, t, s.bios[x].bio.dbn)
  {
    HandTaint(c, s, t, x);
    SameBlockFrame(s, t, c.size, s.bios[x].bio.dbn);
  }

  lemma NoValidNoDirty(c: Config, s: State, b: nat)
    requires Slots(c, s) && NoValid(s, b)
    ensures NoDirty(s, b)
  {
    forall k | 0 <= k < |s.slots| ensures !DirtyAt(s, b, k) { assert SlotOk(c, k, s.slots[k]); }
  }

  lemma HandContent(s: State, t: State, b: nat, v: Data)
    requires t.slots == s.slots && t.ssd == s.ssd && t.disk == s.disk
    ensures Holds(s, b, v) <==> Holds(t, b, v)
    ensures NoDirty(s, b) <==> NoDirty(t, b)
  {
    SameContent(s, t, b, v);
    SameContent(t, s, b, v);
    forall k | 0 <= k < |s.slots| ensures DirtyAt(s, b, k) <==> DirtyAt(t, b, k) {}
  }

  lemma StartUncachedFlight(c: Config, s: State, x: nat)
    requires Slots(c, s) && Register(c, s) && InHand(s, x)
    requires s.bios[x].place == Fresh ==> NoValid(s, s.bios[x].bio.dbn)
    ensures FlightOk(StartUncached(s, x), x, StartUncached(s, x).bios[x])
  {
    var t := StartUncached(s, x);
    var f := s.bios[x];
    assert FlightOk(s, x, f);
    if s.bios[x].place == Fresh { NoValidNoDirty(c, s, f.bio.dbn); }
    HandContent(s, t, f.bio.dbn, f.pre);
    HandContent(s, t, f.bio.dbn, Patch(f.pre, f.bio));
  }

  lemma StartUncachedKeeps(c: Config, s: State, x: nat)
    requires Inv(c, s) && InHand(s, x)
    requires s.bios[x].place == Fresh ==> NoValid(s, s.bios[x].bio.dbn)
    ensures Inv(c, StartUncached(s, x))
  {
    var t := StartUncached(s, x);
    HandOff(c, s, t, x);
    StartUncachedFlight(c, s, x);
    MoveKeeps(c, s, t, x, c.size, s.bios[x].bio.dbn);
  }

  lemma TakeBackFlight(c: Config, s: State, x: nat)
    requires Register(c, s) && x in s.bios && s.bios[x].place == Uncached
    ensures FlightOk(Moved(s, x, Hand), x, Moved(s, x, Hand).bios[x])
  {
    var t := Moved(s, x, Hand);
    var f := s.bios[x];
    assert FlightOk(s, x, f);
    HandContent(s, t, f.bio.dbn, f.pre);
    HandContent(s, t, f.bio.dbn, Patch(f.pre, f.bio));
  }

  lemma TakeBackKeeps(c: Config, s: State, x: nat)
    requires Inv(c, s) && x in s.bios && s.bios[x].place == Uncached
    ensures Inv(c, Moved(s, x, Hand))
  {
    var t := Moved(s, x, Hand);
    HandOff(c, s, t, x);
    TakeBackFlight(c, s, x);
    MoveKeeps(c, s, t, x, c.size, s.bios[x].bio.dbn);
  }

  lemma FxUncachedReadFlight(c: Config, s: State, x: nat)
    requires Register(c, s) && x in s.bios && s.bios[x].place == Uncached && !s.bios[x].bio.write
    ensures FlightOk(FxUncached(s, x), x, FxUncached(s, x).bios[x])
  {
    var t := FxUncached(s, x);
    var f := s.bios[x];
    assert FlightOk(s, x, f);
    HandContent(s, t, f.bio.dbn, f.pre);
    if f.alone {
      AloneRead(s, x);
      assert Holds(s, f.bio.dbn, Logical(s, f.bio.dbn));
    }
  }

  lemma FxUncachedReadKeeps(c: Config, s: State, x: nat)
    requires Inv(c, s) && x in s.bios && s.bios[x].place == Uncached && !s.bios[x].bio.write
    ensures Inv(c, FxUncached(s, x))
  {
    var t := FxUncached(s, x);
    HandOff(c, s, t, x);
    FxUncachedReadFlight(c, s, x);
    MoveKeeps(c, s, t, x, c.size, s.bios[x].bio.dbn);
  }

  // ----- a request gets a slot -----

  predicate CanHit(c: Config, s: State, x: nat, i: nat) {
    Idx(c, s, i) && x in s.bios && s.bios[x].place == Fresh && s.bios[x].bio.full
    && s.slots[i].bits.valid && s.slots[i].work.NoWork? && s.slots[i].bits == s.slots[i].bits.Young()
    && s.slots[i].dbn == s.bios[x].bio.dbn && (s.bios[x].bio.write ==> c.mode != WriteAround)
  }

  lemma SeatFlight(s: State, t: State, x: nat, i: nat)
    requires x in s.bios && s.bios[x].place == Fresh && FlightOk(s, x, s.bios[x])
    requires t.bios == s.bios[x := s.bios[x].(place := OnSlot(i))] && t.logical == s.logical
    requires SameBlock(s, t, s.bios[x].bio.dbn)
    ensures FlightOk(t, x, t.bios[x])
  {
  }

  lemma HitMatches(s: State, t: State, x: nat, i: nat, v: Data)
    requires i < |s.slots| == |t.slots| && x in s.bios && s.bios[x].place == Fresh
    requires t.bios == s.bios[x := s.bios[x].(place := OnSlot(i))] && t.disk == s.disk
    requires t.slots[i].dbn == s.slots[i].dbn && t.slots[i].pend == s.slots[i].pend && t.slots[i].bits.dirty == s.slots[i].bits.dirty
    ensures Matches(s, i, v) ==> Matches(t, i, v)
  {
    TaintedByOther(s, t, x, s.slots[i].dbn);
    if AwaitedByWrite(s, i) {
      var e :| e in s.slots[i].pend && e.id in s.bios && s.bios[e.id].bio.write && (s.slots[i].bits.dirty ==> !s.bios[e.id].alone);
      assert e.id in t.bios && t.bios[e.id].bio.write;
    }
  }

  lemma StartOff(c: Config, s: State, t: State, x: nat, i: nat)
    requires Slots(c, s) && Shape(c, t) && i < c.size && x in s.bios && Seat(s.bios[x].place) == None
    requires t.slots == s.slots[i := t.slots[i]] && t.ssd == s.ssd && t.disk == s.disk && t.logical == s.logical
    requires t.bios == s.bios[x := s.bios[x].(place := OnSlot(i))]
    requires t.slots[i].dbn == s.bios[x].bio.dbn && NoOther(s, s.bios[x].bio.dbn, i)
    requires t.slots[i].bits.dirty == s.slots[i].bits.dirty && (s.slots[i].bits.dirty ==> t.slots[i].dbn == s.slots[i].dbn)
    ensures Off(c, s, t, i, s.bios[x].bio.dbn)
    ensures SameBlock(s, t, s.bios[x].bio.dbn)
  {
    SameBlockFrame(s, t, i, s.bios[x].bio.dbn);
  }

  lemma StartReadHitSlot(c: Config, s: State, x: nat, i: nat)
    requires Slots(c, s) && Bios(c, s) && Content(c, s) && CanHit(c, s, x, i) && !s.bios[x].bio.write
    ensures Shape(c, StartReadHit(s, x, i)) && SlotInOrder(c, StartReadHit(s, x, i), i)
  {
    var t := StartReadHit(s, x, i);
    assert SlotOk(c, i, s.slots[i]) && EntriesOk(s, i) && ContentOk(c, s, i);
    HitMatches(s, t, x, i, s.ssd[i]);
  }

  lemma StartReadHitKeeps(c: Config, s: State, x: nat, i: nat)
    requires Inv(c, s) && CanHit(c, s, x, i) && !s.bios[x].bio.write
    ensures Inv(c, StartReadHit(s, x, i))
  {
    var t := StartReadHit(s, x, i);
    StartReadHitSlot(c, s, x, i);
    SeatKeeps(c, s, t, x, i);
  }

  lemma StartWriteHitSlot(c: Config, s: State, x: nat, i: nat)
    requires Slots(c, s) && Bios(c, s) && CanHit(c, s, x, i) && s.bios[x].bio.write
    ensures Shape(c, StartWriteHit(s, x, i)) && SlotInOrder(c, StartWriteHit(s, x, i), i)
  {
    assert SlotOk(c, i, s.slots[i]) && EntriesOk(s, i);
  }

  lemma StartWriteHitKeeps(c: Config, s: State, x: nat, i: nat)
    requires Inv(c, s) && CanHit(c, s, x, i) && s.bios[x].bio.write
    ensures Inv(c, StartWriteHit(s, x, i))
  {
    var t := StartWriteHit(s, x, i);
    StartWriteHitSlot(c, s, x, i);
    SeatKeeps(c, s, t, x, i);
  }

  predicate CanClaim(c: Config, s: State, x: nat, v: nat) {
    Idx(c, s, v) && x in s.bios && s.bios[x].place == Fresh && s.bios[x].bio.full
    && (s.bios[x].bio.write ==> c.mode != WriteAround) && Claimable(c, s, s.bios[x].bio.dbn, v)
  }

  lemma ClaimSlot(c: Config, s: State, x: nat, v: nat)
    requires Slots(c, s) && Bios(c, s) && CanClaim(c, s, x, v)
    ensures Shape(c, Claim(s, x, v)) && SlotInOrder(c, Claim(s, x, v), v)
    ensures s.slots[v].work.NoWork? && s.slots[v].pend == []
  {
    assert SlotOk(c, v, s.slots[v]) && EntriesOk(s, v);
  }

  lemma ClaimKeeps(c: Config, s: State, x: nat, v: nat)
    requires Inv(c, s) && CanClaim(c, s, x, v) && NoValid(s, s.bios[x].bio.dbn)
    ensures Inv(c, Claim(s, x, v))
  {
    var t := Claim(s, x, v);
    ClaimSlot(c, s, x, v);
    SeatKeeps(c, s, t, x, v);
  }

  /** A fresh request takes an idle slot. */
  lemma SeatKeeps(c: Config, s: State, t: State, x: nat, i: nat)
    requires Inv(c, s) && Shape(c, t) && i < c.size && x in s.bios && s.bios[x].place == Fresh
    requires t.slots == s.slots[i := t.slots[i]] && t.ssd == s.ssd && t.disk == s.disk && t.logical == s.logical
    requires t.bios == s.bios[x := s.bios[x].(place := OnSlot(i))]
    requires t.log == s.log && t.lost == s.lost && t.nextId == s.nextId && t.heads == s.heads && t.md == s.md
    requires s.slots[i].work.NoWork? && t.slots[i].pend == s.slots[i].pend && Holder(t.slots[i].work) == Some(x) && !InMd(t.slots[i].work)
    requires t.slots[i].dbn == s.bios[x].bio.dbn && NoOther(s, s.bios[x].bio.dbn, i)
    requires t.slots[i].bits.valid
    requires t.slots[i].bits.dirty == s.slots[i].bits.dirty && (s.slots[i].bits.dirty ==> t.slots[i].dbn == s.slots[i].dbn)
    requires SlotInOrder(c, t, i)
    ensures Inv(c, t)
  {
    StartOff(c, s, t, x, i);
    assert FlightOk(t, x, t.bios[x]) by { assert FlightOk(s, x, s.bios[x]); SeatFlight(s, t, x, i); }
    MoveKeeps(c, s, t, x, i, s.bios[x].bio.dbn);
  }
}
