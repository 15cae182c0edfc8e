/** The slots of the RAM prefetch cache, shared by any number of readers, fetches and resets.
    Each step is one section the code runs under a slot's lock, or one access outside it. */
module PfdCache {
  import opened Types
  import opened PfdGenerator
  import opened PfdForesight

  datatype Status = Empty | Prepare | Valid

  /** Where a piece of a buffer came from: the block fetched, and by which fetch. */
  datatype Tag = Tag(dbn: nat, fetch: nat)

  /** pfd_cache_meta and its buffer; `permits` is the value of prepare_lock. */
  datatype Slot = Slot(status: Status, dbn: nat, holds: int, permits: nat, buffer: seq<Tag>)

  /** Where a reader is in pfd_cache_handle_bio once it holds the slot. */
  datatype Phase = Held | Waiting | Woken | Ready | Copying(got: seq<Tag>) | Served(copy: seq<Tag>)

  /** A request for the first `want` pieces of a block. */
  datatype Reader = Reader(dbn: nat, want: nat, phase: Phase)

  /** A fetch: the slot claimed, the request sent, the result noted but waiters not yet woken. */
  datatype Stage = Claimed | InFlight | Posting

  datatype Fetch = Fetch(dbn: nat, stage: Stage)

  datatype Cache = Cache(size: nat, slots: seq<Slot>, readers: map<nat, Reader>, fetches: map<nat, Fetch>, started: nat)

  predicate Shaped(c: Cache) { c.size > 0 && |c.slots| == BLOCK_COUNT }

  function Home(c: Cache, dbn: nat): (i: nat)
    requires Shaped(c)
    ensures i < |c.slots|
  {
    SlotOf(dbn, c.size)
  }

  predicate Holding(r: Reader) { !r.phase.Served? }
  predicate Active(f: Fetch) { !f.stage.Posting? }

  /** The readers that hold slot i. */
  function Holders(size: nat, readers: map<nat, Reader>, i: nat): set<nat>
    requires size > 0
  {
    set r | r in readers && Holding(readers[r]) && SlotOf(readers[r].dbn, size) == i
  }

  // ----- steps -----

  datatype Step =
    | Lookup(r: nat, dbn: nat, want: nat) | Test(r: nat) | Down(r: nat) | Interrupted(r: nat) | Up(r: nat)
    | Decide(r: nat) | Copy(r: nat) | Finish(r: nat)
    | Claim(dbn: nat) | Dispatch(f: nat, ok: bool) | Deliver(f: nat, k: nat) | Complete(f: nat, ok: bool) | Post(f: nat)
    | ResetSlot(i: nat)

  /** Whether a prefetch may take the slot. */
  predicate Claimable(s: Slot, dbn: nat) {
    !(s.status != Empty && s.dbn == dbn) && s.status != Prepare && s.holds == 0
  }

  predicate Enabled(c: Cache, step: Step)
    requires Shaped(c)
  {
    match step
    case Lookup(r, dbn, want) => r !in c.readers && var s := c.slots[Home(c, dbn)]; s.status != Empty && s.dbn == dbn && want <= |s.buffer|
    case Test(r) => r in c.readers && c.readers[r].phase == Held
    case Down(r) => r in c.readers && c.readers[r].phase == Waiting && c.slots[Home(c, c.readers[r].dbn)].permits > 0
    case Interrupted(r) => r in c.readers && c.readers[r].phase == Waiting
    case Up(r) => r in c.readers && c.readers[r].phase == Woken
    case Decide(r) => r in c.readers && c.readers[r].phase == Ready
    case Copy(r) =>
      && r in c.readers && c.readers[r].phase.Copying?
      && |c.readers[r].phase.got| < c.readers[r].want <= |c.slots[Home(c, c.readers[r].dbn)].buffer|
    case Finish(r) =>
      && r in c.readers && c.readers[r].phase.Copying?
      && |c.readers[r].phase.got| == c.readers[r].want
    case Claim(dbn) => Claimable(c.slots[Home(c, dbn)], dbn)
    case Dispatch(f, ok) => f in c.fetches && c.fetches[f].stage == Claimed
    case Deliver(f, k) => f in c.fetches && c.fetches[f].stage == InFlight && k < |c.slots[Home(c, c.fetches[f].dbn)].buffer|
    case Complete(f, ok) =>
      && f in c.fetches && c.fetches[f].stage == InFlight
      && (ok ==> Whole(c.slots[Home(c, c.fetches[f].dbn)].buffer, Tag(c.fetches[f].dbn, f)))
    case Post(f) => f in c.fetches && c.fetches[f].stage == Posting
    case ResetSlot(i) => i < |c.slots| && c.slots[i].status != Prepare && c.slots[i].holds == 0
  }

  /** All of it from one fetch. */
  predicate Whole(b: seq<Tag>, t: Tag) { forall k :: 0 <= k < |b| ==> b[k] == t }

  function Put(c: Cache, i: nat, s: Slot): Cache
    requires i < |c.slots|
  {
    c.(slots := c.slots[i := s])
  }

  function Move(c: Cache, r: nat, phase: Phase): Cache
    requires r in c.readers
  {
    c.(readers := c.readers[r := c.readers[r].(phase := phase)])
  }

  function Apply(c: Cache, step: Step): Cache
    requires Shaped(c) && Enabled(c, step)
  {
    match step
    case Lookup(r, dbn, want) =>
      var s := c.slots[Home(c, dbn)];
      Put(c, Home(c, dbn), s.(holds := s.holds + 1)).(readers := c.readers[r := Reader(dbn, want, Held)])
    case Test(r) =>
      Move(c, r, if c.slots[Home(c, c.readers[r].dbn)].status == Prepare then Waiting else Ready)
    case Down(r) =>
      var i := Home(c, c.readers[r].dbn);
      Move(Put(c, i, c.slots[i].(permits := c.slots[i].permits - 1)), r, Woken)
    case Interrupted(r) => Move(c, r, Woken)
    case Up(r) =>
      var i := Home(c, c.readers[r].dbn);
      Move(Put(c, i, c.slots[i].(permits := c.slots[i].permits + 1)), r, Ready)
    case Decide(r) =>
      var i := Home(c, c.readers[r].dbn);
      if c.slots[i].status == Valid then Move(c, r, Copying([]))
      else Put(c, i, c.slots[i].(holds := c.slots[i].holds - 1)).(readers := c.readers - {r})
    case Copy(r) =>
      var got := c.readers[r].phase.got;
      Move(c, r, Copying(got + [c.slots[Home(c, c.readers[r].dbn)].buffer[|got|]]))
    case Finish(r) =>
      var i := Home(c, c.readers[r].dbn);
      Move(Put(c, i, c.slots[i].(holds := c.slots[i].holds - 1)), r, Served(c.readers[r].phase.got))
    case Claim(dbn) =>
      var i := Home(c, dbn);
      Put(c, i, c.slots[i].(status := Prepare, dbn := dbn, permits := 0))
        .(fetches := c.fetches[c.started := Fetch(dbn, Claimed)], started := c.started + 1)
    case Dispatch(f, ok) =>
      var i := Home(c, c.fetches[f].dbn);
      if ok then c.(fetches := c.fetches[f := c.fetches[f].(stage := InFlight)])
      else Put(c, i, c.slots[i].(status := Empty, permits := c.slots[i].permits + 1)).(fetches := c.fetches - {f})
    case Deliver(f, k) =>
      var i := Home(c, c.fetches[f].dbn);
      Put(c, i, c.slots[i].(buffer := c.slots[i].buffer[k := Tag(c.fetches[f].dbn, f)]))
    case Complete(f, ok) =>
      var i := Home(c, c.fetches[f].dbn);
      Put(c, i, c.slots[i].(status := if ok then Valid else Empty)).(fetches := c.fetches[f := c.fetches[f].(stage := Posting)])
    case Post(f) =>
      var i := Home(c, c.fetches[f].dbn);
      Put(c, i, c.slots[i].(permits := c.slots[i].permits + 1)).(fetches := c.fetches - {f})
    case ResetSlot(i) => Put(c, i, c.slots[i].(status := Empty))
  }

  // ----- what every step keeps -----

  /** A fetch under way owns its slot, prepared for its block. */
  predicate FetchOwns(c: Cache, f: nat)
    requires Shaped(c) && f in c.fetches
  {
    f < c.started && (Active(c.fetches[f]) ==>
      var s := c.slots[Home(c, c.fetches[f].dbn)]; s.status == Prepare && s.dbn == c.fetches[f].dbn)
  }

  predicate SameHome(c: Cache, f: nat, g: nat)
    requires Shaped(c) && f in c.fetches && g in c.fetches
  {
    Home(c, c.fetches[f].dbn) == Home(c, c.fetches[g].dbn)
  }

  /** A prepared slot has a fetch under way; a valid one holds one whole fetch of its block. */
  ghost predicate SlotFilled(c: Cache, i: nat)
    requires Shaped(c) && i < |c.slots|
  {
    && (c.slots[i].status == Prepare ==> exists f :: FetchAt(c, i, f) && Active(c.fetches[f]))
    && (c.slots[i].status == Valid ==> exists g {:trigger Tag(c.slots[i].dbn, g)} :: Whole(c.slots[i].buffer, Tag(c.slots[i].dbn, g)))
    && (c.slots[i].status != Empty ==> Home(c, c.slots[i].dbn) == i)
    && c.slots[i].holds == |Holders(c.size, c.readers, i)|
  }

  /** A reader's slot stays its block's until it lets go; what it copies is the slot's buffer,
      and what it was served came whole from one fetch of its block. */
  ghost predicate ReaderSafe(c: Cache, r: nat)
    requires Shaped(c) && r in c.readers
  {
    var rd := c.readers[r];
    var s := c.slots[Home(c, rd.dbn)];
    match rd.phase
    case Served(copy) => |copy| == rd.want && exists g {:trigger Tag(rd.dbn, g)} :: Whole(copy, Tag(rd.dbn, g))
    case Copying(got) => s.dbn == rd.dbn && s.status == Valid && |got| <= rd.want <= |s.buffer| && got == s.buffer[..|got|]
    case Waiting => s.dbn == rd.dbn && rd.want <= |s.buffer| && (s.permits == 0 ==> Waker(c, Home(c, rd.dbn)))
    case _ => s.dbn == rd.dbn && rd.want <= |s.buffer|
  }

  predicate FetchAt(c: Cache, i: nat, f: nat)
    requires Shaped(c)
  {
    f in c.fetches && Home(c, c.fetches[f].dbn) == i
  }

  predicate WokenAt(c: Cache, i: nat, r: nat)
    requires Shaped(c)
  {
    r in c.readers && c.readers[r].phase == Woken && Home(c, c.readers[r].dbn) == i
  }

  /** Something that will release a waiter of slot i. */
  ghost predicate Waker(c: Cache, i: nat)
    requires Shaped(c)
  {
    (exists f :: FetchAt(c, i, f)) || (exists r :: WokenAt(c, i, r))
  }

  ghost predicate Inv(c: Cache) {
    && Shaped(c)
    && (forall f {:trigger FetchOwns(c, f)} :: f in c.fetches ==> FetchOwns(c, f))
    && (forall f, g {:trigger SameHome(c, f, g)} :: f in c.fetches && g in c.fetches && Active(c.fetches[f]) && Active(c.fetches[g]) && SameHome(c, f, g) ==> f == g)
    && (forall i: nat {:trigger SlotFilled(c, i)} :: i < |c.slots| ==> SlotFilled(c, i))
    && (forall r {:trigger ReaderSafe(c, r)} :: r in c.readers ==> ReaderSafe(c, r))
  }

  // ----- counting the holders -----

  lemma HoldersMove(size: nat, readers: map<nat, Reader>, r: nat, phase: Phase, i: nat)
    requires size > 0 && r in readers && Holding(readers[r])
    ensures var after := readers[r := readers[r].(phase := phase)];
            if phase.Served? && SlotOf(readers[r].dbn, size) == i
            then |Holders(size, after, i)| == |Holders(size, readers, i)| - 1
            else Holders(size, after, i) == Holders(size, readers, i)
  {
    var after := readers[r := readers[r].(phase := phase)];
    if phase.Served? && SlotOf(readers[r].dbn, size) == i {
      assert Holders(size, readers, i) == Holders(size, after, i) + {r};
    } else {
      assert Holders(size, readers, i) == Holders(size, after, i);
    }
  }

  lemma HoldersJoin(size: nat, readers: map<nat, Reader>, r: nat, dbn: nat, want: nat, i: nat)
    requires size > 0 && r !in readers
    ensures var after := readers[r := Reader(dbn, want, Held)];
            |Holders(size, after, i)| == |Holders(size, readers, i)| + if SlotOf(dbn, size) == i then 1 else 0
  {
    var after := readers[r := Reader(dbn, want, Held)];
    if SlotOf(dbn, size) == i {
      assert Holders(size, after, i) == Holders(size, readers, i) + {r};
    } else {
      assert Holders(size, after, i) == Holders(size, readers, i);
    }
  }

  lemma HoldersLeave(size: nat, readers: map<nat, Reader>, r: nat, i: nat)
    requires size > 0 && r in readers && Holding(readers[r])
    ensures |Holders(size, readers - {r}, i)| == |Holders(size, readers, i)| - if SlotOf(readers[r].dbn, size) == i then 1 else 0
  {
    if SlotOf(readers[r].dbn, size) == i {
      assert Holders(size, readers, i) == Holders(size, readers - {r}, i) + {r};
    } else {
      assert Holders(size, readers - {r}, i) == Holders(size, readers, i);
    }
  }

  /** Nobody holds a slot whose count is zero. */
  lemma Unheld(c: Cache, i: nat)
    requires Inv(c) && i < |c.slots| && c.slots[i].holds == 0
    ensures forall r {:trigger c.readers[r]} :: r in c.readers && Home(c, c.readers[r].dbn) == i ==> !Holding(c.readers[r])
  {
    assert SlotFilled(c, i);
    forall r | r in c.readers && Home(c, c.readers[r].dbn) == i ensures !Holding(c.readers[r]) {
      assert Holding(c.readers[r]) ==> r in Holders(c.size, c.readers, i);
    }
  }

  // ----- what a step leaves alone -----

  /** c' differs from c at most in slot i, reader r, and fetch f; -1 stands for none. */
  ghost predicate Only(c: Cache, c': Cache, i: nat, r: int, f: int) {
    && Shaped(c) && Shaped(c') && c'.size == c.size && c.started <= c'.started
    && (forall j :: 0 <= j < |c.slots| && j != i ==> c'.slots[j] == c.slots[j])
    && (forall q: nat :: q != r ==> (q in c'.readers <==> q in c.readers) && (q in c.readers ==> c'.readers[q] == c.readers[q]))
    && (forall g: nat :: g != f ==> (g in c'.fetches <==> g in c.fetches) && (g in c.fetches ==> c'.fetches[g] == c.fetches[g]))
  }

  /** The step concerns slot i alone. */
  ghost predicate Local(c: Cache, c': Cache, i: nat, r: int, f: int) {
    && Only(c, c', i, r, f)
    && (r in c.readers ==> Holding(c.readers[r]) && Home(c, c.readers[r].dbn) == i)
    && (r in c'.readers ==> Home(c', c'.readers[r].dbn) == i && (r in c.readers ==> c'.readers[r].dbn == c.readers[r].dbn))
    && (f in c.fetches ==> Home(c, c.fetches[f].dbn) == i)
    && (f in c'.fetches ==> Home(c', c'.fetches[f].dbn) == i && FetchOwns(c', f) && (f in c.fetches ==> c'.fetches[f].dbn == c.fetches[f].dbn))
  }

  lemma OtherHolders(c: Cache, c': Cache, i: nat, r: int, f: int, j: nat)
    requires Local(c, c', i, r, f) && j != i
    ensures Holders(c'.size, c'.readers, j) == Holders(c.size, c.readers, j)
  {
    forall q ensures q in Holders(c'.size, c'.readers, j) <==> q in Holders(c.size, c.readers, j) {}
  }

  lemma OtherSlot(c: Cache, c': Cache, i: nat, r: int, f: int, j: nat)
    requires Inv(c) && Local(c, c', i, r, f) && j < |c.slots| && j != i
    ensures SlotFilled(c', j)
  {
    OtherHolders(c, c', i, r, f, j);
    assert SlotFilled(c, j);
    if c.slots[j].status == Prepare {
      var g :| FetchAt(c, j, g) && Active(c.fetches[g]);
      assert g != f && FetchAt(c', j, g);
    }
  }

  lemma OtherWaker(c: Cache, c': Cache, i: nat, r: int, f: int, j: nat)
    requires Inv(c) && Local(c, c', i, r, f) && j < |c.slots| && j != i && Waker(c, j)
    ensures Waker(c', j)
  {
    if g :| FetchAt(c, j, g) {
      assert g != f && FetchAt(c', j, g);
    } else {
      var q :| WokenAt(c, j, q);
      assert q != r && WokenAt(c', j, q);
    }
  }

  lemma OtherReader(c: Cache, c': Cache, i: nat, r: int, f: int, q: nat)
    requires Inv(c) && Local(c, c', i, r, f) && q in c.readers && (Home(c, c.readers[q].dbn) != i || c.readers[q].phase.Served?) && q != r
    ensures ReaderSafe(c', q)
  {
    assert ReaderSafe(c, q);
    if c.readers[q].phase == Waiting && c.slots[Home(c, c.readers[q].dbn)].permits == 0 { OtherWaker(c, c', i, r, f, Home(c, c.readers[q].dbn)); }
  }

  /** A step that concerns slot i keeps the invariant if it keeps it at slot i. */
  lemma LocalKeeps(c: Cache, c': Cache, i: nat, r: int, f: int)
    requires Inv(c) && Local(c, c', i, r, f) && i < |c.slots|
    requires forall g {:trigger FetchOwns(c', g)} :: g in c'.fetches && g != f && Home(c', c'.fetches[g].dbn) == i ==> FetchOwns(c', g)
    requires f in c'.fetches && Active(c'.fetches[f]) ==> (f in c.fetches && Active(c.fetches[f])) || c.slots[i].status != Prepare
    requires SlotFilled(c', i)
    requires r in c'.readers ==> ReaderSafe(c', r)
    requires forall q {:trigger ReaderSafe(c', q)} :: q in c.readers && q != r && Home(c, c.readers[q].dbn) == i && Holding(c.readers[q]) ==> ReaderSafe(c', q)
    ensures Inv(c')
  {
    forall g | g in c'.fetches ensures FetchOwns(c', g) {
      if g != f { assert FetchOwns(c, g); }
    }
    forall g, h | g in c'.fetches && h in c'.fetches && Active(c'.fetches[g]) && Active(c'.fetches[h]) && SameHome(c', g, h) ensures g == h {
      if g in c.fetches { assert FetchOwns(c, g); }
      if h in c.fetches { assert FetchOwns(c, h); }
      if g in c.fetches && h in c.fetches { assert SameHome(c, g, h); }
    }
    forall j: nat | j < |c'.slots| ensures SlotFilled(c', j) { if j != i { OtherSlot(c, c', i, r, f, j); } }
    forall q | q in c'.readers ensures ReaderSafe(c', q) {
      if q != r && (Home(c, c.readers[q].dbn) != i || !Holding(c.readers[q])) { OtherReader(c, c', i, r, f, q); }
    }
  }

  // ----- every step keeps the invariant -----

  lemma NotStarted(c: Cache)
    requires Inv(c)
    ensures c.started !in c.fetches
  {
    assert c.started in c.fetches ==> FetchOwns(c, c.started);
  }

  /** A reader's step that touches neither the slot nor any fetch. */
  lemma MoveKeeps(c: Cache, r: nat, phase: Phase)
    requires Inv(c) && r in c.readers && Holding(c.readers[r]) && !phase.Served? && c.readers[r].phase != Woken
    requires ReaderSafe(Move(c, r, phase), r)
    ensures Inv(Move(c, r, phase))
  {
    var c' := Move(c, r, phase);
    var i := Home(c, c.readers[r].dbn);
    var f := c.started;
    assert SlotFilled(c, i);
    NotStarted(c);
    HoldersMove(c.size, c.readers, r, phase, i);
    assert SlotFilled(c', i) by { SameFetches(c, c', i); }
    forall g | g in c'.fetches ensures FetchOwns(c', g) { assert FetchOwns(c, g); }
    forall q | q in c.readers && q != r && Home(c, c.readers[q].dbn) == i && Holding(c.readers[q]) ensures ReaderSafe(c', q) {
      assert ReaderSafe(c, q);
      if c.readers[q].phase == Waiting && c.slots[i].permits == 0 { WakerStays(c, c', r, i); }
    }
    LocalKeeps(c, c', i, r, f);
  }

  lemma SameFetches(c: Cache, c': Cache, i: nat)
    requires Inv(c) && Shaped(c') && c'.size == c.size && c'.slots == c.slots && c'.fetches == c.fetches && c.started == c'.started && i < |c.slots|
    requires |Holders(c'.size, c'.readers, i)| == |Holders(c.size, c.readers, i)|
    ensures SlotFilled(c', i)
  {
    assert SlotFilled(c, i);
    if c.slots[i].status == Prepare {
      var g :| FetchAt(c, i, g) && Active(c.fetches[g]);
      assert FetchAt(c', i, g);
    }
  }

  lemma TestKeeps(c: Cache, r: nat)
    requires Inv(c) && Enabled(c, Test(r))
    ensures Inv(Apply(c, Test(r)))
  {
    var i := Home(c, c.readers[r].dbn);
    assert ReaderSafe(c, r) && SlotFilled(c, i);
    var c' := Apply(c, Test(r));
    if c.slots[i].status == Prepare {
      var f :| FetchAt(c, i, f) && Active(c.fetches[f]);
      assert FetchAt(c', i, f);
    }
    MoveKeeps(c, r, c'.readers[r].phase);
  }

  lemma InterruptedKeeps(c: Cache, r: nat)
    requires Inv(c) && Enabled(c, Interrupted(r))
    ensures Inv(Apply(c, Interrupted(r)))
  {
    assert ReaderSafe(c, r);
    MoveKeeps(c, r, Woken);
  }

  lemma CopyKeeps(c: Cache, r: nat)
    requires Inv(c) && Enabled(c, Copy(r))
    ensures Inv(Apply(c, Copy(r)))
  {
    assert ReaderSafe(c, r);
    MoveKeeps(c, r, Apply(c, Copy(r)).readers[r].phase);
  }

  /** A reader's step on its slot's counters. */
  lemma CountKeeps(c: Cache, c': Cache, i: nat, r: nat)
    requires Inv(c) && Local(c, c', i, r, c.started) && i < |c.slots| && c'.fetches == c.fetches && c'.started == c.started
    requires c'.slots[i] == c.slots[i].(holds := c'.slots[i].holds, permits := c'.slots[i].permits)
    requires c'.slots[i].holds == |Holders(c'.size, c'.readers, i)|
    requires r in c'.readers ==> ReaderSafe(c', r)
    requires c'.slots[i].permits == 0 ==> Waker(c', i) || (c.slots[i].permits == 0 && (r in c.readers ==> c.readers[r].phase != Woken))
    ensures Inv(c')
  {
    assert SlotFilled(c, i);
    if c.slots[i].status == Prepare {
      var g :| FetchAt(c, i, g) && Active(c.fetches[g]);
      assert FetchAt(c', i, g);
    }
    forall g | g in c'.fetches ensures FetchOwns(c', g) { assert FetchOwns(c, g); }
    forall q | q in c.readers && q != r && Home(c, c.readers[q].dbn) == i && Holding(c.readers[q]) ensures ReaderSafe(c', q) {
      assert ReaderSafe(c, q);
      if c.readers[q].phase == Waiting && c'.slots[i].permits == 0 && !Waker(c', i) { WakerStays(c, c', r, i); }
    }
    NotStarted(c);
    LocalKeeps(c, c', i, r, c.started);
  }

  lemma WakerStays(c: Cache, c': Cache, r: nat, i: nat)
    requires Inv(c) && Shaped(c') && c'.size == c.size && Waker(c, i) && c'.fetches == c.fetches
    requires forall q :: q in c.readers && q != r ==> q in c'.readers && c'.readers[q] == c.readers[q]
    requires r in c.readers ==> c.readers[r].phase != Woken
    ensures Waker(c', i)
  {
    if g :| FetchAt(c, i, g) {
      assert FetchAt(c', i, g);
    } else {
      var q :| WokenAt(c, i, q);
      assert q != r && WokenAt(c', i, q);
    }
  }

  lemma LookupKeeps(c: Cache, r: nat, dbn: nat, want: nat)
    requires Inv(c) && Enabled(c, Lookup(r, dbn, want))
    ensures Inv(Apply(c, Lookup(r, dbn, want)))
  {
    NotStarted(c);
    assert SlotFilled(c, Home(c, dbn));
    HoldersJoin(c.size, c.readers, r, dbn, want, Home(c, dbn));
    var c' := Apply(c, Lookup(r, dbn, want));
    CountKeeps(c, c', Home(c, dbn), r);
  }

  lemma DownKeeps(c: Cache, r: nat)
    requires Inv(c) && Enabled(c, Down(r))
    ensures Inv(Apply(c, Down(r)))
  {
    NotStarted(c);
    var i := Home(c, c.readers[r].dbn);
    assert SlotFilled(c, i) && ReaderSafe(c, r);
    HoldersMove(c.size, c.readers, r, Woken, i);
    var c' := Apply(c, Down(r));
    assert WokenAt(c', i, r);
    CountKeeps(c, c', i, r);
  }

  lemma UpKeeps(c: Cache, r: nat)
    requires Inv(c) && Enabled(c, Up(r))
    ensures Inv(Apply(c, Up(r)))
  {
    NotStarted(c);
    var i := Home(c, c.readers[r].dbn);
    assert SlotFilled(c, i) && ReaderSafe(c, r);
    HoldersMove(c.size, c.readers, r, Ready, i);
    CountKeeps(c, Apply(c, Up(r)), i, r);
  }

  lemma DecideKeeps(c: Cache, r: nat)
    requires Inv(c) && Enabled(c, Decide(r))
    ensures Inv(Apply(c, Decide(r)))
  {
    NotStarted(c);
    var i := Home(c, c.readers[r].dbn);
    assert SlotFilled(c, i) && ReaderSafe(c, r);
    if c.slots[i].status == Valid {
      MoveKeeps(c, r, Copying([]));
    } else {
      HoldersLeave(c.size, c.readers, r, i);
      CountKeeps(c, Apply(c, Decide(r)), i, r);
    }
  }

  lemma FinishKeeps(c: Cache, r: nat)
    requires Inv(c) && Enabled(c, Finish(r))
    ensures Inv(Apply(c, Finish(r)))
  {
    NotStarted(c);
    var i := Home(c, c.readers[r].dbn);
    assert SlotFilled(c, i) && ReaderSafe(c, r);
    var got := c.readers[r].phase.got;
    HoldersMove(c.size, c.readers, r, Served(got), i);
    var g :| Whole(c.slots[i].buffer, Tag(c.slots[i].dbn, g));
    assert got == c.slots[i].buffer[..c.readers[r].want] && Whole(got, Tag(c.readers[r].dbn, g));
    CountKeeps(c, Apply(c, Finish(r)), i, r);
  }

  /** A fetch's step, or a reset, that changes who owns an unheld slot, or who wakes. */
  lemma ClaimKeeps(c: Cache, dbn: nat)
    requires Inv(c) && Enabled(c, Claim(dbn))
    ensures Inv(Apply(c, Claim(dbn)))
  {
    NotStarted(c);
    var i, f := Home(c, dbn), c.started;
    var c' := Apply(c, Claim(dbn));
    assert SlotFilled(c, i) && FetchAt(c', i, f);
    forall g | g in c'.fetches && g != f && Home(c', c'.fetches[g].dbn) == i ensures FetchOwns(c', g) { assert FetchOwns(c, g); }
    Unheld(c, i);
    LocalKeeps(c, c', i, -1, f);
  }

  lemma ResetKeeps(c: Cache, i: nat)
    requires Inv(c) && Enabled(c, ResetSlot(i))
    ensures Inv(Apply(c, ResetSlot(i)))
  {
    var c' := Apply(c, ResetSlot(i));
    assert SlotFilled(c, i);
    forall g | g in c'.fetches && Home(c', c'.fetches[g].dbn) == i ensures FetchOwns(c', g) { assert FetchOwns(c, g); }
    Unheld(c, i);
    LocalKeeps(c, c', i, -1, -1);
  }

  /** A step of fetch f on its slot: readers see it only through the status and the permits. */
  ghost predicate FetchStep(c: Cache, c': Cache, f: nat)
    requires Shaped(c) && f in c.fetches
  {
    var i := Home(c, c.fetches[f].dbn);
    && Local(c, c', i, -1, f) && c'.readers == c.readers && c'.slots[i].holds == c.slots[i].holds && c'.slots[i].dbn == c.slots[i].dbn
    && |c'.slots[i].buffer| == |c.slots[i].buffer|
    && (c.slots[i].status == Valid ==> c'.slots[i] == c.slots[i].(permits := c'.slots[i].permits))
    && (c'.slots[i].permits == 0 ==> FetchAt(c', i, f))
    && (Active(c.fetches[f]) || (c'.slots[i].status == c.slots[i].status && c'.slots[i].buffer == c.slots[i].buffer))
    && (c'.slots[i].status == Prepare ==> c.slots[i].status == Prepare && (Active(c.fetches[f]) ==> FetchAt(c', i, f) && Active(c'.fetches[f])))
    && (c'.slots[i].status == Valid ==> c.slots[i].status == Valid || Whole(c'.slots[i].buffer, Tag(c.fetches[f].dbn, f)))
    && (f in c'.fetches && Active(c'.fetches[f]) ==> Active(c.fetches[f]))
  }

  lemma FetchFills(c: Cache, c': Cache, f: nat, i: nat)
    requires Inv(c) && f in c.fetches && i == Home(c, c.fetches[f].dbn) && FetchStep(c, c', f)
    ensures SlotFilled(c', i)
  {
    assert SlotFilled(c, i) && FetchOwns(c, f);
    if c'.slots[i].status == Prepare {
      var g :| FetchAt(c, i, g) && Active(c.fetches[g]);
      if g != f { assert FetchAt(c', i, g); }
    }
    assert Holders(c'.size, c'.readers, i) == Holders(c.size, c.readers, i);
    if c'.slots[i].status == Valid {
      if c.slots[i].status == Valid {
        var g :| Whole(c.slots[i].buffer, Tag(c.slots[i].dbn, g));
        assert Whole(c'.slots[i].buffer, Tag(c'.slots[i].dbn, g));
      } else {
        assert Whole(c'.slots[i].buffer, Tag(c'.slots[i].dbn, f));
      }
    }
  }

  lemma FetchStepKeeps(c: Cache, c': Cache, f: nat)
    requires Inv(c) && f in c.fetches && FetchStep(c, c', f)
    ensures Inv(c')
  {
    var i := Home(c, c.fetches[f].dbn);
    assert SlotFilled(c, i) && FetchOwns(c, f);
    FetchFills(c, c', f, i);
    forall g | g in c'.fetches && g != f && Home(c', c'.fetches[g].dbn) == i ensures FetchOwns(c', g) {
      assert FetchOwns(c, g);
      assert SameHome(c, f, g);
    }
    forall q | q in c.readers && Home(c, c.readers[q].dbn) == i && Holding(c.readers[q]) ensures ReaderSafe(c', q) { assert ReaderSafe(c, q); }
    LocalKeeps(c, c', i, -1, f);
  }

  lemma FetchKeeps(c: Cache, step: Step)
    requires Inv(c) && Enabled(c, step) && (step.Dispatch? || step.Deliver? || step.Complete? || step.Post?)
    ensures Inv(Apply(c, step))
  {
    var f := step.f;
    var c' := Apply(c, step);
    assert FetchOwns(c, f) && SlotFilled(c, Home(c, c.fetches[f].dbn));
    FetchStepKeeps(c, c', f);
  }

  lemma StepKeeps(c: Cache, step: Step)
    requires Inv(c) && Enabled(c, step)
    ensures Inv(Apply(c, step))
  {
    match step
    case Lookup(r, dbn, want) => LookupKeeps(c, r, dbn, want);
    case Test(r) => TestKeeps(c, r);
    case Down(r) => DownKeeps(c, r);
    case Interrupted(r) => InterruptedKeeps(c, r);
    case Up(r) => UpKeeps(c, r);
    case Decide(r) => DecideKeeps(c, r);
    case Copy(r) => CopyKeeps(c, r);
    case Finish(r) => FinishKeeps(c, r);
    case Claim(dbn) => ClaimKeeps(c, dbn);
    case ResetSlot(i) => ResetKeeps(c, i);
    case _ => FetchKeeps(c, step);
  }

  // ----- what that guarantees -----

  /** init_pfd_cache: nothing fetched, nobody reading; the buffers hold anything. */
  predicate Fresh(c: Cache) {
    && Shaped(c) && c.readers == map[] && c.fetches == map[]
    && forall i :: 0 <= i < |c.slots| ==> c.slots[i].status == Empty && c.slots[i].holds == 0
  }

  lemma FreshInv(c: Cache)
    requires Fresh(c)
    ensures Inv(c)
  {
    forall i: nat | i < |c.slots| ensures SlotFilled(c, i) { assert Holders(c.size, c.readers, i) == {}; }
  }

  ghost predicate CanRun(c: Cache, steps: seq<Step>)
    decreases |steps|
  {
    Shaped(c) && (steps != [] ==> Enabled(c, steps[0]) && CanRun(Apply(c, steps[0]), steps[1..]))
  }

  ghost function After(c: Cache, steps: seq<Step>): Cache
    requires CanRun(c, steps)
    decreases |steps|
  {
    if steps == [] then c else After(Apply(c, steps[0]), steps[1..])
  }

  lemma {:induction false} RunKeeps(c: Cache, steps: seq<Step>)
    requires Inv(c) && CanRun(c, steps)
    ensures Inv(After(c, steps))
    decreases |steps|
  {
    if steps != [] {
      StepKeeps(c, steps[0]);
      RunKeeps(Apply(c, steps[0]), steps[1..]);
    }
  }

  /** Whatever readers, fetches and resets do, a reader that reports a hit was served data of
      its own block only, all of it from a single fetch. */
  lemma HitIsOwnBlock(c: Cache, steps: seq<Step>, r: nat)
    requires Fresh(c) && CanRun(c, steps)
    ensures var d := After(c, steps);
            r in d.readers && d.readers[r].phase.Served? ==>
              exists g {:trigger Tag(d.readers[r].dbn, g)} :: Whole(d.readers[r].phase.copy, Tag(d.readers[r].dbn, g))
  {
    FreshInv(c);
    RunKeeps(c, steps);
    var d := After(c, steps);
    assert r in d.readers ==> ReaderSafe(d, r);
  }

  /** A hit is reported with a copy of as much of the buffer as was asked for. */
  lemma HitIsBuffer(c: Cache, r: nat)
    requires Inv(c) && Enabled(c, Finish(r))
    ensures c.readers[r].want <= |c.slots[Home(c, c.readers[r].dbn)].buffer|
    ensures Apply(c, Finish(r)).readers[r].phase == Served(c.slots[Home(c, c.readers[r].dbn)].buffer[..c.readers[r].want])
    ensures c.slots[Home(c, c.readers[r].dbn)].dbn == c.readers[r].dbn
  {
    assert ReaderSafe(c, r);
  }

  lemma HeldCounts(c: Cache, r: nat)
    requires Inv(c) && r in c.readers && Holding(c.readers[r])
    ensures c.slots[Home(c, c.readers[r].dbn)].holds > 0
  {
    var i := Home(c, c.readers[r].dbn);
    assert SlotFilled(c, i) && r in Holders(c.size, c.readers, i);
  }

  /** No step retargets a slot that is being prepared or held; a valid slot that is held does
      not change at all; and a buffer changes only by what the slot's own fetch delivers. */
  lemma NeverRetargeted(c: Cache, step: Step, i: nat)
    requires Inv(c) && Enabled(c, step) && i < |c.slots|
    ensures var s, t := c.slots[i], Apply(c, step).slots[i];
            && (s.status == Prepare || s.holds > 0 ==> t.dbn == s.dbn)
            && (s.status == Valid && s.holds > 0 ==> t.status == Valid && t.buffer == s.buffer)
            && (t.buffer != s.buffer ==>
                 s.status == Prepare && step.Deliver? && t.buffer == s.buffer[step.k := Tag(s.dbn, step.f)])
  {
    assert SlotFilled(c, i);
    if step.Dispatch? || step.Deliver? || step.Complete? { assert FetchOwns(c, step.f); }
  }

  /** Something a waiter of slot i can count on happening next. */
  predicate Releases(c: Cache, i: nat, step: Step)
    requires Shaped(c)
  {
    Enabled(c, step) && match step
      case Down(r) => Home(c, c.readers[r].dbn) == i
      case Up(r) => Home(c, c.readers[r].dbn) == i
      case Dispatch(f, ok) => Home(c, c.fetches[f].dbn) == i
      case Complete(f, ok) => Home(c, c.fetches[f].dbn) == i
      case Post(f) => Home(c, c.fetches[f].dbn) == i
      case _ => false
  }

  /** Nobody waits in vain: the semaphore is up, or someone is about to raise it, or the fetch
      waited for is under way. */
  lemma NobodyStuck(c: Cache, r: nat) returns (step: Step)
    requires Inv(c) && r in c.readers && c.readers[r].phase == Waiting
    ensures Releases(c, Home(c, c.readers[r].dbn), step)
  {
    var i := Home(c, c.readers[r].dbn);
    assert ReaderSafe(c, r);
    if c.slots[i].permits > 0 {
      step := Down(r);
    } else if f :| FetchAt(c, i, f) {
      step := match c.fetches[f].stage case Claimed => Dispatch(f, false) case InFlight => Complete(f, false) case Posting => Post(f);
    } else {
      var q :| WokenAt(c, i, q);
      step := Up(q);
    }
  }

  // ----- a block fetched is served -----

  /** What is left of a read: n more pieces to copy. */
  function Copies(r: nat, n: nat): seq<Step> { if n == 0 then [Finish(r)] else [Copy(r)] + Copies(r, n - 1) }

  lemma {:induction false} CopyAll(c: Cache, r: nat, n: nat)
    requires Shaped(c) && r in c.readers && c.readers[r].phase.Copying?
    requires |c.readers[r].phase.got| + n == c.readers[r].want <= |c.slots[Home(c, c.readers[r].dbn)].buffer|
    ensures CanRun(c, Copies(r, n)) && r in After(c, Copies(r, n)).readers
    ensures var got, buffer := c.readers[r].phase.got, c.slots[Home(c, c.readers[r].dbn)].buffer;
            After(c, Copies(r, n)).readers[r].phase == Served(got + buffer[|got|..c.readers[r].want])
    decreases n
  {
    var got, buffer, want := c.readers[r].phase.got, c.slots[Home(c, c.readers[r].dbn)].buffer, c.readers[r].want;
    if n == 0 {
      assert got + buffer[|got|..want] == got;
      assert CanRun(Apply(c, Finish(r)), []);
    } else {
      var d := Apply(c, Copy(r));
      CopyAll(d, r, n - 1);
      assert got + buffer[|got|..want] == (got + [buffer[|got|]]) + buffer[|got| + 1..want];
      assert ([Copy(r)] + Copies(r, n - 1))[1..] == Copies(r, n - 1);
    }
  }

  lemma FirstStep(c: Cache, a: Step, rest: seq<Step>)
    requires Shaped(c) && Enabled(c, a) && CanRun(Apply(c, a), rest)
    ensures CanRun(c, [a] + rest) && After(c, [a] + rest) == After(Apply(c, a), rest)
  {
    assert ([a] + rest)[1..] == rest;
  }

  /** Reading a block whose slot is valid. */
  function Reading(r: nat, dbn: nat, want: nat): seq<Step> { [Lookup(r, dbn, want)] + ([Test(r)] + ([Decide(r)] + Copies(r, want))) }

  lemma HeldIsServed(c: Cache, r: nat, want: nat)
    requires Shaped(c) && r in c.readers && c.readers[r].phase == Held && c.readers[r].want == want <= |c.slots[Home(c, c.readers[r].dbn)].buffer|
    requires c.slots[Home(c, c.readers[r].dbn)].status == Valid
    ensures var steps, t := [Test(r)] + ([Decide(r)] + Copies(r, want)), c.slots[Home(c, c.readers[r].dbn)];
      CanRun(c, steps) && r in After(c, steps).readers && After(c, steps).readers[r].phase == Served(t.buffer[..want])
  {
    var e := Apply(c, Test(r));
    var g := Apply(e, Decide(r));
    CopyAll(g, r, want);
    FirstStep(e, Decide(r), Copies(r, want));
    FirstStep(c, Test(r), [Decide(r)] + Copies(r, want));
    var buffer := c.slots[Home(c, c.readers[r].dbn)].buffer;
    assert [] + buffer[0..want] == buffer[..want];
  }

  lemma ReadIsServed(c: Cache, r: nat, dbn: nat, want: nat)
    requires Shaped(c) && r !in c.readers && c.slots[Home(c, dbn)].status == Valid && c.slots[Home(c, dbn)].dbn == dbn && want <= |c.slots[Home(c, dbn)].buffer|
    ensures CanRun(c, Reading(r, dbn, want)) && r in After(c, Reading(r, dbn, want)).readers
    ensures After(c, Reading(r, dbn, want)).readers[r].phase == Served(c.slots[Home(c, dbn)].buffer[..want])
  {
    HeldIsServed(Apply(c, Lookup(r, dbn, want)), r, want);
    FirstStep(c, Lookup(r, dbn, want), [Test(r)] + ([Decide(r)] + Copies(r, want)));
  }

  /** A prefetch pays off: once it has succeeded, a read of the block is a hit and gets what it fetched ... */
  lemma PrefetchPays(c: Cache, f: nat, r: nat, want: nat)
    requires Inv(c) && Enabled(c, Complete(f, true)) && r !in c.readers && want <= |c.slots[Home(c, c.fetches[f].dbn)].buffer|
    ensures var b, d := c.fetches[f].dbn, Apply(c, Complete(f, true));
      && CanRun(d, Reading(r, b, want)) && r in After(d, Reading(r, b, want)).readers
      && After(d, Reading(r, b, want)).readers[r].phase == Served(seq(want, i => Tag(b, f)))
  {
    assert FetchOwns(c, f);
    var b := c.fetches[f].dbn;
    ReadIsServed(Apply(c, Complete(f, true)), r, b, want);
    assert c.slots[Home(c, b)].buffer[..want] == seq(want, i => Tag(b, f));
  }

  /** ... and it stays so until the slot, held by nobody, is claimed for another block or reset. */
  lemma StaysFetched(c: Cache, step: Step, i: nat)
    requires Inv(c) && Enabled(c, step) && i < |c.slots| && c.slots[i].status == Valid
    requires !(step.Claim? && Home(c, step.dbn) == i && step.dbn != c.slots[i].dbn && c.slots[i].holds == 0) && !(step == ResetSlot(i) && c.slots[i].holds == 0)
    ensures var s, t := c.slots[i], Apply(c, step).slots[i]; t.status == Valid && t.dbn == s.dbn && t.buffer == s.buffer
  {
    if step.Dispatch? || step.Deliver? || step.Complete? { assert FetchOwns(c, step.f); }
  }
}
