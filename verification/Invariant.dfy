/** What every reachable state of the protocol satisfies, in six families. */
module Invariant {
  import opened Types
  import opened Protocol

  // ----- slots: the state word agrees with the job that owns the slot -----

  /** The slot is VALID and exactly this BLOCK_IO_INPROG bit is set. */
  predicate Only(b: Bits, dr: bool, dw: bool, cr: bool, cw: bool) {
    b.valid && b.diskRead == dr && b.diskWrite == dw && b.cacheRead == cr && b.cacheWrite == cw
  }

  predicate WorkFits(c: Config, sl: Slot) {
    match sl.work
    case NoWork => !sl.bits.Busy() && sl.nrQueued == 0
    case ReadCache(_, _) => Only(sl.bits, false, false, true, false)
    case ReadDisk(_, _) => Only(sl.bits, true, false, false, false) && !sl.bits.dirty
    case ReadFill(_, _, _) => Only(sl.bits, true, false, false, false) && !sl.bits.dirty
    case WriteCache(_, _, _) => Only(sl.bits, false, false, false, true) && c.mode != WriteAround
    case MdDirty(_) => Only(sl.bits, false, false, false, true) && !sl.bits.dirty && c.mode == WriteBack
    case WriteDisk(_, _) => Only(sl.bits, false, true, false, false) && sl.bits.dirty
    case MdClean => Only(sl.bits, false, true, false, false) && sl.bits.dirty
    case Finish => sl.bits.valid && sl.bits.Busy() && sl.nrQueued > 0
    case Limbo => !sl.bits.valid && sl.bits.Busy()
    case Drain(_) => !sl.bits.valid && sl.bits.Busy() && sl.pend == []
  }

  predicate SlotOk(c: Config, i: nat, sl: Slot)
    requires i < |c.setOf|
  {
    && sl.bits.invalid == !sl.bits.valid
    && (sl.bits.dirty ==> sl.bits.valid && c.mode == WriteBack)
    && (sl.bits.fallow1 || sl.bits.fallow2 ==> sl.bits.dirty && !sl.bits.Busy())
    && (sl.bits.valid ==> c.setOf[i] == c.hashBlock(sl.dbn))
    && WorkFits(c, sl)
    && sl.nrQueued == |sl.pend| + |Rest(sl.work)|
  }

  ghost predicate Slots(c: Config, s: State) {
    && |s.slots| == |s.ssd| == |s.md| == c.size && |s.heads| == c.mdBlocks
    && |s.ctr.setDirty| == |s.ctr.setFallow| == |s.ctr.setCleaning| == c.sets
    && WellFormed(c)
    && (forall i {:trigger s.slots[i]} {:trigger SlotOk(c, i, s.slots[i])} :: 0 <= i < c.size ==> SlotOk(c, i, s.slots[i]))
    && (forall i, j {:trigger s.slots[i], s.slots[j]} :: 0 <= i < j < c.size && s.slots[i].bits.valid && s.slots[j].bits.valid
          ==> s.slots[i].dbn != s.slots[j].dbn)
  }

  // ----- requests: each is held in exactly one place -----

  function Holder(w: Work): Option<nat> {
    match w
    case ReadCache(x, _) => Some(x)
    case ReadDisk(x, _) => Some(x)
    case ReadFill(x, _, _) => Some(x)
    case WriteCache(x, _, _) => Some(x)
    case MdDirty(x) => Some(x)
    case _ => None
  }

  predicate Has(q: seq<Entry>, x: nat) { Entry(x, true) in q || Entry(x, false) in q }

  predicate PlaceOk(s: State, x: nat, p: Place) {
    match p
    case OnSlot(i) => i < |s.slots| && Holder(s.slots[i].work) == Some(x)
    case Queued(i) => i < |s.slots| && Has(s.slots[i].pend, x)
    case Detached(i) => i < |s.slots| && Has(Rest(s.slots[i].work), x)
    case _ => true
  }

  predicate JobOk(s: State, i: nat)
    requires i < |s.slots|
  {
    var h := Holder(s.slots[i].work);
    h.Some? ==>
      && h.value in s.bios && s.bios[h.value].place == OnSlot(i)
      && s.bios[h.value].bio.dbn == s.slots[i].dbn
      && s.bios[h.value].bio.write == (s.slots[i].work.WriteCache? || s.slots[i].work.MdDirty?)
      && s.bios[h.value].bio.full
  }

  ghost predicate ListOk(s: State, q: seq<Entry>, p: Place, dbn: nat) {
    && (forall k {:trigger q[k]} :: 0 <= k < |q| ==>
          q[k].id in s.bios && s.bios[q[k].id].place == p && s.bios[q[k].id].bio.dbn == dbn)
    && (forall k, l {:trigger q[k], q[l]} :: 0 <= k < l < |q| ==> q[k].id != q[l].id)
  }

  ghost predicate EntriesOk(s: State, i: nat)
    requires i < |s.slots|
  {
    && ListOk(s, s.slots[i].pend, Queued(i), s.slots[i].dbn)
    && ListOk(s, Rest(s.slots[i].work), Detached(i), s.slots[i].dbn)
  }

  ghost predicate Bios(c: Config, s: State) {
    && (forall x {:trigger s.bios[x]} {:trigger PlaceOk(s, x, s.bios[x].place)} :: x in s.bios ==> PlaceOk(s, x, s.bios[x].place))
    && (forall i {:trigger s.slots[i]} {:trigger JobOk(s, i)} :: 0 <= i < |s.slots| ==> JobOk(s, i))
    && (forall i {:trigger s.slots[i]} {:trigger EntriesOk(s, i)} :: 0 <= i < |s.slots| ==> EntriesOk(s, i))
  }

  // ----- history: every request is unfinished, ended once, or cut off -----

  function Acked(log: seq<Ack>): set<nat> { set a | a in log :: a.id }

  ghost predicate History(s: State) {
    && (forall x {:trigger s.bios[x]} :: x in s.bios ==> x < s.nextId)
    && (forall k {:trigger s.log[k]} :: 0 <= k < |s.log| ==> s.log[k].id < s.nextId && s.log[k].id !in s.bios && s.log[k].id !in s.lost)
    && (forall k, l {:trigger s.log[k], s.log[l]} :: 0 <= k < l < |s.log| ==> s.log[k].id != s.log[l].id)
    && (forall x {:trigger x in s.lost} :: x in s.lost ==> x < s.nextId && x !in s.bios)
    && (forall x: nat :: x < s.nextId ==> x in s.bios || x in s.lost || x in Acked(s.log))
  }

  // ----- metadata: on-SSD DIRTY bits follow the in-core ones -----

  function All(h: MdHead): seq<nat> { h.active + h.queue }

  predicate InMd(w: Work) { w.MdDirty? || w.MdClean? }

  ghost predicate HeadOk(c: Config, s: State, m: nat)
    requires m < |s.heads|
  {
    var h := s.heads[m];
    && (forall k {:trigger All(h)[k]} :: 0 <= k < |All(h)| ==>
          All(h)[k] < |s.slots| == |c.mdOf| && c.mdOf[All(h)[k]] == m && InMd(s.slots[All(h)[k]].work))
    && (forall k, l {:trigger All(h)[k], All(h)[l]} :: 0 <= k < l < |All(h)| ==> All(h)[k] != All(h)[l])
    && (h.io.MdIdle? ==> All(h) == [])
    && (h.io.MdScheduled? ==> |h.active| == 1)
    && (h.io.MdWriting? ==> h.active != [])
    && (h.io.MdWriting? ==> forall k: nat {:trigger k in h.io.snap} :: k in h.io.snap <==> k < |c.mdOf| && c.mdOf[k] == m)
  }

  /** The record tells the in-core DIRTY bit, and the dbn if DIRTY. */
  predicate Current(sl: Slot, r: Rec) {
    r.dirty == sl.bits.dirty && (r.dirty ==> r.dbn == sl.dbn && r.valid && !r.invalid)
  }

  /** The record tells what the slot will be once its metadata job is done. */
  predicate Target(sl: Slot, r: Rec) {
    r.dirty == sl.work.MdDirty? && (r.dirty ==> r.dbn == sl.dbn && r.valid && !r.invalid)
  }

  predicate RecOk(c: Config, s: State, i: nat)
    requires Idx(c, s, i)
  {
    var h := s.heads[c.mdOf[i]];
    && (if i in h.active && (h.io.MdCompleting? || (h.io.MdWriting? && i in h.io.applied))
        then Target(s.slots[i], s.md[i]) else Current(s.slots[i], s.md[i]))
    && (h.io.MdWriting? ==>
          && i in h.io.snap
          && (if i in h.active then Target(s.slots[i], h.io.snap[i]) else Current(s.slots[i], h.io.snap[i])))
  }

  ghost predicate Meta(c: Config, s: State)
    requires Slots(c, s)
  {
    && (forall m {:trigger s.heads[m]} {:trigger HeadOk(c, s, m)} :: 0 <= m < c.mdBlocks ==> HeadOk(c, s, m))
    && (forall i {:trigger s.slots[i]} :: 0 <= i < c.size && InMd(s.slots[i].work) ==> i in All(s.heads[c.mdOf[i]]))
    && (forall i {:trigger s.md[i]} {:trigger s.slots[i]} {:trigger RecOk(c, s, i)} :: 0 <= i < c.size ==> RecOk(c, s, i))
  }

  // ----- content: clean slots agree with the disk -----

  /** An uncached write of b has been started and its invalidation is still to come. */
  ghost predicate Tainted(s: State, b: nat) {
    exists x {:trigger s.bios[x]} :: x in s.bios && s.bios[x].bio.write && s.bios[x].bio.dbn == b
      && (s.bios[x].place == Uncached || s.bios[x].place == Hand)
  }

  /** A write waits for slot i that may have reached the disk already: for a DIRTY
      slot only one that met another write can have. */
  ghost predicate AwaitedByWrite(s: State, i: nat)
    requires i < |s.slots|
  {
    exists e :: e in s.slots[i].pend && e.id in s.bios && s.bios[e.id].bio.write && (s.slots[i].bits.dirty ==> !s.bios[e.id].alone)
  }

  ghost predicate Excused(s: State, i: nat)
    requires i < |s.slots|
  {
    Tainted(s, s.slots[i].dbn) || AwaitedByWrite(s, i)
  }

  ghost predicate Matches(s: State, i: nat, v: Data)
    requires i < |s.slots|
  {
    v == OnDisk(s, s.slots[i].dbn) || Excused(s, i)
  }

  ghost predicate ContentOk(c: Config, s: State, i: nat)
    requires i < |s.slots| == |s.ssd|
  {
    var sl := s.slots[i];
    match sl.work
    case NoWork => sl.bits.valid && !sl.bits.dirty ==> Matches(s, i, s.ssd[i])
    case Finish => !sl.bits.dirty ==> Matches(s, i, s.ssd[i])
    case ReadCache(_, _) => !sl.bits.dirty ==> Matches(s, i, s.ssd[i])
    case ReadDisk(_, got) => got.Some? ==> Matches(s, i, got.value)
    case ReadFill(_, data, stored) => Matches(s, i, data) && (stored ==> s.ssd[i] == data)
    case WriteCache(x, stored, mirrored) =>
      (stored ==> s.ssd[i] == BioOf(s, x).payload) && (mirrored ==> Matches(s, i, BioOf(s, x).payload))
    case MdDirty(x) => s.ssd[i] == BioOf(s, x).payload
    case WriteDisk(copy, stored) =>
      (copy.Some? ==> copy.value == s.ssd[i]) && (stored ==> Matches(s, i, s.ssd[i]))
    case MdClean => Matches(s, i, s.ssd[i])
    case Limbo => true
    case Drain(_) => true
  }

  ghost predicate Content(c: Config, s: State)
    requires Slots(c, s)
  {
    forall i {:trigger s.slots[i]} {:trigger s.ssd[i]} {:trigger ContentOk(c, s, i)} :: 0 <= i < c.size ==> ContentOk(c, s, i)
  }

  // ----- register: what a block holds as seen by its requests -----

  predicate DirtyAt(s: State, b: nat, i: nat)
    requires i < |s.slots|
  {
    s.slots[i].bits.dirty && s.slots[i].dbn == b
  }

  ghost predicate NoDirty(s: State, b: nat) {
    forall i {:trigger s.slots[i]} :: 0 <= i < |s.slots| ==> !DirtyAt(s, b, i)
  }

  /** The content of block b is v: in the DIRTY slot of b, or on disk if there is none. */
  ghost predicate Holds(s: State, b: nat, v: Data) {
    && (forall i {:trigger s.slots[i]} {:trigger s.ssd[i]} :: 0 <= i < |s.slots| && i < |s.ssd| && DirtyAt(s, b, i) ==> s.ssd[i] == v)
    && (NoDirty(s, b) ==> OnDisk(s, b) == v)
  }

  ghost predicate NoWrite(s: State, b: nat) {
    forall y {:trigger s.bios[y]} :: y in s.bios && s.bios[y].bio.write ==> s.bios[y].bio.dbn != b
  }

  /** The request is past the point where it could meet a DIRTY slot of its block. */
  predicate Past(s: State, p: Place) {
    p == Uncached || p == Hand || p.Detached? || (p.Queued? && p.i < |s.slots| && !s.slots[p.i].bits.valid)
  }

  predicate Executed(f: Flight) { f.ran && (f.place == Uncached || f.place == Hand) }

  ghost predicate FlightOk(s: State, x: nat, f: Flight) {
    f.alone ==>
      var b := f.bio.dbn;
      && (forall y {:trigger s.bios[y]} :: y in s.bios && y != x && s.bios[y].bio.write ==> s.bios[y].bio.dbn != b)
      && f.pre == Logical(s, b)
      && (Past(s, f.place) ==> NoDirty(s, b))
      && (!f.bio.write && Executed(f) ==> f.got == f.pre)
      && (f.bio.write ==> Holds(s, b, f.pre) || Holds(s, b, Patch(f.pre, f.bio)))
      && (f.bio.write && Executed(f) ==> OnDisk(s, b) == Patch(f.pre, f.bio))
  }

  /** A read that met no write has in its buffer what its block held. */
  predicate BufferOk(s: State, i: nat)
    requires i < |s.slots|
  {
    match s.slots[i].work
    case ReadCache(x, got) => got.Some? && x in s.bios && s.bios[x].alone ==> got.value == s.bios[x].pre
    case ReadDisk(x, got) => got.Some? && x in s.bios && s.bios[x].alone ==> got.value == s.bios[x].pre
    case ReadFill(x, data, _) => x in s.bios && s.bios[x].alone ==> data == s.bios[x].pre
    case _ => true
  }

  predicate AckOk(a: Ack) {
    a.alone ==> a.result == if a.bio.write then Patch(a.pre, a.bio) else a.pre
  }

  ghost predicate Register(c: Config, s: State) {
    && (forall x {:trigger s.bios[x]} {:trigger FlightOk(s, x, s.bios[x])} :: x in s.bios ==> FlightOk(s, x, s.bios[x]))
    && (forall i {:trigger s.slots[i]} {:trigger BufferOk(s, i)} :: 0 <= i < |s.slots| ==> BufferOk(s, i))
    && (forall b: nat :: NoWrite(s, b) ==> Holds(s, b, Logical(s, b)))
    && (forall k {:trigger s.log[k]} :: 0 <= k < |s.log| ==> AckOk(s.log[k]))
  }

  ghost predicate Inv(c: Config, s: State) {
    Slots(c, s) && Bios(c, s) && History(s) && Meta(c, s) && Content(c, s) && Register(c, s)
  }
}
