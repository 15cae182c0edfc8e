/** What the protocol guarantees in every reachable state, whatever the interleaving. */
module Guarantees {
  import opened Types
  import opened Protocol
  import opened Invariant
  import opened Frames
  import opened Steps
  import opened CrashProofs
  import opened Handover
  import opened Durability
  import opened Theorems

  // ----- crash consistency -----

  /** Slot i answers a read of block b with its own data: not while it is being filled. */
  predicate Serves(s: State, b: nat, i: nat)
    requires i < |s.slots|
  {
    s.slots[i].bits.valid && s.slots[i].dbn == b && (s.slots[i].bits.dirty || !s.slots[i].bits.diskRead)
  }

  /** What the running cache answers a read of block b with, once it gets to it. */
  ghost function Served(s: State, b: nat): Data {
    if i :| 0 <= i < |s.slots| && i < |s.ssd| && Serves(s, b, i) then s.ssd[i] else OnDisk(s, b)
  }

  lemma SlotServes(c: Config, s: State, b: nat, i: nat)
    requires Inv(c, s) && NoWrite(s, b) && i < c.size && Serves(s, b, i)
    ensures s.ssd[i] == Logical(s, b)
  {
    assert SlotOk(c, i, s.slots[i]) && JobOk(s, i) && ContentOk(c, s, i) && Holds(s, b, Logical(s, b));
    if s.slots[i].bits.dirty {
      assert DirtyAt(s, b, i);
    } else {
      forall k | 0 <= k < |s.slots| ensures !DirtyAt(s, b, k) { assert SlotOk(c, k, s.slots[k]); }
      assert NoDirty(s, b);
      NoExcuse(c, s, i);
    }
  }

  lemma DirtyServes(c: Config, s: State, b: nat)
    requires Slots(c, s) && forall i {:trigger s.slots[i]} :: 0 <= i < c.size ==> !Serves(s, b, i)
    ensures NoDirty(s, b)
  {
    forall i | 0 <= i < |s.slots| ensures !DirtyAt(s, b, i) { assert SlotOk(c, i, s.slots[i]); }
  }

  lemma ServedContent(c: Config, s: State, b: nat)
    requires Inv(c, s) && NoWrite(s, b)
    ensures Served(s, b) == Logical(s, b)
  {
    forall i | 0 <= i < |s.slots| && Serves(s, b, i) ensures s.ssd[i] == Logical(s, b) { SlotServes(c, s, b, i); }
    if forall i {:trigger s.slots[i]} :: 0 <= i < c.size ==> !Serves(s, b, i) {
      DirtyServes(c, s, b);
      assert Holds(s, b, Logical(s, b));
    }
  }

  /** Power may fail at any point of any run: for every block no write is under way for,
      the DIRTY records overlaid on the disk give what the running cache would have
      served, the reloaded cache serves it too, and unless the block is torn it is what the
      acknowledged writes made of the initial disk. */
  lemma CrashConsistency(c: Config, disk: map<nat, Data>, s: State, b: nat)
    requires WellFormed(c) && Reachable(c, disk, s) && NoWrite(s, b)
    ensures Recovered(s, b) == Served(s, b)
    ensures |s.md| == |c.setOf| && Served(Crash(c, s), b) == Recovered(s, b)
    ensures b !in s.torn ==> Recovered(s, b) == Replayed(s.log, b, At(disk, b, map[]))
  {
    ReachableGood(c, disk, s);
    ServedContent(c, s, b);
    RecoveredContent(c, s, b);
    CrashKeeps(c, s);
    CrashUncut(c, s, b);
    ServedContent(c, Crash(c, s), b);
    assert b !in s.torn ==> Logical(s, b) == Replayed(s.log, b, At(disk, b, map[]));
  }

  /** A DIRTY slot whose record is already clean has its data on disk, also when the only
      unfinished write of the block has met no other. */
  lemma LoneWriteUnrecorded(c: Config, s: State, x: nat, i: nat)
    requires Inv(c, s) && x in s.bios && s.bios[x].bio.write && s.bios[x].alone && i < c.size
    requires DirtyAt(s, s.bios[x].bio.dbn, i) && !s.md[i].dirty
    ensures OnDisk(s, s.slots[i].dbn) == s.ssd[i]
  {
    var h := s.heads[c.mdOf[i]];
    assert SlotOk(c, i, s.slots[i]) && RecOk(c, s, i) && HeadOk(c, s, c.mdOf[i]) && i in h.active;
    var k :| 0 <= k < |h.active| && h.active[k] == i;
    assert All(h)[k] == i;
    assert s.slots[i].work.MdClean? && ContentOk(c, s, i);
    LoneWriteNoExcuse(c, s, x, i);
  }

  lemma LoneWriteNoExcuse(c: Config, s: State, x: nat, i: nat)
    requires Bios(c, s) && Register(c, s) && x in s.bios && s.bios[x].bio.write && s.bios[x].alone && i < |s.slots|
    requires DirtyAt(s, s.bios[x].bio.dbn, i)
    ensures !Excused(s, i)
  {
    assert FlightOk(s, x, s.bios[x]) && EntriesOk(s, i);
    assert !NoDirty(s, s.bios[x].bio.dbn) && !Past(s, s.bios[x].place);
    forall e | e in s.slots[i].pend && e.id in s.bios && s.bios[e.id].bio.write ensures s.bios[e.id].alone {
      var k :| 0 <= k < |s.slots[i].pend| && s.slots[i].pend[k] == e;
    }
  }

  /** ... and if one write of the block is unfinished, having met no other, the crash
      leaves all of it or nothing. */
  lemma CrashAtomicity(c: Config, disk: map<nat, Data>, s: State, x: nat)
    requires WellFormed(c) && Reachable(c, disk, s) && x in s.bios && s.bios[x].bio.write && s.bios[x].alone
    ensures var b := s.bios[x].bio.dbn;
            Recovered(s, b) == Logical(s, b) || Recovered(s, b) == Patch(Logical(s, b), s.bios[x].bio)
  {
    ReachableGood(c, disk, s);
    var b := s.bios[x].bio.dbn;
    assert FlightOk(s, x, s.bios[x]);
    if i :| 0 <= i < c.size && s.md[i].dirty && s.md[i].dbn == b {
      RecoveredUnique(c, s, b, i);
      LoneWriteRecorded(c, s, x, i);
    } else if i :| 0 <= i < c.size && DirtyAt(s, b, i) {
      LoneWriteUnrecorded(c, s, x, i);
    } else {
      assert NoDirty(s, b);
    }
  }

  lemma LoneWriteRecorded(c: Config, s: State, x: nat, i: nat)
    requires Inv(c, s) && x in s.bios && s.bios[x].bio.write && s.bios[x].alone && i < c.size
    requires s.md[i].dirty && s.md[i].dbn == s.bios[x].bio.dbn
    ensures DirtyAt(s, s.bios[x].bio.dbn, i) || s.ssd[i] == Patch(s.bios[x].pre, s.bios[x].bio)
  {
    DirtyRec(c, s, i);
    assert FlightOk(s, x, s.bios[x]) && SlotOk(c, i, s.slots[i]) && RecOk(c, s, i) && JobOk(s, i) && ContentOk(c, s, i);
    if !s.slots[i].bits.dirty {
      var h := s.heads[c.mdOf[i]];
      assert HeadOk(c, s, c.mdOf[i]) && i in h.active;
      assert s.slots[i].work.MdDirty?;
    }
  }

  // ----- coherence -----

  /** An idle VALID slot that is not DIRTY agrees with the disk, unless an uncached write
      of its block has been started and not yet ended. */
  lemma Coherence(c: Config, disk: map<nat, Data>, s: State, i: nat)
    requires WellFormed(c) && Reachable(c, disk, s) && i < |s.slots|
    requires s.slots[i].bits.valid && !s.slots[i].bits.dirty && !s.slots[i].bits.Busy()
    ensures i < |s.ssd| && (s.ssd[i] == OnDisk(s, s.slots[i].dbn)
            || exists x :: x in s.bios && s.bios[x].bio.write && s.bios[x].bio.dbn == s.slots[i].dbn && s.bios[x].place == Uncached)
  {
    ReachableGood(c, disk, s);
    assert SlotOk(c, i, s.slots[i]) && ContentOk(c, s, i);
    assert s.slots[i].work.NoWork? && s.slots[i].pend == [];
  }

  // ----- no lost I/O -----

  /** Request x is with the job, in the pending table or on the drain list the place names. */
  predicate HeldAt(s: State, x: nat, p: Place) {
    p.Uncached? || (Seat(p).Some? && PlaceOk(s, x, p))
  }

  /** Every request ever submitted is in exactly one of three groups: unfinished, ended
      exactly once, or cut off by a crash. */
  lemma EndedOnce(c: Config, disk: map<nat, Data>, s: State, x: nat)
    requires WellFormed(c) && Reachable(c, disk, s)
    ensures x < s.nextId <==> x in s.bios || x in s.lost || x in Acked(s.log)
    ensures !(x in s.bios && x in s.lost) && !(x in s.bios && x in Acked(s.log)) && !(x in s.lost && x in Acked(s.log))
    ensures forall k, l :: 0 <= k < |s.log| && 0 <= l < |s.log| && s.log[k].id == x == s.log[l].id ==> k == l
  {
    ReachableGood(c, disk, s);
    if x in Acked(s.log) {
      var a :| a in s.log && a.id == x;
      var k :| 0 <= k < |s.log| && s.log[k] == a;
    }
  }

  /** An unfinished request is held in exactly one place, and nobody else is held. */
  lemma HeldOnce(c: Config, disk: map<nat, Data>, s: State, x: nat, i: nat)
    requires WellFormed(c) && Reachable(c, disk, s) && i < |s.slots|
    ensures x in s.bios ==> HeldAt(s, x, s.bios[x].place)
    ensures Holder(s.slots[i].work) == Some(x) <==> x in s.bios && s.bios[x].place == OnSlot(i)
    ensures Has(s.slots[i].pend, x) <==> x in s.bios && s.bios[x].place == Queued(i)
    ensures Has(Rest(s.slots[i].work), x) <==> x in s.bios && s.bios[x].place == Detached(i)
  {
    ReachableGood(c, disk, s);
    assert JobOk(s, i) && EntriesOk(s, i);
    if x in s.bios { assert PlaceOk(s, x, s.bios[x].place); }
    ListedAt(s, s.slots[i].pend, Queued(i), s.slots[i].dbn, x);
    ListedAt(s, Rest(s.slots[i].work), Detached(i), s.slots[i].dbn, x);
  }

  lemma ListedAt(s: State, q: seq<Entry>, p: Place, dbn: nat, x: nat)
    requires ListOk(s, q, p, dbn)
    ensures Has(q, x) ==> x in s.bios && s.bios[x].place == p
  {
    if Has(q, x) { var k :| 0 <= k < |q| && q[k].id == x; }
  }

  function Ids(q: seq<Entry>): set<nat> { set e | e in q :: e.id }

  lemma {:induction false} DistinctCount(s: State, q: seq<Entry>, p: Place, dbn: nat)
    requires ListOk(s, q, p, dbn)
    ensures |Ids(q)| == |q|
  {
    if q != [] {
      var n := |q| - 1;
      DistinctCount(s, q[..n], p, dbn);
      assert q == q[..n] + [q[n]];
      assert Ids(q) == Ids(q[..n]) + {q[n].id};
      assert q[n].id !in Ids(q[..n]);
    }
  }

  ghost function Waiting(s: State, i: nat): set<nat> {
    set x | x in s.bios && (s.bios[x].place == Queued(i) || s.bios[x].place == Detached(i))
  }

  lemma WaitingCount(s: State, i: nat)
    requires i < |s.slots| && EntriesOk(s, i)
    requires forall x {:trigger s.bios[x]} :: x in s.bios ==> PlaceOk(s, x, s.bios[x].place)
    ensures |Waiting(s, i)| == |s.slots[i].pend| + |Rest(s.slots[i].work)|
  {
    var sl := s.slots[i];
    DistinctCount(s, sl.pend, Queued(i), sl.dbn);
    DistinctCount(s, Rest(sl.work), Detached(i), sl.dbn);
    forall x ensures x in Waiting(s, i) <==> x in Ids(sl.pend) + Ids(Rest(sl.work)) { WaitingIds(s, i, x); }
    assert Waiting(s, i) == Ids(sl.pend) + Ids(Rest(sl.work));
    forall x | x in Ids(sl.pend) ensures x !in Ids(Rest(sl.work)) { WaitingIds(s, i, x); }
    assert Ids(sl.pend) !! Ids(Rest(sl.work));
  }

  lemma WaitingIds(s: State, i: nat, x: nat)
    requires i < |s.slots| && EntriesOk(s, i) && (x in s.bios ==> PlaceOk(s, x, s.bios[x].place))
    ensures x in Ids(s.slots[i].pend) <==> x in s.bios && s.bios[x].place == Queued(i)
    ensures x in Ids(Rest(s.slots[i].work)) <==> x in s.bios && s.bios[x].place == Detached(i)
  {
  }

  /** nr_queued counts exactly the requests waiting for the slot, in the table or detached
      by its drain; a slot with waiting requests has an I/O bit set, and the I/O bits are
      set exactly while a job or a drain owns the slot. */
  lemma QueuedCount(c: Config, disk: map<nat, Data>, s: State, i: nat)
    requires WellFormed(c) && Reachable(c, disk, s) && i < |s.slots|
    ensures s.slots[i].nrQueued == |Waiting(s, i)|
    ensures s.slots[i].nrQueued > 0 ==> s.slots[i].bits.Busy()
    ensures s.slots[i].work.NoWork? <==> !s.slots[i].bits.Busy()
  {
    ReachableGood(c, disk, s);
    assert SlotOk(c, i, s.slots[i]) && EntriesOk(s, i);
    WaitingCount(s, i);
  }

  /** A slot whose state word is exactly VALID, as reclaim asks of a victim, is clean, owned by
      no job and waited for by nobody. */
  lemma VictimIdle(c: Config, disk: map<nat, Data>, s: State, i: nat)
    requires WellFormed(c) && Reachable(c, disk, s) && i < |s.slots| && s.slots[i].bits == VALID
    ensures s.slots[i].work.NoWork? && s.slots[i].nrQueued == 0 && s.slots[i].pend == [] && Waiting(s, i) == {}
    ensures forall x :: x in s.bios ==> s.bios[x].place != OnSlot(i)
  {
    ReachableGood(c, disk, s);
    assert SlotOk(c, i, s.slots[i]) && EntriesOk(s, i);
    WaitingCount(s, i);
    forall x | x in s.bios ensures s.bios[x].place != OnSlot(i) { assert PlaceOk(s, x, s.bios[x].place); }
  }

  // ----- metadata batching -----

  /** While no write of a metadata block is in flight or being completed, every one of its
      records tells the in-core DIRTY bit, and the dbn of a DIRTY slot. While one is, what
      it writes for a slot is that, or the outcome of the slot's own job. Each slot with a
      metadata update is on its block's lists exactly once. */
  lemma MetadataFollows(c: Config, disk: map<nat, Data>, s: State, i: nat)
    requires WellFormed(c) && Reachable(c, disk, s) && i < |s.slots|
    ensures Idx(c, s, i)
    ensures var h := s.heads[c.mdOf[i]];
      && (h.io.MdIdle? || h.io.MdScheduled? ==> Current(s.slots[i], s.md[i]))
      && (h.io.MdWriting? && i in h.io.snap ==> Current(s.slots[i], h.io.snap[i]) || (i in h.active && Target(s.slots[i], h.io.snap[i])))
      && (InMd(s.slots[i].work) <==> multiset(h.active + h.queue)[i] == 1)
      && (!InMd(s.slots[i].work) <==> multiset(h.active + h.queue)[i] == 0)
  {
    ReachableGood(c, disk, s);
    var m := c.mdOf[i];
    assert RecOk(c, s, i) && HeadOk(c, s, m) && s.slots[i] == s.slots[i];
    OnceIn(All(s.heads[m]), i);
    if i in All(s.heads[m]) {
      var k :| 0 <= k < |All(s.heads[m])| && All(s.heads[m])[k] == i;
    }
  }

  lemma {:induction false} OnceIn(q: seq<nat>, x: nat)
    requires forall k, l {:trigger q[k], q[l]} :: 0 <= k < l < |q| ==> q[k] != q[l]
    ensures multiset(q)[x] == if x in q then 1 else 0
  {
    if q != [] {
      var n := |q| - 1;
      OnceIn(q[..n], x);
      assert q == q[..n] + [q[n]];
    }
  }

  // ----- what a request is told, and what a step may change -----

  /** A read that no write of its block overlapped returns what the block held when it
      was submitted; such a write leaves that patched. */
  lemma RegisterLaw(c: Config, disk: map<nat, Data>, s: State, k: nat)
    requires WellFormed(c) && Reachable(c, disk, s) && k < |s.log| && s.log[k].alone
    ensures s.log[k].result == if s.log[k].bio.write then Patch(s.log[k].pre, s.log[k].bio) else s.log[k].pre
  {
    ReachableGood(c, disk, s);
    assert AckOk(s.log[k]);
  }

  lemma QuietTransparent(s: State, t: State, b: nat)
    requires Quiet(s, t) && NoWrite(s, b)
    ensures NoWrite(t, b) && Logical(t, b) == Logical(s, b)
  {
    if x :| Ends(s, t, x) { assert s.bios[x].bio.write ==> s.bios[x].bio.dbn != b; }
  }

  lemma StepTransparent(c: Config, s: State, step: Step, b: nat)
    requires Enabled(c, s, step) && NoWrite(s, b) && !(step.Map? && step.bio.write && step.bio.dbn == b)
    ensures NoWrite(Apply(c, s, step), b) && Logical(Apply(c, s, step), b) == Logical(s, b)
  {
    if step.Map? {
      SubmitStill(c, s, step.bio, step.hit, step.victim, step.skip);
      assert NoWrite(NewBio(s, step.bio), b);
      QuietTransparent(NewBio(s, step.bio), Apply(c, s, step), b);
    } else if step.PowerLoss? {
      CrashUncut(c, s, b);
    } else {
      if Ending(step) { EndingQuiet(c, s, step); } else if IsEffect(step) { EffectStill(c, s, step); } else { SectionStill(c, s, step); }
      QuietTransparent(s, Apply(c, s, step), b);
    }
  }

  /** No step, cleaning, draining, crash and reload included, changes what a block reads
      as, except a write of the block. */
  lemma Transparent(c: Config, disk: map<nat, Data>, s: State, step: Step, b: nat)
    requires WellFormed(c) && Reachable(c, disk, s) && Enabled(c, s, step) && NoWrite(s, b)
    requires !(step.Map? && step.bio.write && step.bio.dbn == b)
    ensures Served(Apply(c, s, step), b) == Served(s, b)
  {
    ReachableGood(c, disk, s);
    StepKeeps(c, s, step);
    StepTransparent(c, s, step, b);
    ServedContent(c, s, b);
    ServedContent(c, Apply(c, s, step), b);
  }
}
