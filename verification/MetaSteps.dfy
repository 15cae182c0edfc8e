/** Metadata batching keeps the invariant. */
module MetaSteps {
  import opened Types
  import opened Protocol
  import opened Invariant
  import opened Frames
  import opened SlotSteps
  import opened EndSteps

  // ----- md_write: a job is handed over -----

  /** Slot i's job goes to the metadata block: `u` is s with that job, not yet in the head. */
  ghost predicate HandedOver(c: Config, s: State, u: State, i: nat) {
    && Shape(c, s) && Shape(c, u) && i < c.size && SlotsOff(s, u, i) && u.heads == s.heads && u.md == s.md
    && !InMd(s.slots[i].work) && InMd(u.slots[i].work)
    && u.slots[i].bits == s.slots[i].bits && u.slots[i].dbn == s.slots[i].dbn
  }

  /** The jobs already on a head are of other slots, which stay as they are. */
  lemma OthersOnHead(c: Config, s: State, u: State, i: nat, m: nat)
    requires Slots(c, s) && Meta(c, s) && HandedOver(c, s, u, i) && m < c.mdBlocks
    ensures forall k {:trigger All(s.heads[m])[k]} :: 0 <= k < |All(s.heads[m])| ==>
              All(s.heads[m])[k] < c.size && All(s.heads[m])[k] != i && u.slots[All(s.heads[m])[k]] == s.slots[All(s.heads[m])[k]]
              && c.mdOf[All(s.heads[m])[k]] == m && InMd(s.slots[All(s.heads[m])[k]].work)
  {
    assert HeadOk(c, s, m);
  }

  lemma HeadSame(c: Config, s: State, t: State, m: nat)
    requires m < |s.heads| == |t.heads| && HeadOk(c, s, m) && t.heads[m] == s.heads[m] && |t.slots| == |s.slots|
    requires forall k {:trigger All(s.heads[m])[k]} :: 0 <= k < |All(s.heads[m])| ==>
               All(s.heads[m])[k] < |s.slots| && InMd(t.slots[All(s.heads[m])[k]].work)
    ensures HeadOk(c, t, m)
  {
    var q := All(s.heads[m]);
    forall k | 0 <= k < |q| ensures q[k] < |t.slots| == |c.mdOf| && c.mdOf[q[k]] == m && InMd(t.slots[q[k]].work) {}
  }

  lemma HeadGrown(c: Config, s: State, t: State, m: nat, i: nat)
    requires m < |s.heads| == |t.heads| && HeadOk(c, s, m) && |t.slots| == |s.slots| == |c.mdOf| && i < |t.slots| && c.mdOf[i] == m
    requires s.heads[m].io != MdIdle && t.heads[m] == s.heads[m].(queue := s.heads[m].queue + [i]) && InMd(t.slots[i].work)
    requires forall k {:trigger All(s.heads[m])[k]} :: 0 <= k < |All(s.heads[m])| ==>
               All(s.heads[m])[k] < |s.slots| && All(s.heads[m])[k] != i && InMd(t.slots[All(s.heads[m])[k]].work)
    ensures HeadOk(c, t, m)
  {
    var q, r := All(s.heads[m]), All(t.heads[m]);
    assert r == q + [i];
    forall k | 0 <= k < |r| ensures r[k] < |t.slots| && c.mdOf[r[k]] == m && InMd(t.slots[r[k]].work) {
      if k < |q| { assert r[k] == q[k]; }
    }
    forall k, l | 0 <= k < l < |r| ensures r[k] != r[l] {
      assert r[k] == q[k];
      if l < |q| { assert r[l] == q[l]; }
    }
  }

  lemma MdWriteHead(c: Config, s: State, u: State, i: nat, m: nat)
    requires Idx(c, u, i) && |u.slots| == |s.slots| && u.heads == s.heads && m < |s.heads| && HeadOk(c, s, m) && InMd(u.slots[i].work)
    requires forall k {:trigger All(s.heads[m])[k]} :: 0 <= k < |All(s.heads[m])| ==>
               All(s.heads[m])[k] < |s.slots| && All(s.heads[m])[k] != i && InMd(u.slots[All(s.heads[m])[k]].work)
    ensures HeadOk(c, MdWrite(c, u, i), m)
  {
    var t := MdWrite(c, u, i);
    if m != c.mdOf[i] {
      HeadSame(c, s, t, m);
    } else if s.heads[m].io != MdIdle {
      HeadGrown(c, s, t, m, i);
    } else {
      assert t.heads[m] == MdHead(MdScheduled, [i], []);
      assert All(t.heads[m]) == [i];
    }
  }

  lemma MdWriteHeads(c: Config, s: State, u: State, i: nat)
    requires Slots(c, s) && Meta(c, s) && HandedOver(c, s, u, i) && Slots(c, u)
    ensures forall m {:trigger HeadOk(c, MdWrite(c, u, i), m)} :: 0 <= m < c.mdBlocks ==> HeadOk(c, MdWrite(c, u, i), m)
  {
    assert c.mdOf[i] < c.mdBlocks && c.setOf[i] < c.sets;
    forall m | 0 <= m < c.mdBlocks ensures HeadOk(c, MdWrite(c, u, i), m) {
      assert HeadOk(c, s, m);
      OthersOnHead(c, s, u, i, m);
      MdWriteHead(c, s, u, i, m);
    }
  }

  lemma MdWriteRecs(c: Config, s: State, u: State, i: nat)
    requires Slots(c, s) && Meta(c, s) && HandedOver(c, s, u, i) && Slots(c, u)
    ensures var t := MdWrite(c, u, i);
            forall k {:trigger t.slots[k]} :: 0 <= k < c.size ==> RecOk(c, t, k) && (InMd(t.slots[k].work) ==> k in All(t.heads[c.mdOf[k]]))
  {
    var t := MdWrite(c, u, i);
    forall k | 0 <= k < c.size
      ensures RecOk(c, t, k) && (InMd(t.slots[k].work) ==> k in All(t.heads[c.mdOf[k]]))
    {
      var m := c.mdOf[k];
      assert RecOk(c, s, k) && HeadOk(c, s, m);
      assert InMd(s.slots[k].work) ==> k in All(s.heads[m]);
      if m == c.mdOf[i] && s.heads[m].io != MdIdle {
        assert All(t.heads[m]) == All(s.heads[m]) + [i];
      }
      if k == i { NotYet(c, s, i); }
    }
  }

  lemma NotYet(c: Config, s: State, i: nat)
    requires Slots(c, s) && Meta(c, s) && i < c.size && !InMd(s.slots[i].work)
    ensures i !in All(s.heads[c.mdOf[i]]) && i !in s.heads[c.mdOf[i]].active
  {
    var h := s.heads[c.mdOf[i]];
    assert HeadOk(c, s, c.mdOf[i]);
    assert forall k {:trigger All(h)[k]} :: 0 <= k < |All(h)| ==> All(h)[k] != i;
    assert forall k {:trigger h.active[k]} :: 0 <= k < |h.active| ==> All(h)[k] == h.active[k];
  }

  lemma MdWriteMeta(c: Config, s: State, u: State, i: nat)
    requires Slots(c, s) && Meta(c, s) && HandedOver(c, s, u, i) && Slots(c, u) && Slots(c, MdWrite(c, u, i))
    ensures Meta(c, MdWrite(c, u, i))
  {
    MdWriteHeads(c, s, u, i);
    MdWriteRecs(c, s, u, i);
  }

  lemma MdWriteKeeps(c: Config, s: State, u: State, i: nat)
    requires Inv(c, s) && HandedOver(c, s, u, i)
    requires Slots(c, u) && Bios(c, u) && History(u) && Content(c, u) && Register(c, u)
    ensures Inv(c, MdWrite(c, u, i))
  {
    var t := MdWrite(c, u, i);
    MetaOnlyKeeps(c, u, t);
    MetaOnlyContent(c, u, t);
    MdWriteMeta(c, s, u, i);
  }

  lemma ToMdDirtyKeeps(c: Config, s: State, i: nat)
    requires Inv(c, s) && Idx(c, s, i) && s.slots[i].work.WriteCache? && s.slots[i].work.stored
    requires c.mode == WriteBack && !s.slots[i].bits.dirty
    ensures Inv(c, IoCallback(c, s, i))
  {
    var u := WithWork(s, i, MdDirty(s.slots[i].work.id));
    assert SlotOk(c, i, s.slots[i]) && SlotOk(c, i, u.slots[i]) && ContentOk(c, s, i);
    SlotOnlyChange(c, s, u, i);
    MdWriteKeeps(c, s, u, i);
  }

  lemma ToMdCleanKeeps(c: Config, s: State, i: nat)
    requires Inv(c, s) && Idx(c, s, i) && s.slots[i].work.WriteDisk? && s.slots[i].work.stored
    ensures Inv(c, KcopydCallback(c, s, i))
  {
    var u := WithWork(s, i, MdClean);
    assert SlotOk(c, i, s.slots[i]) && SlotOk(c, i, u.slots[i]) && ContentOk(c, s, i);
    MatchesSame(s, u, i, s.ssd[i]);
    SlotOnlyChange(c, s, u, i);
    MdWriteKeeps(c, s, u, i);
  }

  // ----- kickoff, effect, completion of the write of block m -----

  lemma MdKickoffMeta(c: Config, s: State, m: nat)
    requires Slots(c, s) && Meta(c, s) && m < c.mdBlocks && s.heads[m].io.MdScheduled?
    requires Slots(c, MdKickoff(c, s, m))
    ensures Meta(c, MdKickoff(c, s, m))
  {
    var t := MdKickoff(c, s, m);
    var h := s.heads[m];
    assert HeadOk(c, s, m);
    assert All(t.heads[m]) == All(h);
    forall k | 0 <= k < c.size
      ensures RecOk(c, t, k) && (InMd(t.slots[k].work) ==> k in All(t.heads[c.mdOf[k]]))
    {
      assert RecOk(c, s, k) && SlotOk(c, k, s.slots[k]);
      assert InMd(s.slots[k].work) ==> k in All(s.heads[c.mdOf[k]]);
    }
    forall n | 0 <= n < c.mdBlocks
      ensures HeadOk(c, t, n)
    {
      assert HeadOk(c, s, n);
    }
  }

  lemma MdKickoffKeeps(c: Config, s: State, m: nat)
    requires Inv(c, s) && m < c.mdBlocks && s.heads[m].io.MdScheduled?
    ensures Inv(c, MdKickoff(c, s, m))
  {
    var t := MdKickoff(c, s, m);
    MetaOnlyKeeps(c, s, t);
    MetaOnlyContent(c, s, t);
    MdKickoffMeta(c, s, m);
  }

  lemma FxMetadataMeta(c: Config, s: State, m: nat, k: nat)
    requires Slots(c, s) && Meta(c, s) && m < c.mdBlocks && s.heads[m].io.MdWriting? && k in s.heads[m].io.snap && k < |s.md|
    requires Slots(c, FxMetadata(s, m, k))
    ensures Meta(c, FxMetadata(s, m, k))
  {
    var t := FxMetadata(s, m, k);
    assert HeadOk(c, s, m) && c.mdOf[k] == m;
    forall j | 0 <= j < c.size
      ensures RecOk(c, t, j) && (InMd(t.slots[j].work) ==> j in All(t.heads[c.mdOf[j]]))
    {
      assert RecOk(c, s, j);
      assert InMd(s.slots[j].work) ==> j in All(s.heads[c.mdOf[j]]);
    }
    forall n | 0 <= n < c.mdBlocks
      ensures HeadOk(c, t, n)
    {
      assert HeadOk(c, s, n);
    }
  }

  lemma FxMetadataKeeps(c: Config, s: State, m: nat, k: nat)
    requires Inv(c, s) && m < c.mdBlocks && s.heads[m].io.MdWriting? && k in s.heads[m].io.snap && k < |s.md|
    ensures Inv(c, FxMetadata(s, m, k))
  {
    var t := FxMetadata(s, m, k);
    MetaOnlyKeeps(c, s, t);
    MetaOnlyContent(c, s, t);
    FxMetadataMeta(c, s, m, k);
  }

  lemma MdDoneMeta(c: Config, s: State, m: nat)
    requires Slots(c, s) && Meta(c, s) && m < c.mdBlocks && s.heads[m].io.MdWriting? && s.heads[m].io.snap.Keys <= s.heads[m].io.applied
    requires Slots(c, MdDone(s, m))
    ensures Meta(c, MdDone(s, m))
  {
    var t := MdDone(s, m);
    assert HeadOk(c, s, m) && All(t.heads[m]) == All(s.heads[m]);
    forall j | 0 <= j < c.size
      ensures RecOk(c, t, j) && (InMd(t.slots[j].work) ==> j in All(t.heads[c.mdOf[j]]))
    {
      assert RecOk(c, s, j);
      assert InMd(s.slots[j].work) ==> j in All(s.heads[c.mdOf[j]]);
    }
    forall n | 0 <= n < c.mdBlocks
      ensures HeadOk(c, t, n)
    {
      assert HeadOk(c, s, n);
    }
  }

  lemma MdDoneKeeps(c: Config, s: State, m: nat)
    requires Inv(c, s) && m < c.mdBlocks && s.heads[m].io.MdWriting? && s.heads[m].io.snap.Keys <= s.heads[m].io.applied
    ensures Inv(c, MdDone(s, m))
  {
    var t := MdDone(s, m);
    MetaOnlyKeeps(c, s, t);
    MetaOnlyContent(c, s, t);
    MdDoneMeta(c, s, m);
  }

  lemma MdNextMeta(c: Config, s: State, m: nat)
    requires Slots(c, s) && Meta(c, s) && m < c.mdBlocks && s.heads[m].io.MdCompleting? && s.heads[m].active == []
    requires Slots(c, MdNext(s, m))
    ensures Meta(c, MdNext(s, m))
  {
    var t := MdNext(s, m);
    assert HeadOk(c, s, m);
    assert All(t.heads[m]) == All(s.heads[m]);
    forall j | 0 <= j < c.size
      ensures RecOk(c, t, j) && (InMd(t.slots[j].work) ==> j in All(t.heads[c.mdOf[j]]))
    {
      assert RecOk(c, s, j);
      assert InMd(s.slots[j].work) ==> j in All(s.heads[c.mdOf[j]]);
    }
    forall n | 0 <= n < c.mdBlocks
      ensures HeadOk(c, t, n)
    {
      assert HeadOk(c, s, n);
    }
  }

  lemma MdNextKeeps(c: Config, s: State, m: nat)
    requires Inv(c, s) && m < c.mdBlocks && s.heads[m].io.MdCompleting? && s.heads[m].active == []
    ensures Inv(c, MdNext(s, m))
  {
    var t := MdNext(s, m);
    MetaOnlyKeeps(c, s, t);
    MetaOnlyContent(c, s, t);
    MdNextMeta(c, s, m);
  }

  // ----- md_write_done finishes one job -----

  /** The first job of m's list is done and the list has moved on. */
  ghost predicate FirstDone(c: Config, s: State, t: State, m: nat) {
    && Shape(c, s) && Shape(c, t) && WellFormed(c) && m < c.mdBlocks && s.heads[m].io.MdCompleting? && s.heads[m].active != []
    && t.md == s.md && t.heads == s.heads[m := s.heads[m].(active := s.heads[m].active[1..])]
    && var i := s.heads[m].active[0];
       i < c.size && SlotsOff(s, t, i) && t.slots[i].dbn == s.slots[i].dbn
       && t.slots[i].bits.dirty == s.slots[i].work.MdDirty? && !InMd(t.slots[i].work)
  }

  lemma FirstDoneRec(c: Config, s: State, t: State, m: nat, j: nat)
    requires FirstDone(c, s, t, m) && j < c.size && HeadOk(c, s, m) && RecOk(c, s, j)
    requires InMd(s.slots[j].work) ==> j in All(s.heads[c.mdOf[j]])
    ensures RecOk(c, t, j) && (InMd(t.slots[j].work) ==> j in All(t.heads[c.mdOf[j]]))
  {
    var h := s.heads[m];
    var i := h.active[0];
    assert All(h)[0] == i && c.mdOf[i] == m;
    assert All(h) == [i] + All(t.heads[m]) && h.active == [i] + h.active[1..];
    assert forall k {:trigger All(t.heads[m])[k]} :: 0 <= k < |All(t.heads[m])| ==> All(t.heads[m])[k] == All(h)[k + 1] && All(h)[k + 1] != i;
    if j == i { NotTwice(t.heads[m], i); } else { assert t.slots[j] == s.slots[j]; }
  }

  /** What every record tells after the first job of the list is done. */
  lemma MdDoneOneMeta(c: Config, s: State, t: State, m: nat)
    requires Slots(c, s) && Meta(c, s) && FirstDone(c, s, t, m) && Slots(c, t)
    ensures Meta(c, t)
  {
    forall j | 0 <= j < c.size
      ensures RecOk(c, t, j) && (InMd(t.slots[j].work) ==> j in All(t.heads[c.mdOf[j]]))
    {
      assert HeadOk(c, s, m) && RecOk(c, s, j) && (InMd(s.slots[j].work) ==> j in All(s.heads[c.mdOf[j]]));
      FirstDoneRec(c, s, t, m, j);
    }
    forall n | 0 <= n < c.mdBlocks
      ensures HeadOk(c, t, n)
    {
      assert HeadOk(c, s, n) && HeadOk(c, s, m);
      MdDoneOneHead(c, s, t, m, n);
    }
  }

  lemma NotTwice(h: MdHead, i: nat)
    requires forall k {:trigger All(h)[k]} :: 0 <= k < |All(h)| ==> All(h)[k] != i
    ensures i !in h.active
  {
    assert forall k {:trigger h.active[k]} :: 0 <= k < |h.active| ==> All(h)[k] == h.active[k];
  }

  lemma MdDoneOneHead(c: Config, s: State, t: State, m: nat, n: nat)
    requires m < c.mdBlocks && n < c.mdBlocks && Shape(c, s) && Shape(c, t) && WellFormed(c)
    requires HeadOk(c, s, m) && HeadOk(c, s, n) && s.heads[m].io.MdCompleting? && s.heads[m].active != []
    requires t.heads == s.heads[m := s.heads[m].(active := s.heads[m].active[1..])]
    requires s.heads[m].active[0] < c.size && SlotsOff(s, t, s.heads[m].active[0])
    ensures HeadOk(c, t, n)
  {
    var i := s.heads[m].active[0];
    assert All(s.heads[m])[0] == i && c.mdOf[i] == m;
    if n == m {
      assert All(s.heads[m]) == [i] + All(t.heads[m]);
      assert forall k {:trigger All(t.heads[m])[k]} :: 0 <= k < |All(t.heads[m])| ==> All(t.heads[m])[k] == All(s.heads[m])[k + 1];
    } else {
      assert forall k {:trigger All(s.heads[n])[k]} :: 0 <= k < |All(s.heads[n])| ==> All(s.heads[n])[k] != i;
    }
  }

  lemma FirstDoneKeeps(c: Config, s: State, u: State, t: State, m: nat)
    requires Slots(c, s) && Meta(c, s) && FirstDone(c, s, t, m) && MetaOnly(c, u, t)
    requires Slots(c, u) && Bios(c, u) && History(u) && Content(c, u) && Register(c, u)
    ensures Inv(c, t)
  {
    MetaOnlyKeeps(c, u, t);
    MetaOnlyContent(c, u, t);
    MdDoneOneMeta(c, s, t, m);
  }

  lemma MdDoneJobEnds(c: Config, s: State, i: nat)
    requires Idx(c, s, i) && s.slots[i].work.MdDirty?
    ensures MdDoneJob(c, s, i).(ctr := s.ctr) == EndJob(s, i, s.slots[i].work.id, s.ssd[i])
  {
  }

  lemma EndJobShape(c: Config, s: State, i: nat, x: nat, result: Data)
    requires Shape(c, s) && i < c.size && s.slots[i].work.MdDirty?
    ensures var u := EndJob(s, i, x, result);
            Shape(c, u) && SlotsOff(s, u, i) && u.slots[i].dbn == s.slots[i].dbn && u.slots[i].bits.dirty && !InMd(u.slots[i].work)
            && u.md == s.md
  {
  }

  lemma MdDoneDirtyShape(c: Config, s: State, m: nat)
    requires Shape(c, s) && WellFormed(c) && m < c.mdBlocks && s.heads[m].io.MdCompleting? && s.heads[m].active != []
    requires Idx(c, s, s.heads[m].active[0]) && s.slots[s.heads[m].active[0]].work.MdDirty?
    ensures FirstDone(c, s, MdDoneOne(c, s, m), m)
    ensures var i := s.heads[m].active[0]; MetaOnly(c, EndJob(s, i, s.slots[i].work.id, s.ssd[i]), MdDoneOne(c, s, m))
  {
    var i := s.heads[m].active[0];
    MdDoneJobEnds(c, s, i);
    EndJobShape(c, s, i, s.slots[i].work.id, s.ssd[i]);
  }

  lemma MdDoneDirtyKeeps(c: Config, s: State, m: nat)
    requires Inv(c, s) && m < c.mdBlocks && s.heads[m].io.MdCompleting? && s.heads[m].active != []
    requires Idx(c, s, s.heads[m].active[0]) && s.slots[s.heads[m].active[0]].work.MdDirty?
    ensures Inv(c, MdDoneOne(c, s, m))
  {
    var i := s.heads[m].active[0];
    MdDoneDirtyShape(c, s, m);
    EndJobChange(c, s, i, s.slots[i].work.id, s.ssd[i]);
    FirstDoneKeeps(c, s, EndJob(s, i, s.slots[i].work.id, s.ssd[i]), MdDoneOne(c, s, m), m);
  }

  // ----- ... whose slot becomes clean -----

  /** Slot i after its cleaning. */
  function Cleaned(s: State, i: nat): State
    requires i < |s.slots|
  {
    Release(WithSlot(s, i, s.slots[i].(bits := s.slots[i].bits.(dirty := false))), i)
  }

  predicate CanBeCleaned(c: Config, s: State, i: nat) {
    i < c.size == |s.slots| && s.slots[i].work.MdClean?
  }

  lemma CleanedMatches(s: State, i: nat, v: Data)
    requires i < |s.slots|
    ensures Matches(s, i, v) ==> Matches(Cleaned(s, i), i, v)
  {
    var t := Cleaned(s, i);
    TaintedSame(s, t, s.slots[i].dbn);
    if AwaitedByWrite(s, i) {
      var e :| e in s.slots[i].pend && e.id in s.bios && s.bios[e.id].bio.write && (s.slots[i].bits.dirty ==> !s.bios[e.id].alone);
      assert e in t.slots[i].pend && t.bios[e.id] == s.bios[e.id];
    }
  }

  lemma CleanedSlot(c: Config, s: State, i: nat)
    requires Slots(c, s) && Bios(c, s) && Content(c, s) && CanBeCleaned(c, s, i)
    ensures Shape(c, Cleaned(s, i)) && SlotInOrder(c, Cleaned(s, i), i)
  {
    assert SlotOk(c, i, s.slots[i]) && JobOk(s, i) && EntriesOk(s, i) && ContentOk(c, s, i);
    CleanedMatches(s, i, s.ssd[i]);
  }

  lemma CleanedOff(c: Config, s: State, i: nat)
    requires Slots(c, s) && CanBeCleaned(c, s, i)
    ensures Off(c, s, Cleaned(s, i), i, s.slots[i].dbn) && NoOther(s, s.slots[i].dbn, i)
  {
    assert SlotOk(c, i, s.slots[i]);
  }

  /** Once the copy on disk is good, clearing DIRTY moves the block's content there unchanged. */
  lemma CleanedHolds(c: Config, s: State, i: nat, v: Data)
    requires Slots(c, s) && CanBeCleaned(c, s, i) && OnDisk(s, s.slots[i].dbn) == s.ssd[i]
    ensures Holds(s, s.slots[i].dbn, v) ==> Holds(Cleaned(s, i), s.slots[i].dbn, v)
    ensures NoDirty(Cleaned(s, i), s.slots[i].dbn)
  {
    var t := Cleaned(s, i);
    var b := s.slots[i].dbn;
    assert SlotOk(c, i, s.slots[i]) && DirtyAt(s, b, i);
    forall k | 0 <= k < |t.slots| ensures !DirtyAt(t, b, k)
    {
      if k != i { assert t.slots[k] == s.slots[k] && SlotOk(c, k, s.slots[k]); }
    }
  }

  lemma CleanedFlight(c: Config, s: State, i: nat, y: nat)
    requires Slots(c, s) && Bios(c, s) && Content(c, s) && Register(c, s) && CanBeCleaned(c, s, i)
    requires y in s.bios && s.bios[y].bio.dbn == s.slots[i].dbn
    ensures FlightOk(Cleaned(s, i), y, s.bios[y])
  {
    var t := Cleaned(s, i);
    var f := s.bios[y];
    var b := s.slots[i].dbn;
    assert SlotOk(c, i, s.slots[i]) && ContentOk(c, s, i) && EntriesOk(s, i) && FlightOk(s, y, f);
    assert DirtyAt(s, b, i);
    if f.alone {
      assert !Excused(s, i);
      CleanedHolds(c, s, i, f.pre);
      CleanedHolds(c, s, i, Patch(f.pre, f.bio));
      assert f.place.Queued? && f.place.i < |s.slots| ==> t.slots[f.place.i].bits.valid == s.slots[f.place.i].bits.valid;
    }
  }

  lemma CleanedBlock(c: Config, s: State, i: nat)
    requires Slots(c, s) && Bios(c, s) && History(s) && Content(c, s) && Register(c, s) && CanBeCleaned(c, s, i)
    ensures BlockInOrder(c, Cleaned(s, i), i, s.slots[i].dbn)
  {
    var t := Cleaned(s, i);
    var b := s.slots[i].dbn;
    assert SlotOk(c, i, s.slots[i]) && ContentOk(c, s, i);
    forall y | y in t.bios && t.bios[y].bio.dbn == b ensures FlightOk(t, y, t.bios[y]) { CleanedFlight(c, s, i, y); }
    if NoWrite(t, b) {
      NoExcuse(c, s, i);
      CleanedHolds(c, s, i, Logical(s, b));
      assert NoWrite(s, b);
    }
    forall y | y in t.bios && Seat(t.bios[y].place) == Some(i)
      ensures PlaceOk(t, y, t.bios[y].place)
    {
      assert PlaceOk(s, y, s.bios[y].place);
    }
  }

  lemma MdDoneCleanShape(c: Config, s: State, m: nat)
    requires Shape(c, s) && WellFormed(c) && m < c.mdBlocks && s.heads[m].io.MdCompleting? && s.heads[m].active != []
    requires Idx(c, s, s.heads[m].active[0]) && s.slots[s.heads[m].active[0]].work.MdClean?
    ensures FirstDone(c, s, MdDoneOne(c, s, m), m)
    ensures MetaOnly(c, Cleaned(s, s.heads[m].active[0]), MdDoneOne(c, s, m))
  {
  }

  lemma CleanedChange(c: Config, s: State, i: nat)
    requires Inv(c, s) && CanBeCleaned(c, s, i)
    ensures var u := Cleaned(s, i);
            Slots(c, u) && Bios(c, u) && History(u) && Content(c, u) && Register(c, u)
  {
    CleanedSlot(c, s, i);
    CleanedOff(c, s, i);
    CleanedBlock(c, s, i);
    LocalChange(c, s, Cleaned(s, i), i, s.slots[i].dbn);
  }

  lemma MdDoneCleanKeeps(c: Config, s: State, m: nat)
    requires Inv(c, s) && m < c.mdBlocks && s.heads[m].io.MdCompleting? && s.heads[m].active != []
    requires Idx(c, s, s.heads[m].active[0]) && s.slots[s.heads[m].active[0]].work.MdClean?
    ensures Inv(c, MdDoneOne(c, s, m))
  {
    MdDoneCleanShape(c, s, m);
    CleanedChange(c, s, s.heads[m].active[0]);
    FirstDoneKeeps(c, s, Cleaned(s, s.heads[m].active[0]), MdDoneOne(c, s, m), m);
  }
}
