/** The critical sections and device effects that only change one slot's record keep the invariant. */
module SlotSteps {
  import opened Types
  import opened Protocol
  import opened Invariant
  import opened Frames

  lemma FxReadCacheKeeps(c: Config, s: State, i: nat)
    requires Inv(c, s) && i < c.size && s.slots[i].work.ReadCache?
    ensures Inv(c, FxReadCache(s, i))
  {
    var t := FxReadCache(s, i);
    var x := s.slots[i].work.id;
    assert SlotOk(c, i, s.slots[i]) && ContentOk(c, s, i) && JobOk(s, i) && SlotOk(c, i, t.slots[i]);
    if s.bios[x].alone {
      AloneRead(s, x);
      if s.slots[i].bits.dirty { QuietDirty(c, s, i); } else { QuietClean(c, s, i, s.ssd[i]); }
    }
    MatchesSame(s, t, i, s.ssd[i]);
    SlotOnlyKeeps(c, s, t, i);
  }

  lemma MatchesSame(s: State, t: State, i: nat, v: Data)
    requires i < |s.slots| == |t.slots| && t.bios == s.bios && t.disk == s.disk
    requires t.slots[i].dbn == s.slots[i].dbn && t.slots[i].pend == s.slots[i].pend && t.slots[i].bits.dirty == s.slots[i].bits.dirty
    ensures Matches(s, i, v) ==> Matches(t, i, v)
  {
    TaintedSame(s, t, s.slots[i].dbn);
  }

  lemma FxReadDiskKeeps(c: Config, s: State, i: nat)
    requires Inv(c, s) && i < c.size && s.slots[i].work.ReadDisk?
    ensures Inv(c, FxReadDisk(s, i))
  {
    var t := FxReadDisk(s, i);
    var x := s.slots[i].work.id;
    assert SlotOk(c, i, s.slots[i]) && ContentOk(c, s, i) && JobOk(s, i) && SlotOk(c, i, t.slots[i]);
    if s.bios[x].alone {
      AloneRead(s, x);
      QuietClean(c, s, i, OnDisk(s, s.slots[i].dbn));
    }
    SlotOnlyKeeps(c, s, t, i);
  }
  
  lemma ToFillKeeps(c: Config, s: State, i: nat)
    requires Inv(c, s) && Idx(c, s, i) && s.slots[i].work.ReadDisk? && s.slots[i].work.got.Some?
    ensures Inv(c, IoCallback(c, s, i))
  {
    var t := IoCallback(c, s, i);
    assert SlotOk(c, i, s.slots[i]) && ContentOk(c, s, i) && BufferOk(s, i) && SlotOk(c, i, t.slots[i]);
    MatchesSame(s, t, i, s.slots[i].work.got.value);
    SlotOnlyKeeps(c, s, t, i);
  }

  lemma FxCopyReadKeeps(c: Config, s: State, i: nat)
    requires Inv(c, s) && i < c.size && s.slots[i].work.WriteDisk?
    ensures Inv(c, FxCopyRead(s, i))
  {
    var t := FxCopyRead(s, i);
    assert SlotOk(c, i, s.slots[i]) && ContentOk(c, s, i) && SlotOk(c, i, t.slots[i]);
    SlotOnlyKeeps(c, s, t, i);
  }

  lemma InvalidateKeeps(c: Config, s: State, i: nat)
    requires Inv(c, s) && Idx(c, s, i) && s.slots[i].bits.valid
    requires !s.slots[i].bits.Busy() && !s.slots[i].bits.dirty && s.slots[i].nrQueued == 0
    ensures Inv(c, Invalidate(s, i))
  {
    var t := Invalidate(s, i);
    assert SlotOk(c, i, s.slots[i]) && SlotOk(c, i, t.slots[i]);
    SlotOnlyKeeps(c, s, t, i);
  }

  lemma ClearFallowKeeps(c: Config, s: State, i: nat)
    requires Inv(c, s) && Idx(c, s, i)
    ensures Inv(c, ClearFallow(c, s, i))
  {
    var t := ClearFallow(c, s, i);
    assert SlotOk(c, i, s.slots[i]) && ContentOk(c, s, i) && BufferOk(s, i) && SlotOk(c, i, t.slots[i]);
    if t != s {
      SlotOnlyKeeps(c, s, t, i);
    }
  }

  lemma DetectFallowKeeps(c: Config, s: State, i: nat)
    requires Inv(c, s) && Idx(c, s, i)
    ensures Inv(c, DetectFallow(c, s, i))
  {
    var t := DetectFallow(c, s, i);
    assert SlotOk(c, i, s.slots[i]) && ContentOk(c, s, i) && BufferOk(s, i) && SlotOk(c, i, t.slots[i]);
    if t != s {
      SlotOnlyKeeps(c, s, t, i);
    }
  }

  lemma StartCleanKeeps(c: Config, s: State, i: nat)
    requires Inv(c, s) && Idx(c, s, i) && s.slots[i].bits.dirty && (s.slots[i].work.NoWork? || s.slots[i].work.Finish?)
    ensures Inv(c, StartClean(c, s, i))
  {
    var t := StartClean(c, s, i);
    assert SlotOk(c, i, s.slots[i]) && SlotOk(c, i, t.slots[i]);
    SlotOnlyKeeps(c, s, t, i);
  }

  lemma LimboKeeps(c: Config, s: State, i: nat)
    requires Inv(c, s) && Idx(c, s, i) && s.slots[i].work.Finish? && !s.slots[i].bits.dirty
    ensures Inv(c, DoPending(c, s, i))
  {
    var t := DoPending(c, s, i);
    assert SlotOk(c, i, s.slots[i]) && SlotOk(c, i, t.slots[i]);
    SlotOnlyKeeps(c, s, t, i);
  }

  lemma DrainEndKeeps(c: Config, s: State, i: nat)
    requires Inv(c, s) && Idx(c, s, i) && s.slots[i].work == Drain([])
    ensures Inv(c, DrainEnd(s, i))
  {
    var t := DrainEnd(s, i);
    assert SlotOk(c, i, s.slots[i]) && SlotOk(c, i, t.slots[i]);
    SlotOnlyKeeps(c, s, t, i);
  }
}
