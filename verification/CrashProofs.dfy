/** A reload from the SSD, after power loss or a clean removal, keeps the invariant
    and the content of every block no write is under way for. */
module CrashProofs {
  import opened Types
  import opened Protocol
  import opened Invariant
  import opened Frames
  import opened Steps

  /** A DIRTY record names the block of a VALID slot that is DIRTY or about to be acknowledged so. */
  lemma DirtyRec(c: Config, s: State, i: nat)
    requires Slots(c, s) && Bios(c, s) && Meta(c, s) && i < c.size && s.md[i].dirty
    ensures s.slots[i].bits.valid && s.slots[i].dbn == s.md[i].dbn && s.md[i].valid && !s.md[i].invalid && c.mode == WriteBack
    ensures s.slots[i].bits.dirty || !NoWrite(s, s.md[i].dbn)
  {
    assert SlotOk(c, i, s.slots[i]) && RecOk(c, s, i) && JobOk(s, i);
    var h := s.heads[c.mdOf[i]];
    if i in h.active {
      assert HeadOk(c, s, c.mdOf[i]);
      var k :| 0 <= k < |h.active| && h.active[k] == i;
      assert All(h)[k] == i;
    }
  }

  /** A DIRTY slot without a DIRTY record has been written back: the disk has its data. */
  lemma UnrecordedDirty(c: Config, s: State, i: nat)
    requires Slots(c, s) && Bios(c, s) && Meta(c, s) && Content(c, s) && i < c.size
    requires s.slots[i].bits.dirty && !s.md[i].dirty && NoWrite(s, s.slots[i].dbn)
    ensures OnDisk(s, s.slots[i].dbn) == s.ssd[i]
  {
    var h := s.heads[c.mdOf[i]];
    assert SlotOk(c, i, s.slots[i]) && RecOk(c, s, i) && HeadOk(c, s, c.mdOf[i]);
    assert i in h.active;
    var k :| 0 <= k < |h.active| && h.active[k] == i;
    assert All(h)[k] == i;
    assert s.slots[i].work.MdClean? && ContentOk(c, s, i);
    NoExcuse(c, s, i);
  }

  lemma RecoveredUnique(c: Config, s: State, b: nat, i: nat)
    requires Slots(c, s) && Bios(c, s) && Meta(c, s) && i < c.size && s.md[i].dirty && s.md[i].dbn == b
    ensures Recovered(s, b) == s.ssd[i]
  {
    forall k | 0 <= k < c.size && s.md[k].dirty && s.md[k].dbn == b ensures k == i { DirtyRec(c, s, i); DirtyRec(c, s, k); }
  }

  /** Crash consistency: what an unclean reload would give a block no write is under
      way for is its logical content. */
  lemma RecoveredContent(c: Config, s: State, b: nat)
    requires Inv(c, s) && NoWrite(s, b)
    ensures Recovered(s, b) == Logical(s, b)
  {
    assert Holds(s, b, Logical(s, b));
    if i :| 0 <= i < c.size && s.md[i].dirty && s.md[i].dbn == b {
      RecoveredUnique(c, s, b, i);
      DirtyRec(c, s, i);
      assert DirtyAt(s, b, i);
    } else if i :| 0 <= i < c.size && DirtyAt(s, b, i) {
      UnrecordedDirty(c, s, i);
    } else {
      assert NoDirty(s, b);
    }
  }

  // ----- power loss -----

  lemma CrashSlots(c: Config, s: State)
    requires Slots(c, s) && Bios(c, s) && Meta(c, s)
    ensures Slots(c, Crash(c, s))
  {
    var t := Crash(c, s);
    forall i | 0 <= i < c.size
      ensures SlotOk(c, i, t.slots[i])
      ensures t.slots[i].bits.valid ==> s.slots[i].bits.valid && s.slots[i].dbn == t.slots[i].dbn
    {
      assert SlotOk(c, i, s.slots[i]);
      if s.md[i].dirty { DirtyRec(c, s, i); }
    }
  }

  lemma CrashMeta(c: Config, s: State)
    requires Slots(c, s) && Bios(c, s) && Meta(c, s) && Slots(c, Crash(c, s))
    ensures Meta(c, Crash(c, s))
  {
    var t := Crash(c, s);
    forall i | 0 <= i < c.size ensures RecOk(c, t, i) && !InMd(t.slots[i].work) { if s.md[i].dirty { DirtyRec(c, s, i); } }
    forall m | 0 <= m < c.mdBlocks ensures HeadOk(c, t, m) { assert All(t.heads[m]) == []; }
  }

  lemma CrashHistory(c: Config, s: State)
    requires History(s) && |s.md| == |c.setOf|
    ensures History(Crash(c, s))
  {
    var t := Crash(c, s);
    forall x: nat | x < t.nextId ensures x in t.bios || x in t.lost || x in Acked(t.log) { assert x in s.bios ==> x in t.lost; }
  }

  lemma CrashContent(c: Config, s: State)
    requires Slots(c, s) && Bios(c, s) && Meta(c, s) && Slots(c, Crash(c, s))
    ensures Content(c, Crash(c, s)) && Bios(c, Crash(c, s))
  {
    var t := Crash(c, s);
    forall i | 0 <= i < c.size
      ensures ContentOk(c, t, i) && JobOk(t, i) && EntriesOk(t, i)
    {
      if s.md[i].dirty { DirtyRec(c, s, i); }
    }
  }

  /** After the reload a block holds what the DIRTY records overlaid on the disk give. */
  lemma CrashHolds(c: Config, s: State, b: nat)
    requires Slots(c, s) && Bios(c, s) && Meta(c, s)
    ensures Holds(Crash(c, s), b, Recovered(s, b))
  {
    var t := Crash(c, s);
    forall i | 0 <= i < |t.slots|
      ensures DirtyAt(t, b, i) <==> s.md[i].dirty && s.md[i].dbn == b
      ensures DirtyAt(t, b, i) ==> t.ssd[i] == Recovered(s, b)
    {
      if s.md[i].dirty && s.md[i].dbn == b { RecoveredUnique(c, s, b, i); }
    }
  }

  lemma CrashLogical(c: Config, s: State, b: nat)
    requires Inv(c, s)
    ensures Logical(Crash(c, s), b) == Recovered(s, b)
  {
    if x :| x in s.bios && s.bios[x].bio.write && s.bios[x].bio.dbn == b {
      CrashCut(c, s, b, x);
    } else {
      assert NoWrite(s, b);
      RecoveredContent(c, s, b);
      CrashUncut(c, s, b);
    }
  }

  lemma CrashCut(c: Config, s: State, b: nat, x: nat)
    requires |s.md| == |c.setOf| && x in s.bios && s.bios[x].bio.write && s.bios[x].bio.dbn == b
    ensures Logical(Crash(c, s), b) == Recovered(s, b)
  {
    assert b in set y | y in s.bios && s.bios[y].bio.write :: s.bios[y].bio.dbn;
  }

  lemma CrashUncut(c: Config, s: State, b: nat)
    requires |s.md| == |c.setOf| && NoWrite(s, b)
    ensures Logical(Crash(c, s), b) == Logical(s, b)
  {
    assert b !in set y | y in s.bios && s.bios[y].bio.write :: s.bios[y].bio.dbn;
  }

  lemma CrashRegister(c: Config, s: State)
    requires Inv(c, s)
    ensures Register(c, Crash(c, s))
  {
    var t := Crash(c, s);
    forall b: nat ensures Holds(t, b, Logical(t, b)) {
      CrashHolds(c, s, b);
      CrashLogical(c, s, b);
    }
    forall k | 0 <= k < |t.slots| ensures BufferOk(t, k) {}
  }

  lemma CrashKeeps(c: Config, s: State)
    requires Inv(c, s)
    ensures Inv(c, Crash(c, s))
  {
    CrashSlots(c, s);
    CrashMeta(c, s);
    CrashHistory(c, s);
    CrashContent(c, s);
    CrashRegister(c, s);
  }

  // ----- clean removal -----

  lemma RemountSlot(c: Config, s: State, i: nat)
    requires Slots(c, s) && i < c.size && s.slots[i].work.NoWork?
    ensures Remount(c, s).slots[i] == s.slots[i].(bits := s.slots[i].bits.Young())
    ensures Current(Remount(c, s).slots[i], Remount(c, s).md[i])
  {
    assert SlotOk(c, i, s.slots[i]);
  }

  lemma RemountShape(c: Config, s: State)
    requires Slots(c, s) && Enabled(c, s, CleanRestart)
    ensures Slots(c, Remount(c, s))
  {
    var t := Remount(c, s);
    forall i | 0 <= i < c.size
      ensures t.slots[i] == s.slots[i].(bits := s.slots[i].bits.Young()) && SlotOk(c, i, t.slots[i])
    {
      RemountSlot(c, s, i);
      assert SlotOk(c, i, s.slots[i]);
    }
  }

  lemma RemountMeta(c: Config, s: State)
    requires Slots(c, s) && Meta(c, s) && Enabled(c, s, CleanRestart) && Slots(c, Remount(c, s))
    ensures Meta(c, Remount(c, s))
  {
    var t := Remount(c, s);
    forall m | 0 <= m < c.mdBlocks ensures All(t.heads[m]) == [] && HeadOk(c, t, m) { assert HeadOk(c, s, m); }
    forall i | 0 <= i < c.size ensures RecOk(c, t, i) && !InMd(t.slots[i].work)
    {
      RemountSlot(c, s, i);
      assert All(t.heads[c.mdOf[i]]) == [];
    }
  }

  lemma RemountBios(c: Config, s: State)
    requires Slots(c, s) && Bios(c, s) && Enabled(c, s, CleanRestart)
    ensures Bios(c, Remount(c, s))
  {
    var t := Remount(c, s);
    forall i | 0 <= i < c.size ensures JobOk(t, i) && EntriesOk(t, i) {
      RemountSlot(c, s, i);
      assert SlotOk(c, i, s.slots[i]);
    }
  }

  lemma RemountContent(c: Config, s: State)
    requires Slots(c, s) && Bios(c, s) && Content(c, s) && Enabled(c, s, CleanRestart) && Slots(c, Remount(c, s))
    ensures Content(c, Remount(c, s))
  {
    var t := Remount(c, s);
    forall i | 0 <= i < c.size ensures ContentOk(c, t, i) {
      RemountSlot(c, s, i);
      assert SlotOk(c, i, s.slots[i]) && ContentOk(c, s, i);
    }
  }

  lemma RemountRegister(c: Config, s: State)
    requires Slots(c, s) && Register(c, s) && Enabled(c, s, CleanRestart)
    ensures Register(c, Remount(c, s))
  {
    var t := Remount(c, s);
    forall b: nat
      ensures Holds(t, b, Logical(t, b))
    {
      assert NoWrite(s, b) && Holds(s, b, Logical(s, b));
      forall i | 0 <= i < c.size ensures DirtyAt(t, b, i) <==> DirtyAt(s, b, i) { RemountSlot(c, s, i); }
    }
    forall k | 0 <= k < |t.slots| ensures BufferOk(t, k) { RemountSlot(c, s, k); }
  }

  lemma RemountKeeps(c: Config, s: State)
    requires Inv(c, s) && Enabled(c, s, CleanRestart)
    ensures Inv(c, Remount(c, s))
  {
    RemountShape(c, s);
    RemountMeta(c, s);
    RemountBios(c, s);
    RemountContent(c, s);
    RemountRegister(c, s);
  }
}
