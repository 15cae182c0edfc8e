/** The content of a block is what its acknowledged writes made it, in the order they
    were acknowledged, unless two writes of it were unfinished at once or one was cut
    off by a crash; and even then again from the next write of the whole block on that
    meets no other. */
module Durability {
  import opened Types
  import opened Protocol
  import opened Invariant
  import opened Steps

  /** Block b after the acknowledged requests of a log, starting from v. */
  function Replayed(log: seq<Ack>, b: nat, v: Data): Data {
    if log == [] then v else
    var a := log[|log| - 1];
    var was := Replayed(log[..|log| - 1], b, v);
    if a.bio.write && a.bio.dbn == b then Patch(was, a.bio) else was
  }

  /** The replay of a log with a write of the whole block in it depends on nothing before. */
  lemma {:induction false} WholeWriteForgets(log: seq<Ack>, b: nat, k: nat, v: Data, w: Data)
    requires k < |log| && log[k].bio.write && log[k].bio.full && log[k].bio.dbn == b
    ensures Replayed(log, b, v) == Replayed(log[k..], b, w)
  {
    var n := |log| - 1;
    if k < n {
      WholeWriteForgets(log[..n], b, k, v, w);
      assert log[k..][..n - k] == log[..n][k..] && log[k..][n - k] == log[n];
    } else {
      assert log[k..] == [log[n]] && log[k..][..0] == [];
    }
  }

  /** Writes that met another write are known to be torn. */
  ghost predicate TornOk(s: State) {
    forall x {:trigger s.bios[x]} :: x in s.bios && s.bios[x].bio.write && !s.bios[x].alone ==> s.bios[x].bio.dbn in s.torn
  }

  ghost predicate ReplayOk(disk: map<nat, Data>, s: State) {
    forall b: nat {:trigger Logical(s, b)} :: b !in s.torn ==> Logical(s, b) == Replayed(s.log, b, At(disk, b, map[]))
  }

  // ----- one step logs at most one request -----

  ghost predicate SameAsked(f: Flight, a: Ack) { a.bio == f.bio && a.pre == f.pre && a.alone == f.alone }

  ghost predicate Ends(s: State, t: State, x: nat) {
    x in s.bios && x !in t.bios && |t.log| == |s.log| + 1 && t.log[..|s.log|] == s.log && SameAsked(s.bios[x], t.log[|s.log|])
    && t.torn == Mended(s.torn, s.bios[x])
    && t.logical == if s.bios[x].bio.write then s.logical[s.bios[x].bio.dbn := t.log[|s.log|].result] else s.logical
  }

  ghost predicate EndsNone(s: State, t: State) { t.log == s.log && t.logical == s.logical && t.torn == s.torn }

  ghost predicate Logged(s: State, t: State) { EndsNone(s, t) || exists x :: Ends(s, t, x) }

  /** The requests that stay keep what was asked. */
  ghost predicate Keeps(s: State, t: State) {
    forall x {:trigger t.bios[x]} :: x in t.bios ==> x in s.bios && t.bios[x].bio == s.bios[x].bio && t.bios[x].alone == s.bios[x].alone
  }

  /** Nothing ends, and what stays keeps what was asked. */
  ghost predicate Still(s: State, t: State) {
    Keeps(s, t) && EndsNone(s, t)
    && forall x {:trigger t.bios[x]} :: x in t.bios ==> t.bios[x].pre == s.bios[x].pre
  }

  ghost predicate Quiet(s: State, t: State) { Keeps(s, t) && Logged(s, t) }

  lemma StillThenStill(s: State, u: State, t: State)
    requires Still(s, u) && Still(u, t)
    ensures Still(s, t)
  {
  }

  lemma StillThenEnd(s: State, u: State, x: nat, result: Data)
    requires Still(s, u)
    ensures Quiet(s, EndBio(u, x, result))
  {
    if x in u.bios { assert Ends(s, EndBio(u, x, result), x); }
  }

  lemma EndThenStill(s: State, u: State, t: State)
    requires Quiet(s, u) && Still(u, t)
    ensures Quiet(s, t)
  {
    if x :| Ends(s, u, x) { assert Ends(s, t, x); }
  }

  lemma StartCleanStill(c: Config, s: State, i: nat)
    requires Idx(c, s, i)
    ensures Still(s, StartClean(c, s, i)) && Still(s, ClearFallow(c, s, i))
  {
  }

  lemma EnqueueStill(s: State, x: nat, i: nat, inval: bool)
    requires i < |s.slots|
    ensures Still(s, Enqueue(s, x, i, inval))
  {
  }

  lemma ReleaseStill(s: State, i: nat)
    requires i < |s.slots|
    ensures Still(s, Release(s, i))
  {
  }

  lemma InvalBlocksStill(c: Config, s: State, x: nat, h: Option<nat>)
    requires MaybeIdx(c, s, h)
    ensures Still(s, InvalBlocks(c, s, x, h).0)
  {
    if h.Some? {
      var t := Enqueue(s, x, h.value, true);
      EnqueueStill(s, x, h.value, true);
      StartCleanStill(c, t, h.value);
      StillThenStill(s, t, StartClean(c, t, h.value));
      assert Still(s, Invalidate(s, h.value));
    }
  }

  lemma BypassStill(c: Config, s: State, x: nat, h: Option<nat>)
    requires MaybeIdx(c, s, h)
    ensures Still(s, Bypass(c, s, x, h))
  {
    InvalBlocksStill(c, s, x, h);
    var t := InvalBlocks(c, s, x, h).0;
    assert Still(t, StartUncached(t, x));
  }

  lemma UncachedCompleteQuiet(c: Config, s: State, x: nat, h: Option<nat>)
    requires MaybeIdx(c, s, h) && x in s.bios
    ensures Quiet(s, UncachedComplete(c, s, x, h))
  {
    var u := Moved(s, x, Hand);
    var (t, queued) := InvalBlocks(c, u, x, h);
    InvalBlocksStill(c, u, x, h);
    StillThenStill(s, u, t);
    if !queued {
      StillThenEnd(s, t, x, if BioOf(t, x).write then OnDisk(t, BioOf(t, x).dbn) else if x in t.bios then t.bios[x].got else map[]);
    }
  }

  lemma EndJobQuiet(s: State, u: State, i: nat, x: nat, result: Data)
    requires i < |u.slots| && Still(s, u)
    ensures Quiet(s, Release(EndBio(u, x, result), i))
  {
    StillThenEnd(s, u, x, result);
    ReleaseStill(EndBio(u, x, result), i);
    EndThenStill(s, EndBio(u, x, result), Release(EndBio(u, x, result), i));
  }

  lemma IoCallbackQuiet(c: Config, s: State, i: nat)
    requires Idx(c, s, i)
    ensures Quiet(s, IoCallback(c, s, i))
  {
    match s.slots[i].work
    case ReadCache(x, got) => if got.Some? { EndJobQuiet(s, s, i, x, got.value); }
    case ReadFill(x, data, _) => EndJobQuiet(s, s, i, x, data);
    case WriteCache(x, _, _) =>
      EndJobQuiet(s, s, i, x, s.ssd[i]);
      EndJobQuiet(s, s, i, x, OnDisk(s, s.slots[i].dbn));
    case _ =>
  }

  lemma MdDoneQuiet(c: Config, s: State, i: nat)
    requires Idx(c, s, i)
    ensures Quiet(s, MdDoneJob(c, s, i))
  {
    var sl := s.slots[i];
    if sl.work.MdDirty? {
      var grow := if sl.bits.dirty then 0 else 1;
      var t := WithSlot(s, i, sl.(bits := sl.bits.(dirty := true))).(
               ctr := s.ctr.(dirty := s.ctr.dirty + grow, setDirty := BumpAt(s.ctr.setDirty, c.setOf[i], grow)));
      EndJobQuiet(s, t, i, sl.work.id, t.ssd[i]);
    }
  }

  lemma ReplayStill(c: Config, s: State, i: nat, h: Option<nat>)
    requires Idx(c, s, i) && MaybeIdx(c, s, h) && s.slots[i].work.Drain? && s.slots[i].work.rest != []
    ensures Still(s, DrainOne(c, s, i, h))
  {
    var e := s.slots[i].work.rest[0];
    var t := DetachNext(s, i);
    assert Still(s, t);
    if e.inval { BypassStill(c, t, e.id, h); } else { assert Still(t, StartUncached(t, e.id)); }
    StillThenStill(s, t, DrainOne(c, s, i, h));
  }

  predicate Ending(step: Step) { step.IoDone? || step.MdFinish? || step.UncachedDone? }

  lemma EndingQuiet(c: Config, s: State, step: Step)
    requires Enabled(c, s, step) && Ending(step)
    ensures Quiet(s, Apply(c, s, step))
  {
    match step
    case IoDone(i) => IoCallbackQuiet(c, s, i);
    case MdFinish(m) =>
      var u := MdDoneJob(c, s, s.heads[m].active[0]);
      MdDoneQuiet(c, s, s.heads[m].active[0]);
      EndThenStill(s, u, MdDoneOne(c, s, m));
    case UncachedDone(x, hit) => UncachedCompleteQuiet(c, s, x, hit);
  }

  lemma NothingStill(s: State, t: State)
    requires t.bios == s.bios && t.log == s.log && t.logical == s.logical && t.torn == s.torn && t.lost == s.lost && t.nextId == s.nextId
    ensures Still(s, t)
  {
  }

  lemma UncachedStill(s: State, x: nat)
    ensures Still(s, FxUncached(s, x))
  {
  }

  lemma JobEffectStill(c: Config, s: State, step: Step)
    requires Enabled(c, s, step) && IsEffect(step) && !step.DiskUncached? && !step.MdEffect?
    ensures Still(s, Apply(c, s, step))
  {
    var t := Apply(c, s, step);
    assert t.bios == s.bios && t.log == s.log && t.logical == s.logical && t.torn == s.torn && t.lost == s.lost && t.nextId == s.nextId;
    NothingStill(s, t);
  }

  lemma EffectStill(c: Config, s: State, step: Step)
    requires Enabled(c, s, step) && IsEffect(step)
    ensures Still(s, Apply(c, s, step))
  {
    if step.DiskUncached? {
      UncachedStill(s, step.x);
    } else if step.MdEffect? {
      NothingStill(s, FxMetadata(s, step.m, step.k));
    } else {
      JobEffectStill(c, s, step);
    }
  }

  lemma SectionStill(c: Config, s: State, step: Step)
    requires Enabled(c, s, step) && !step.Map? && !step.PowerLoss? && !Ending(step) && !IsEffect(step)
    ensures Still(s, Apply(c, s, step))
  {
    if step.Replay? {
      ReplayStill(c, s, step.i, step.hit);
    } else if step.Detach? {
      assert Still(s, Dequeue(s, step.i));
    } else if step.Kickoff? || step.MdWritten? || step.MdAdvance? || step.CleanRestart? {
      assert Apply(c, s, step).bios == s.bios;
    } else {
      SlotStill(c, s, step.i);
    }
  }

  lemma SlotStill(c: Config, s: State, i: nat)
    requires Idx(c, s, i)
    ensures Still(s, KcopydCallback(c, s, i)) && Still(s, DoPending(c, s, i)) && Still(s, DrainEnd(s, i))
    ensures Still(s, StartClean(c, s, i)) && Still(s, DetectFallow(c, s, i))
  {
    StartCleanStill(c, s, i);
    assert DoPending(c, s, i).bios == s.bios && DetectFallow(c, s, i).bios == s.bios;
  }

  // ----- the two invariants are kept -----

  lemma QuietKeeps(c: Config, disk: map<nat, Data>, s: State, t: State)
    requires Register(c, s) && Register(c, t) && Quiet(s, t) && TornOk(s) && ReplayOk(disk, s)
    ensures TornOk(t) && ReplayOk(disk, t)
  {
    if x :| Ends(s, t, x) {
      EndKeeps(c, disk, s, t, x);
    } else {
      forall b: nat ensures Logical(t, b) == Logical(s, b) {}
    }
  }

  lemma EndKeeps(c: Config, disk: map<nat, Data>, s: State, t: State, x: nat)
    requires Register(c, s) && Register(c, t) && Keeps(s, t) && Ends(s, t, x) && x !in t.bios && TornOk(s) && ReplayOk(disk, s)
    ensures TornOk(t) && ReplayOk(disk, t)
  {
    var f, a := s.bios[x], t.log[|s.log|];
    assert FlightOk(s, x, f) && AckOk(a);
    forall b: nat | b !in t.torn ensures Logical(t, b) == Replayed(t.log, b, At(disk, b, map[])) {
      assert b in s.torn || Logical(s, b) == Replayed(s.log, b, At(disk, b, map[]));
    }
  }

  lemma NewBioTorn(disk: map<nat, Data>, s: State, bio: Bio)
    requires History(s) && TornOk(s) && ReplayOk(disk, s)
    ensures TornOk(NewBio(s, bio)) && ReplayOk(disk, NewBio(s, bio))
  {
    var t := NewBio(s, bio);
    forall b: nat ensures Logical(t, b) == Logical(s, b) {}
  }

  lemma SeatedStill(s: State, x: nat, i: nat)
    requires i < |s.slots|
    ensures Still(s, StartReadHit(s, x, i)) && Still(s, StartWriteHit(s, x, i))
  {
    assert StartReadHit(s, x, i).bios == Moved(s, x, OnSlot(i)).bios;
    assert StartWriteHit(s, x, i).bios == Moved(s, x, OnSlot(i)).bios;
  }

  lemma MissStill(s: State, x: nat, v: Option<nat>, skip: bool)
    requires v.Some? ==> v.value < |s.slots|
    ensures Still(s, Miss(s, x, v, skip))
  {
  }

  lemma HitStill(c: Config, s: State, x: nat, i: nat)
    requires Idx(c, s, i)
    ensures Still(s, Hit(c, s, x, i))
  {
    var t := ClearFallow(c, s, i);
    StartCleanStill(c, s, i);
    EnqueueStill(t, x, i, false);
    SeatedStill(t, x, i);
    StillThenStill(s, t, Hit(c, s, x, i));
  }

  lemma SubmitStill(c: Config, s: State, bio: Bio, h: Option<nat>, v: Option<nat>, skip: bool)
    requires MaybeIdx(c, s, h) && MaybeIdx(c, s, v)
    ensures Still(NewBio(s, bio), Submit(c, s, bio, h, v, skip))
  {
    var x := s.nextId;
    var t := NewBio(s, bio);
    if !bio.full || (bio.write && (c.mode == WriteAround || skip)) {
      BypassStill(c, t, x, h);
    } else if h.Some? {
      HitStill(c, t, x, h.value);
    } else {
      MissStill(t, x, v, skip);
    }
  }

  lemma StillKeeps(disk: map<nat, Data>, s: State, t: State)
    requires Still(s, t) && TornOk(s) && ReplayOk(disk, s)
    ensures TornOk(t) && ReplayOk(disk, t)
  {
    forall b: nat ensures Logical(t, b) == Logical(s, b) {}
  }

  lemma CrashDurable(c: Config, disk: map<nat, Data>, s: State)
    requires |s.md| == |c.setOf| && ReplayOk(disk, s)
    ensures TornOk(Crash(c, s)) && ReplayOk(disk, Crash(c, s))
  {
    var t := Crash(c, s);
    var cut := set x | x in s.bios && s.bios[x].bio.write :: s.bios[x].bio.dbn;
    forall b: nat | b !in t.torn ensures Logical(t, b) == Logical(s, b) { assert b !in cut; }
  }

  lemma StepDurable(c: Config, disk: map<nat, Data>, s: State, step: Step)
    requires Inv(c, s) && Enabled(c, s, step) && Register(c, Apply(c, s, step)) && TornOk(s) && ReplayOk(disk, s)
    ensures TornOk(Apply(c, s, step)) && ReplayOk(disk, Apply(c, s, step))
  {
    var t := Apply(c, s, step);
    if step.Map? {
      NewBioTorn(disk, s, step.bio);
      SubmitStill(c, s, step.bio, step.hit, step.victim, step.skip);
      StillKeeps(disk, NewBio(s, step.bio), t);
    } else if step.PowerLoss? {
      CrashDurable(c, disk, s);
    } else if Ending(step) {
      EndingQuiet(c, s, step);
      QuietKeeps(c, disk, s, t);
    } else {
      if IsEffect(step) { EffectStill(c, s, step); } else { SectionStill(c, s, step); }
      StillKeeps(disk, s, t);
    }
  }
}
