/** One write of a metadata block carries every update of it there is: all that has been queued
    joins the write that is kicked off, and is done when that write is. */
module Batching {
  import opened Types
  import opened Protocol
  import opened Invariant
  import opened Steps
  import opened Theorems

  /** Slot k has an update of metadata block m under way. */
  predicate Updating(c: Config, s: State, m: nat, k: nat) { k < |s.slots| == |c.mdOf| && c.mdOf[k] == m && InMd(s.slots[k].work) }

  /** Whatever update of block m is under way when its write is kicked off joins the write: nothing
      stays queued, and the write holds the outcome of each, DIRTY or not, and the in-core word of
      every other slot. */
  lemma KickoffTakesAll(c: Config, disk: map<nat, Data>, s: State, m: nat, k: nat)
    requires WellFormed(c) && Reachable(c, disk, s) && Enabled(c, s, Kickoff(m)) && k < |s.slots| && c.mdOf[k] == m
    ensures var t := Apply(c, s, Kickoff(m));
      && t.slots == s.slots && m < |t.heads| && t.heads[m].queue == [] && t.heads[m].io.MdWriting? && k in t.heads[m].io.snap
      && (Updating(c, s, m, k) ==> k in t.heads[m].active && Target(s.slots[k], t.heads[m].io.snap[k]))
      && (!Updating(c, s, m, k) ==> Current(s.slots[k], t.heads[m].io.snap[k]))
  {
    ReachableGood(c, disk, s);
    StepKeeps(c, s, Kickoff(m));
    var t := Apply(c, s, Kickoff(m));
    assert HeadOk(c, t, m) && RecOk(c, t, k) && All(t.heads[m]) == t.heads[m].active;
    if k in t.heads[m].active {
      var q :| 0 <= q < |t.heads[m].active| && t.heads[m].active[q] == k;
      assert All(t.heads[m])[q] == k;
    }
  }

  predicate Under(h: MdHead) { h.io.MdWriting? || h.io.MdCompleting? }

  lemma InvalHeads(c: Config, s: State, x: nat, h: Option<nat>)
    requires MaybeIdx(c, s, h)
    ensures InvalBlocks(c, s, x, h).0.heads == s.heads && Bypass(c, s, x, h).heads == s.heads
  {
  }

  lemma SubmitHeads(c: Config, s: State, bio: Bio, h: Option<nat>, v: Option<nat>, skip: bool)
    requires MaybeIdx(c, s, h) && MaybeIdx(c, s, v)
    ensures Submit(c, s, bio, h, v, skip).heads == s.heads
  {
    InvalHeads(c, NewBio(s, bio), s.nextId, h);
    if h.Some? { HitHeads(c, NewBio(s, bio), s.nextId, h.value); }
  }

  lemma HitHeads(c: Config, s: State, x: nat, i: nat)
    requires Idx(c, s, i)
    ensures Hit(c, s, x, i).heads == s.heads
  {
  }

  lemma EndHeads(s: State, x: nat, result: Data, i: nat)
    requires i < |s.slots|
    ensures Release(EndBio(s, x, result), i).heads == s.heads
  {
  }

  /** Handing a job over to a block whose write is under way queues it. */
  lemma MdWriteHeads(c: Config, s: State, i: nat, m: nat)
    requires Idx(c, s, i) && m < |s.heads| && Under(s.heads[m])
    ensures m < |MdWrite(c, s, i).heads| && MdWrite(c, s, i).heads[m].io == s.heads[m].io && MdWrite(c, s, i).heads[m].active == s.heads[m].active
  {
  }

  ghost predicate Stays(s: State, t: State, m: nat) {
    m < |s.heads| && m < |t.heads| && Under(t.heads[m]) && t.heads[m].active == s.heads[m].active
  }

  lemma JobStays(c: Config, s: State, i: nat, m: nat)
    requires Idx(c, s, i) && m < |s.heads| && Under(s.heads[m])
    ensures Stays(s, IoCallback(c, s, i), m) && Stays(s, KcopydCallback(c, s, i), m)
  {
    MdWriteHeads(c, WithWork(s, i, MdClean), i, m);
    match s.slots[i].work
    case ReadCache(x, got) => if got.Some? { EndHeads(s, x, got.value, i); }
    case ReadFill(x, data, _) => EndHeads(s, x, data, i);
    case WriteCache(x, _, _) =>
      MdWriteHeads(c, WithWork(s, i, MdDirty(x)), i, m);
      EndHeads(s, x, if c.mode == WriteBack then s.ssd[i] else OnDisk(s, s.slots[i].dbn), i);
    case _ =>
  }

  lemma FinishHeads(c: Config, s: State, i: nat)
    requires Idx(c, s, i)
    ensures MdDoneJob(c, s, i).heads == s.heads
  {
  }

  lemma HeadStays(c: Config, s: State, step: Step, m: nat)
    requires Enabled(c, s, step) && m < |s.heads| && Under(s.heads[m]) && step != MdAdvance(m)
    requires step.Kickoff? || step.MdWritten? || step.MdFinish? || step.MdAdvance? || step.MdEffect?
    ensures var t := Apply(c, s, step);
      m < |t.heads| && Under(t.heads[m]) && t.heads[m].active == if step == MdFinish(m) then s.heads[m].active[1..] else s.heads[m].active
  {
    if step.MdFinish? { FinishHeads(c, s, s.heads[step.m].active[0]); }
  }

  predicate Headless(step: Step) {
    step.Pending? || step.Detach? || step.DrainDone? || step.CleanSlot? || step.MarkFallow? || (IsEffect(step) && !step.MdEffect?)
  }

  lemma EffectHeads(c: Config, s: State, step: Step)
    requires Enabled(c, s, step) && IsEffect(step) && !step.MdEffect?
    ensures Apply(c, s, step).heads == s.heads
  {
  }

  lemma HeadlessStays(c: Config, s: State, step: Step)
    requires Enabled(c, s, step) && Headless(step)
    ensures Apply(c, s, step).heads == s.heads
  {
    if IsEffect(step) { EffectHeads(c, s, step); }
  }

  /** A write under way keeps its jobs until they are finished one by one. */
  lemma WriteStays(c: Config, s: State, step: Step, m: nat)
    requires Enabled(c, s, step) && m < |s.heads| && Under(s.heads[m]) && !step.PowerLoss? && !step.CleanRestart? && step != MdAdvance(m)
    ensures var t := Apply(c, s, step);
      m < |t.heads| && Under(t.heads[m]) && t.heads[m].active == if step == MdFinish(m) then s.heads[m].active[1..] else s.heads[m].active
  {
    if Headless(step) {
      HeadlessStays(c, s, step);
    } else if step.Map? {
      SubmitHeads(c, s, step.bio, step.hit, step.victim, step.skip);
    } else if step.UncachedDone? {
      InvalHeads(c, Moved(s, step.x, Hand), step.x, step.hit);
    } else if step.Replay? {
      InvalHeads(c, DetachNext(s, step.i), s.slots[step.i].work.rest[0].id, step.hit);
    } else if step.IoDone? || step.CopyDone? {
      JobStays(c, s, step.i, m);
    } else {
      HeadStays(c, s, step, m);
    }
  }

  // ----- over a run -----

  /** The step ends the write of block m, or all of them. */
  predicate Breaks(step: Step, m: nat) { step == MdAdvance(m) || step.PowerLoss? || step.CleanRestart? }

  ghost predicate DoneBy(run: seq<State>, a: nat, n: nat, k: nat) {
    exists e: nat {:trigger run[e]} :: a < e <= n && e < |run| && k < |run[e].slots| && !InMd(run[e].slots[k].work)
  }

  /** What a finished metadata job makes of its slot and the counters. */
  function DirtyRecorded(c: Config, s: State, i: nat): State
    requires Idx(c, s, i)
  {
    var sl := s.slots[i];
    var grow := if sl.bits.dirty then 0 else 1;
    WithSlot(s, i, sl.(bits := sl.bits.(dirty := true))).(
    ctr := s.ctr.(dirty := s.ctr.dirty + grow, setDirty := BumpAt(s.ctr.setDirty, c.setOf[i], grow)))
  }

  function CleanRecorded(c: Config, s: State, i: nat): State
    requires Idx(c, s, i)
  {
    var sl := s.slots[i];
    WithSlot(s, i, sl.(bits := sl.bits.(dirty := false))).(
    ctr := s.ctr.(dirty := s.ctr.dirty - 1, setDirty := BumpAt(s.ctr.setDirty, c.setOf[i], -1),
                  cleaning := s.ctr.cleaning - 1, setCleaning := BumpAt(s.ctr.setCleaning, c.setOf[i], -1)))
  }

  /** Only slot i is another, and it has no update under way. */
  ghost predicate OnlyDone(s: State, t: State, i: nat) {
    i < |s.slots| == |t.slots| && !InMd(t.slots[i].work) && t.slots == s.slots[i := t.slots[i]]
  }

  lemma ReleasedDone(s: State, u: State, i: nat)
    requires i < |s.slots| == |u.slots| && u.slots == s.slots[i := u.slots[i]]
    ensures OnlyDone(s, Release(u, i), i)
  {
  }

  lemma FinishedJob(c: Config, s: State, i: nat)
    requires Idx(c, s, i)
    ensures OnlyDone(s, MdDoneJob(c, s, i), i)
  {
    if s.slots[i].work.MdDirty? {
      ReleasedDone(s, EndBio(DirtyRecorded(c, s, i), s.slots[i].work.id, s.ssd[i]), i);
    } else {
      ReleasedDone(s, CleanRecorded(c, s, i), i);
    }
  }

  /** A job finished is off its head for good, and no other slot is touched. */
  lemma FinishedSlot(c: Config, s: State, m: nat)
    requires Enabled(c, s, MdFinish(m))
    ensures var i, t := s.heads[m].active[0], Apply(c, s, MdFinish(m));
      i < |t.slots| && !InMd(t.slots[i].work) && t.slots == s.slots[i := t.slots[i]]
  {
    FinishedJob(c, s, s.heads[m].active[0]);
  }

  /** One step of a write: the update is still with it, or done. */
  lemma StepCarries(c: Config, s: State, step: Step, m: nat, k: nat)
    requires Enabled(c, s, step) && !Breaks(step, m) && m < |s.heads| && Under(s.heads[m]) && k in s.heads[m].active
    ensures var t := Apply(c, s, step);
      m < |t.heads| && Under(t.heads[m]) && (k in t.heads[m].active || (k < |t.slots| && !InMd(t.slots[k].work)))
  {
    WriteStays(c, s, step, m);
    if step == MdFinish(m) {
      FinishedSlot(c, s, m);
      assert s.heads[m].active == [s.heads[m].active[0]] + s.heads[m].active[1..];
    }
  }

  lemma {:induction false} CarriedAlong(c: Config, disk: map<nat, Data>, run: seq<State>, steps: seq<Step>, a: nat, n: nat, m: nat, k: nat)
    requires WellFormed(c) && IsRun(c, disk, run, steps) && a < n < |run| && steps[a] == Kickoff(m) && k < |run[a].slots|
    requires Updating(c, run[a], m, k) && forall e {:trigger steps[e]} :: a < e < n ==> !Breaks(steps[e], m)
    ensures m < |run[n].heads| && Under(run[n].heads[m]) && (k in run[n].heads[m].active || DoneBy(run, a, n, k))
    decreases n
  {
    assert Follows(c, run, steps, n - 1);
    if n == a + 1 {
      KickoffTakesAll(c, disk, run[a], m, k) by { PrefixReaches(c, disk, run, steps, a); }
    } else {
      CarriedAlong(c, disk, run, steps, a, n - 1, m, k);
      if k in run[n - 1].heads[m].active {
        StepCarries(c, run[n - 1], steps[n - 1], m, k);
      } else {
        WriteStays(c, run[n - 1], steps[n - 1], m);
      }
    }
  }

  lemma PrefixReaches(c: Config, disk: map<nat, Data>, run: seq<State>, steps: seq<Step>, n: nat)
    requires IsRun(c, disk, run, steps) && n < |run|
    ensures Reachable(c, disk, run[n])
  {
    var r, p := run[..n + 1], steps[..n];
    forall k: nat | k < |p| ensures Follows(c, r, p, k) { assert Follows(c, run, steps, k); }
    assert IsRun(c, disk, r, p) && r[|r| - 1] == run[n];
  }

  /** By the time the write is over, every update that was under way when it was kicked off, queued
      or not, is done: none waits for another write. */
  lemma BatchCompletes(c: Config, disk: map<nat, Data>, run: seq<State>, steps: seq<Step>, a: nat, d: nat, m: nat, k: nat)
    requires WellFormed(c) && IsRun(c, disk, run, steps) && a < d < |steps| && steps[a] == Kickoff(m) && steps[d] == MdAdvance(m)
    requires k < |run[a].slots| && Updating(c, run[a], m, k) && forall e {:trigger steps[e]} :: a < e < d ==> !Breaks(steps[e], m)
    ensures DoneBy(run, a, d, k)
  {
    CarriedAlong(c, disk, run, steps, a, d, m, k);
    assert Follows(c, run, steps, d);
  }
}
