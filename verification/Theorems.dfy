/** What the protocol guarantees: over every run, at every point. */
module Theorems {
  import opened Types
  import opened Protocol
  import opened Invariant
  import opened Frames
  import opened SlotSteps
  import opened RequestSteps
  import opened ContentSteps
  import opened EndSteps
  import opened MetaSteps
  import opened Steps
  import opened StepProofs
  import opened CrashProofs
  import opened Handover
  import opened Durability

  // ----- the invariant holds in every run -----

  lemma StepKeeps(c: Config, s: State, step: Step)
    requires Inv(c, s) && Enabled(c, s, step)
    ensures Inv(c, Apply(c, s, step))
  {
    if IsEffect(step) {
      EffectKeeps(c, s, step);
    } else if step.Kickoff? || step.MdWritten? || step.MdFinish? || step.MdAdvance? || step.PowerLoss? || step.CleanRestart? {
      MetadataStepKeeps(c, s, step);
    } else {
      SectionKeeps(c, s, step);
    }
  }

  lemma EffectKeeps(c: Config, s: State, step: Step)
    requires Inv(c, s) && Enabled(c, s, step) && IsEffect(step)
    ensures Inv(c, Apply(c, s, step))
  {
    match step
    case SsdRead(i) => FxReadCacheKeeps(c, s, i);
    case DiskRead(i) => FxReadDiskKeeps(c, s, i);
    case SsdFill(i) => FxReadFillKeeps(c, s, i);
    case SsdWrite(i) => FxWriteCacheKeeps(c, s, i);
    case DiskMirror(i) => FxMirrorKeeps(c, s, i);
    case CopyRead(i) => FxCopyReadKeeps(c, s, i);
    case CopyWrite(i) => FxCopyWriteKeeps(c, s, i);
    case DiskUncached(x) => FxUncachedKeeps(c, s, x);
    case MdEffect(m, k) => FxMetadataKeeps(c, s, m, k);
  }

  lemma MetadataStepKeeps(c: Config, s: State, step: Step)
    requires Inv(c, s) && Enabled(c, s, step)
    requires step.Kickoff? || step.MdWritten? || step.MdFinish? || step.MdAdvance? || step.PowerLoss? || step.CleanRestart?
    ensures Inv(c, Apply(c, s, step))
  {
    match step
    case Kickoff(m) => MdKickoffKeeps(c, s, m);
    case MdWritten(m) => MdDoneKeeps(c, s, m);
    case MdFinish(m) => MdDoneOneKeeps(c, s, m);
    case MdAdvance(m) => MdNextKeeps(c, s, m);
    case PowerLoss => CrashKeeps(c, s);
    case CleanRestart => RemountKeeps(c, s);
  }

  lemma SectionKeeps(c: Config, s: State, step: Step)
    requires Inv(c, s) && Enabled(c, s, step) && !IsEffect(step)
    requires !(step.Kickoff? || step.MdWritten? || step.MdFinish? || step.MdAdvance? || step.PowerLoss? || step.CleanRestart?)
    ensures Inv(c, Apply(c, s, step))
  {
    match step
    case Map(bio, hit, victim, skip) => SubmitKeeps(c, s, bio, hit, victim, skip);
    case IoDone(i) => IoCallbackKeeps(c, s, i);
    case CopyDone(i) => ToMdCleanKeeps(c, s, i);
    case Pending(i) => DoPendingKeeps(c, s, i);
    case Detach(i) => DequeueKeeps(c, s, i);
    case Replay(i, hit) => DrainOneKeeps(c, s, i, hit);
    case DrainDone(i) => DrainEndKeeps(c, s, i);
    case UncachedDone(x, hit) => UncachedCompleteKeeps(c, s, x, hit);
    case CleanSlot(i) => CleanSlotKeeps(c, s, i);
    case MarkFallow(i) => DetectFallowKeeps(c, s, i);
  }

  lemma CleanSlotKeeps(c: Config, s: State, i: nat)
    requires Inv(c, s) && Idx(c, s, i) && s.slots[i].bits.dirty && !s.slots[i].bits.Busy()
    ensures Inv(c, StartClean(c, s, i))
  {
    assert SlotOk(c, i, s.slots[i]);
    StartCleanKeeps(c, s, i);
  }

  lemma StartSlots(c: Config, disk: map<nat, Data>)
    requires WellFormed(c)
    ensures Slots(c, Start(c, disk)) && Bios(c, Start(c, disk)) && History(Start(c, disk))
  {
    var s := Start(c, disk);
    forall i | 0 <= i < c.size ensures SlotOk(c, i, s.slots[i]) && JobOk(s, i) && EntriesOk(s, i) {}
  }

  lemma StartMeta(c: Config, disk: map<nat, Data>)
    requires WellFormed(c) && Slots(c, Start(c, disk))
    ensures Meta(c, Start(c, disk))
  {
    var s := Start(c, disk);
    forall m | 0 <= m < c.mdBlocks ensures HeadOk(c, s, m) { assert All(s.heads[m]) == []; }
    forall i | 0 <= i < c.size ensures RecOk(c, s, i) { assert All(s.heads[c.mdOf[i]]) == []; }
  }

  lemma StartInv(c: Config, disk: map<nat, Data>)
    requires WellFormed(c)
    ensures Inv(c, Start(c, disk))
  {
    var s := Start(c, disk);
    StartSlots(c, disk);
    StartMeta(c, disk);
    forall i | 0 <= i < c.size ensures ContentOk(c, s, i) && BufferOk(s, i) {}
  }

  /** What holds in every reachable state. */
  ghost predicate Good(c: Config, disk: map<nat, Data>, s: State) {
    Inv(c, s) && Settled(s) && TornOk(s) && ReplayOk(disk, s)
  }

  lemma {:induction false} RunGood(c: Config, disk: map<nat, Data>, run: seq<State>, steps: seq<Step>, n: nat)
    requires WellFormed(c) && IsRun(c, disk, run, steps) && n < |run|
    ensures Good(c, disk, run[n])
    decreases n
  {
    if n == 0 {
      StartInv(c, disk);
    } else {
      assert Follows(c, run, steps, n - 1);
      var s, step := run[n - 1], steps[n - 1];
      RunGood(c, disk, run, steps, n - 1);
      StepKeeps(c, s, step);
      StepSettled(c, s, step);
      StepDurable(c, disk, s, step);
    }
  }

  lemma ReachableGood(c: Config, disk: map<nat, Data>, s: State)
    requires WellFormed(c) && Reachable(c, disk, s)
    ensures Good(c, disk, s)
  {
    var run, steps :| IsRun(c, disk, run, steps) && run[|run| - 1] == s;
    RunGood(c, disk, run, steps, |run| - 1);
  }
}
