/** The steps of the protocol and the runs they make up. */
module Steps {
  import opened Types
  import opened Protocol

  datatype Step =
    // critical sections
    | Map(bio: Bio, hit: Option<nat>, victim: Option<nat>, skip: bool)
    | IoDone(i: nat)
    | CopyDone(i: nat)
    | Kickoff(m: nat)
    | MdWritten(m: nat)
    | MdFinish(m: nat)
    | MdAdvance(m: nat)
    | Pending(i: nat)
    | Detach(i: nat)
    | Replay(i: nat, hit: Option<nat>)
    | DrainDone(i: nat)
    | UncachedDone(x: nat, hit: Option<nat>)
    | CleanSlot(i: nat)
    | MarkFallow(i: nat)
    // device I/O taking effect
    | SsdRead(i: nat)
    | DiskRead(i: nat)
    | SsdFill(i: nat)
    | SsdWrite(i: nat)
    | DiskMirror(i: nat)
    | CopyRead(i: nat)
    | CopyWrite(i: nat)
    | DiskUncached(x: nat)
    | MdEffect(m: nat, k: nat)
    // power loss, and a clean removal, each followed by a reload
    | PowerLoss
    | CleanRestart

  predicate MaybeIdx(c: Config, s: State, h: Option<nat>) { h.Some? ==> Idx(c, s, h.value) }

  /** When a step may be taken: what the scheduler and the devices guarantee, and
      what the index and reclaim code guarantee of a lookup. */
  ghost predicate Enabled(c: Config, s: State, step: Step) {
    |s.slots| == |s.ssd| == |s.md| == c.size && |s.heads| == c.mdBlocks && |c.setOf| == |c.mdOf| == c.size &&
    match step
    case Map(bio, hit, victim, _) =>
      MaybeIdx(c, s, hit) && MaybeIdx(c, s, victim) && IsLookup(c, s, bio.dbn, hit)
      && (victim.Some? ==> Claimable(c, s, bio.dbn, victim.value))
    case IoDone(i) => Idx(c, s, i) &&
      (match s.slots[i].work
       case ReadDisk(_, got) => got.Some?
       case ReadCache(_, got) => got.Some?
       case ReadFill(_, _, stored) => stored
       case WriteCache(_, stored, mirrored) => stored && (c.mode == WriteBack || mirrored)
       case _ => false)
    case CopyDone(i) => Idx(c, s, i) && s.slots[i].work.WriteDisk? && s.slots[i].work.stored
    case Kickoff(m) => m < c.mdBlocks && s.heads[m].io.MdScheduled?
    case MdWritten(m) => m < c.mdBlocks && s.heads[m].io.MdWriting? && s.heads[m].io.snap.Keys <= s.heads[m].io.applied
    case MdFinish(m) => m < c.mdBlocks && s.heads[m].io.MdCompleting? && s.heads[m].active != [] && Idx(c, s, s.heads[m].active[0])
    case MdAdvance(m) => m < c.mdBlocks && s.heads[m].io.MdCompleting? && s.heads[m].active == []
    case Pending(i) => Idx(c, s, i) && s.slots[i].work.Finish?
    case Detach(i) => Idx(c, s, i) && s.slots[i].work.Limbo?
    case Replay(i, hit) => Idx(c, s, i) && MaybeIdx(c, s, hit) && s.slots[i].work.Drain? && s.slots[i].work.rest != []
                           && IsLookup(c, s, s.slots[i].dbn, hit)
    case DrainDone(i) => Idx(c, s, i) && s.slots[i].work == Drain([])
    case UncachedDone(x, hit) => MaybeIdx(c, s, hit) && x in s.bios && s.bios[x].place == Uncached && s.bios[x].ran
                                 && IsLookup(c, s, s.bios[x].bio.dbn, hit)
    case CleanSlot(i) => Idx(c, s, i) && s.slots[i].bits.dirty && !s.slots[i].bits.Busy()
    case MarkFallow(i) => Idx(c, s, i)
    case SsdRead(i) => Idx(c, s, i) && s.slots[i].work.ReadCache?
    case DiskRead(i) => Idx(c, s, i) && s.slots[i].work.ReadDisk?
    case SsdFill(i) => Idx(c, s, i) && s.slots[i].work.ReadFill?
    case SsdWrite(i) => Idx(c, s, i) && s.slots[i].work.WriteCache?
    case DiskMirror(i) => Idx(c, s, i) && s.slots[i].work.WriteCache? && c.mode != WriteBack
    case CopyRead(i) => Idx(c, s, i) && s.slots[i].work.WriteDisk?
    case CopyWrite(i) => Idx(c, s, i) && s.slots[i].work.WriteDisk? && s.slots[i].work.copy.Some?
    case DiskUncached(x) => x in s.bios && s.bios[x].place == Uncached
    case MdEffect(m, k) => m < c.mdBlocks && s.heads[m].io.MdWriting? && k in s.heads[m].io.snap && k < |s.md|
    case PowerLoss => true
    case CleanRestart => s.bios == map[] && (forall i {:trigger s.slots[i]} :: 0 <= i < |s.slots| ==> s.slots[i].work.NoWork?)
                         && (forall m {:trigger s.heads[m]} :: 0 <= m < |s.heads| ==> s.heads[m].io.MdIdle?)
  }

  ghost function Apply(c: Config, s: State, step: Step): State
    requires Enabled(c, s, step)
  {
    match step
    case Map(bio, hit, victim, skip) => Submit(c, s, bio, hit, victim, skip)
    case IoDone(i) => IoCallback(c, s, i)
    case CopyDone(i) => KcopydCallback(c, s, i)
    case Kickoff(m) => MdKickoff(c, s, m)
    case MdWritten(m) => MdDone(s, m)
    case MdFinish(m) => MdDoneOne(c, s, m)
    case MdAdvance(m) => MdNext(s, m)
    case Pending(i) => DoPending(c, s, i)
    case Detach(i) => Dequeue(s, i)
    case Replay(i, hit) => DrainOne(c, s, i, hit)
    case DrainDone(i) => DrainEnd(s, i)
    case UncachedDone(x, hit) => UncachedComplete(c, s, x, hit)
    case CleanSlot(i) => StartClean(c, s, i)
    case MarkFallow(i) => DetectFallow(c, s, i)
    case SsdRead(i) => FxReadCache(s, i)
    case DiskRead(i) => FxReadDisk(s, i)
    case SsdFill(i) => FxReadFill(s, i)
    case SsdWrite(i) => FxWriteCache(s, i)
    case DiskMirror(i) => FxMirror(s, i)
    case CopyRead(i) => FxCopyRead(s, i)
    case CopyWrite(i) => FxCopyWrite(s, i)
    case DiskUncached(x) => FxUncached(s, x)
    case MdEffect(m, k) => FxMetadata(s, m, k)
    case PowerLoss => Crash(c, s)
    case CleanRestart => Remount(c, s)
  }

  /** A device I/O taking effect, as opposed to a critical section of the driver. */
  predicate IsEffect(step: Step) {
    step.SsdRead? || step.DiskRead? || step.SsdFill? || step.SsdWrite? || step.DiskMirror?
    || step.CopyRead? || step.CopyWrite? || step.DiskUncached? || step.MdEffect?
  }

  /** A new cache over a disk: every slot INVALID, nothing under way. */
  function Start(c: Config, disk: map<nat, Data>): State {
    State(seq(c.size, k => Slot(INVALID, 0, 0, [], NoWork)), seq(c.size, k => map[]), disk,
          seq(c.size, k => Rec(0, false, true, false)), seq(c.mdBlocks, k => MdHead(MdIdle, [], [])),
          map[], [], 0, {}, disk, {},
          Counters(0, 0, 0, seq(c.sets, k => 0), seq(c.sets, k => 0), seq(c.sets, k => 0)))
  }

  /** State k of a run goes to the next by its step k. */
  ghost predicate Follows(c: Config, run: seq<State>, steps: seq<Step>, k: nat)
    requires k < |steps| && k + 1 < |run|
  {
    Enabled(c, run[k], steps[k]) && run[k + 1] == Apply(c, run[k], steps[k])
  }

  /** A run from a new cache, interleaving steps in any order. */
  ghost predicate IsRun(c: Config, disk: map<nat, Data>, run: seq<State>, steps: seq<Step>) {
    && |run| == |steps| + 1 && run[0] == Start(c, disk)
    && forall k: nat {:trigger Follows(c, run, steps, k)} :: k < |steps| ==> Follows(c, run, steps, k)
  }

  ghost predicate Reachable(c: Config, disk: map<nat, Data>, s: State) {
    exists run, steps :: IsRun(c, disk, run, steps) && run[|run| - 1] == s
  }
}
