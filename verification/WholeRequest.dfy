/** Whole requests, from flashcache_map to the last completion: the handlers and the devices take
    turns until nothing is left to do, and what the requests return is what the disk alone would
    have returned. */
module WholeRequest {
  import opened Types
  import opened Protocol
  import opened Invariant
  import opened Steps
  import opened SlotIndex
  import opened SetView
  import opened Driver
  import opened HashIndex
  import opened LruLists
  import opened SetDriver
  import opened Theorems
  import opened Handover
  import opened Durability
  import R = Residency
  import P = Progress
  import X = IndexSpec

  // ----- what one request does, step by step -----

  /** What a request of a block with content v returns: what it reads, or what it leaves. */
  function Reply(v: Data, bio: Bio): Data { if bio.write then Patch(v, bio) else v }

  function BlockOf(content: map<nat, Data>, b: nat): Data { At(content, b, map[]) }

  /** The contents of the blocks after a request. */
  function Patched(content: map<nat, Data>, bio: Bio): map<nat, Data> {
    if bio.write then content[bio.dbn := Patch(BlockOf(content, bio.dbn), bio)] else content
  }

  /** The one request there is, if there is one. */
  datatype Asked = Nothing | Asked(x: nat, bio: Bio)

  /** The log with one more request, ended with its answer. */
  predicate Replied(log: seq<Ack>, now: seq<Ack>, bio: Bio, content: map<nat, Data>) {
    |now| == |log| + 1 && now[..|log|] == log && now[|log|].bio == bio && now[|log|].result == Reply(BlockOf(content, bio.dbn), bio)
  }

  /** The request has not ended yet, or it has ended with its answer; log and contents are what
      they were, but for that. */
  ghost predicate UnderWay(s: State, q: Asked, log: seq<Ack>, content: map<nat, Data>) {
    match q
    case Nothing => s.bios == map[] && s.log == log && s.logical == content
    case Asked(x, bio) =>
      && (forall y {:trigger y in s.bios} :: y in s.bios ==> y == x)
      && if x in s.bios then s.bios[x].bio == bio && s.bios[x].alone && s.log == log && s.logical == content
         else Replied(log, s.log, bio, content) && s.logical == Patched(content, bio)
  }

  /** A step of the driver or a device, other than a submission, a crash or a restart. */
  predicate Working(step: Step) { !step.Map? && !step.PowerLoss? && !step.CleanRestart? }

  lemma WorkQuiet(c: Config, s: State, step: Step)
    requires Enabled(c, s, step) && Working(step)
    ensures Durability.Quiet(s, Apply(c, s, step))
  {
    if Ending(step) { EndingQuiet(c, s, step); } else if IsEffect(step) { EffectStill(c, s, step); } else { SectionStill(c, s, step); }
  }

  lemma InvalIds(c: Config, s: State, x: nat, h: Option<nat>)
    requires MaybeIdx(c, s, h)
    ensures var t := InvalBlocks(c, s, x, h).0; t.nextId == s.nextId && t.lost == s.lost
    ensures var t := Bypass(c, s, x, h); t.nextId == s.nextId && t.lost == s.lost
  {
  }

  ghost predicate SameIds(s: State, t: State) { t.nextId == s.nextId && t.lost == s.lost }

  lemma CallbackIds(c: Config, s: State, i: nat)
    requires Idx(c, s, i)
    ensures SameIds(s, IoCallback(c, s, i)) && SameIds(s, KcopydCallback(c, s, i))
  {
    match s.slots[i].work
    case ReadCache(x, got) => if got.Some? { EndIds(s, x, got.value, i); }
    case ReadFill(x, data, _) => EndIds(s, x, data, i);
    case WriteCache(x, _, _) => EndIds(s, x, if c.mode == WriteBack then s.ssd[i] else OnDisk(s, s.slots[i].dbn), i);
    case _ =>
  }

  lemma EndIds(s: State, x: nat, result: Data, i: nat)
    requires i < |s.slots|
    ensures SameIds(s, Release(EndBio(s, x, result), i))
  {
  }

  lemma FinishIds(c: Config, s: State, i: nat)
    requires Idx(c, s, i)
    ensures SameIds(s, MdDoneJob(c, s, i))
  {
  }

  lemma EffectIds(c: Config, s: State, step: Step)
    requires Enabled(c, s, step) && IsEffect(step)
    ensures SameIds(s, Apply(c, s, step))
  {
  }

  /** No step invents requests or loses any. */
  lemma WorkIds(c: Config, s: State, step: Step)
    requires Enabled(c, s, step) && Working(step)
    ensures SameIds(s, Apply(c, s, step))
  {
    if IsEffect(step) {
      EffectIds(c, s, step);
    } else if step.Replay? {
      InvalIds(c, DetachNext(s, step.i), s.slots[step.i].work.rest[0].id, step.hit);
    } else if step.UncachedDone? {
      InvalIds(c, Moved(s, step.x, Hand), step.x, step.hit);
    } else if step.IoDone? || step.CopyDone? {
      CallbackIds(c, s, step.i);
    } else if step.MdFinish? {
      FinishIds(c, s, s.heads[step.m].active[0]);
    }
  }

  lemma EndedThere(s: State, t: State, x: nat)
    requires History(s) && History(t) && x in s.bios && SameIds(s, t) && t.log == s.log
    ensures x in t.bios
  {
  }

  lemma EndAnswers(c: Config, s: State, t: State, x: nat, q: Asked, log: seq<Ack>, content: map<nat, Data>)
    requires Register(c, s) && Register(c, t) && Keeps(s, t) && Ends(s, t, x) && UnderWay(s, q, log, content)
    ensures UnderWay(t, q, log, content)
  {
    assert FlightOk(s, x, s.bios[x]) && AckOk(t.log[|s.log|]);
  }

  lemma QuietAnswers(c: Config, s: State, t: State, q: Asked, log: seq<Ack>, content: map<nat, Data>)
    requires Inv(c, s) && Inv(c, t) && Durability.Quiet(s, t) && SameIds(s, t) && UnderWay(s, q, log, content)
    ensures UnderWay(t, q, log, content)
  {
    if y :| Ends(s, t, y) {
      EndAnswers(c, s, t, y, q, log, content);
    } else if q.Asked? && q.x in s.bios {
      EndedThere(s, t, q.x);
    } else {
      assert t.bios == map[];
    }
  }

  lemma WorkKeeps(c: Config, s: State, step: Step, q: Asked, log: seq<Ack>, content: map<nat, Data>)
    requires Inv(c, s) && Enabled(c, s, step) && Working(step) && UnderWay(s, q, log, content)
    ensures UnderWay(Apply(c, s, step), q, log, content)
  {
    WorkQuiet(c, s, step);
    WorkIds(c, s, step);
    StepKeeps(c, s, step);
    QuietAnswers(c, s, Apply(c, s, step), q, log, content);
  }

  /** It begins when a quiet cache is given the request. */
  lemma SubmitUnderWay(c: Config, s: State, bio: Bio, h: Option<nat>, v: Option<nat>, skip: bool)
    requires MaybeIdx(c, s, h) && MaybeIdx(c, s, v) && s.bios == map[]
    ensures UnderWay(Submit(c, s, bio, h, v, skip), Asked(s.nextId, bio), s.log, s.logical)
  {
    var u := NewBio(s, bio);
    SubmitStill(c, s, bio, h, v, skip);
    SubmitPlaces(c, s, bio, h, v, skip);
    assert u.bios.Keys == {s.nextId} && u.bios[s.nextId].alone;
  }

  // ----- the turns -----

  /** A step that concerns slot i alone, and what the index may see of it. */
  predicate AtSlot(step: Step, i: nat) {
    (step.IoDone? || step.CopyDone? || step.Pending? || step.Detach? || step.DrainDone? || step.SsdRead? || step.DiskRead? || step.SsdFill?
     || step.SsdWrite? || step.DiskMirror? || step.CopyRead? || step.CopyWrite?) && step.i == i
  }

  lemma NotInvalid(c: Config, s: State, i: nat)
    requires Slots(c, s) && i < |s.slots| && !s.slots[i].work.NoWork?
    ensures s.slots[i].bits != INVALID
  {
    assert SlotOk(c, i, s.slots[i]);
  }

  ghost predicate Concerns(s: State, step: Step, i: nat) {
    AtSlot(step, i) || (step.MdFinish? && step.m < |s.heads| && s.heads[step.m].active != [] && s.heads[step.m].active[0] == i)
  }

  lemma ConcernsTouch(c: Config, s: State, step: Step, i: nat)
    requires Enabled(c, s, step) && Concerns(s, step, i)
    ensures StepTouch(c, s, step).Touched? ==> StepTouch(c, s, step).i == i
  {
  }

  lemma SlotTurn(c: Config, disk: map<nat, Data>, run: seq<State>, steps: seq<Step>, s: State, t: State, step: Step, i: nat)
    requires Reaches(c, disk, run, steps, s) && Reaches(c, disk, run + [t], steps + [step], t) && i < |s.slots| && !s.slots[i].work.NoWork?
    requires Concerns(s, step, i) && !step.PowerLoss? && !step.CleanRestart?
    ensures MovesAt(c, s.slots, t.slots, i)
  {
    Stepped(c, disk, run, steps, s, t, step);
    ReachableGood(c, disk, s);
    NotInvalid(c, s, i);
    ConcernsTouch(c, s, step, i);
    AfterAt(c, s.slots, t.slots, StepTouch(c, s, step), i);
  }

  lemma Elsewhere(c: Config, s: seq<Slot>, t: seq<Slot>, j: nat, start: nat, jhash: nat -> nat, x: X.Index, i: nat)
    requires Indexed(c, s, j, start, jhash, x, None) && MovesAt(c, s, t, i) && !(start <= i < start + |x.bits|)
    ensures Indexed(c, t, j, start, jhash, x, None)
  {
    forall n: nat | n < |x.bits| ensures SameAt(x, t, start, n) { assert SameAt(x, s, start, n); }
  }

  /** The index follows, if slot i is of its set. */
  method Observe(k: Cache, cs: CacheSet, i: nat, ghost j: nat, ghost s: seq<Slot>)
    requires k.Valid() && cs.Valid() && Indexed(k.c, s, j, cs.start, cs.jhash, cs.Model(), None) && MovesAt(k.c, s, k.slots[..], i)
    modifies cs, cs.bits, cs.dbn, cs.hashPrev, cs.hashNext, cs.buckets
    ensures InStep(k, cs, j, None)
  {
    if cs.start <= i < cs.start + cs.bits.Length {
      Catch(k, cs, i, j, s);
    } else {
      Elsewhere(k.c, s, k.slots[..], j, cs.start, cs.jhash, cs.Model(), i);
    }
  }

  /** The handler or the device that the step of slot i belongs to. */
  method TakeDue(k: Cache, step: Step, i: nat)
    requires k.Valid() && Enabled(k.c, k.Now(), step) && AtSlot(step, i)
    modifies k, k.slots
    ensures k.Valid() && k.steps == old(k.steps) + [step] && k.run == old(k.run) + [k.Now()]
  {
    if step.IoDone? { k.IoCallback(i); }
    else if step.CopyDone? { k.KcopydCallback(i); }
    else if step.Pending? { k.BeginPending(i); }
    else if step.Detach? { k.DeqPending(i); }
    else if step.DrainDone? { k.EndDrain(i); }
    else if step.SsdRead? || step.DiskRead? || step.CopyRead? { k.SlotRead(step, i); }
    else { k.SlotWrite(step, i); }
  }

  lemma DueFacts(c: Config, disk: map<nat, Data>, s: State, i: nat)
    requires WellFormed(c) && Reachable(c, disk, s) && i < |s.slots| && P.OnItsOwn(s.slots[i].work)
    ensures P.Productive(c, s, P.Due(c.mode, s.slots[i].work, i)) && AtSlot(P.Due(c.mode, s.slots[i].work, i), i)
  {
    ReachableGood(c, disk, s);
    P.DueMoves(c, s, i);
    DueAt(c.mode, s.slots[i].work, i);
  }

  lemma DueAt(mode: Mode, w: Work, i: nat)
    ensures AtSlot(P.Due(mode, w, i), i)
  {
  }

  method DueTurn(k: Cache, cs: CacheSet, i: nat, ghost j: nat) returns (ghost step: Step)
    requires InStep(k, cs, j, None) && i < k.slots.Length && P.OnItsOwn(k.slots[i].work)
    modifies k, k.slots, cs, cs.bits, cs.dbn, cs.hashPrev, cs.hashNext, cs.buckets
    ensures InStep(k, cs, j, None) && P.Productive(k.c, old(k.Now()), step) && k.steps == old(k.steps) + [step] && k.run == old(k.run) + [k.Now()]
  {
    ghost var s, run, steps := k.Now(), k.run, k.steps;
    DueFacts(k.c, k.initial, s, i) by { assert Reachable(k.c, k.initial, s); }
    var due := P.Due(k.c.mode, k.slots[i].work, i);
    step := due;
    TakeDue(k, due, i);
    SlotTurn(k.c, k.initial, run, steps, s, k.Now(), step, i);
    Observe(k, cs, i, j, s.slots);
  }

  // ----- metadata writes -----

  lemma HeadFacts(c: Config, disk: map<nat, Data>, s: State, m: nat)
    requires WellFormed(c) && Reachable(c, disk, s) && m < |s.heads|
    ensures |s.heads| == c.mdBlocks && Shaped(c, s)
    ensures s.heads[m].io.MdWriting? ==> forall n: nat {:trigger n in s.heads[m].io.snap} :: n in s.heads[m].io.snap ==> n < |s.md|
    ensures s.heads[m].active != [] ==> Idx(c, s, s.heads[m].active[0]) && !s.slots[s.heads[m].active[0]].work.NoWork?
  {
    ReachableGood(c, disk, s);
    assert HeadOk(c, s, m);
    if s.heads[m].active != [] { assert All(s.heads[m])[0] == s.heads[m].active[0] && c.setOf[s.heads[m].active[0]] < c.sets; }
  }

  /** What is to happen next to a metadata block with a write under way. */
  method HeadDue(k: Cache, m: nat) returns (step: Step)
    requires k.Valid() && m < |k.heads| && !k.heads[m].io.MdIdle?
    ensures P.Productive(k.c, k.Now(), step) && (step.Kickoff? || step.MdEffect? || step.MdWritten? || step.MdFinish? || step.MdAdvance?)
    ensures step.MdFinish? ==> step.m == m
  {
    HeadFacts(k.c, k.initial, k.Now(), m) by { assert Reachable(k.c, k.initial, k.Now()); }
    var io := k.heads[m].io;
    if io.MdScheduled? {
      step := Kickoff(m);
    } else if io.MdWriting? {
      var left := io.snap.Keys - io.applied;
      if left != {} {
        var n :| n in left;
        assert n in k.Now().heads[m].io.snap;
        step := MdEffect(m, n);
      } else {
        assert forall n :: n in io.snap.Keys ==> n in left || n in io.applied;
        step := MdWritten(m);
      }
    } else {
      step := if k.heads[m].active == [] then MdAdvance(m) else MdFinish(m);
    }
  }

  method TakeHead(k: Cache, step: Step)
    requires k.Valid() && Enabled(k.c, k.Now(), step) && (step.Kickoff? || step.MdEffect? || step.MdWritten? || step.MdFinish? || step.MdAdvance?)
    modifies k, k.slots
    ensures k.Valid() && k.steps == old(k.steps) + [step] && k.run == old(k.run) + [k.Now()]
  {
    if step.Kickoff? { k.MdWriteKickoff(step.m); }
    else if step.MdEffect? { k.MetadataIo(step.m, step.k); }
    else if step.MdWritten? { k.TakeBatch(step.m); }
    else if step.MdFinish? { k.FinishFirst(step.m); }
    else { k.NextUpdate(step.m); }
  }

  lemma StillTurn(c: Config, disk: map<nat, Data>, run: seq<State>, steps: seq<Step>, s: State, t: State, step: Step)
    requires Reaches(c, disk, run, steps, s) && Reaches(c, disk, run + [t], steps + [step], t)
    requires step.Kickoff? || step.MdEffect? || step.MdWritten? || step.MdAdvance? || step.DiskUncached?
    ensures After(s.slots, t.slots, Untouched)
  {
    Stepped(c, disk, run, steps, s, t, step);
  }

  method HeadTurn(k: Cache, cs: CacheSet, m: nat, ghost j: nat) returns (ghost step: Step)
    requires InStep(k, cs, j, None) && m < |k.heads| && !k.heads[m].io.MdIdle?
    modifies k, k.slots, cs, cs.bits, cs.dbn, cs.hashPrev, cs.hashNext, cs.buckets
    ensures InStep(k, cs, j, None) && P.Productive(k.c, old(k.Now()), step) && k.steps == old(k.steps) + [step] && k.run == old(k.run) + [k.Now()]
  {
    ghost var s, run, steps := k.Now(), k.run, k.steps;
    var due := HeadDue(k, m);
    step := due;
    HeadFacts(k.c, k.initial, s, m) by { assert Reachable(k.c, k.initial, s); }
    if due.MdFinish? {
      var i := k.heads[m].active[0];
      TakeHead(k, due);
      SlotTurn(k.c, k.initial, run, steps, s, k.Now(), step, i);
      Observe(k, cs, i, j, s.slots);
    } else {
      TakeHead(k, due);
      StillTurn(k.c, k.initial, run, steps, s, k.Now(), step);
      SetDriver.Still(k.c, s.slots, k.slots[..], j, cs.start, cs.jhash, cs.Model(), None);
    }
  }

  // ----- requests that wait or are with the disk -----

  /** The request is one of set j. */
  predicate Of(c: Config, q: Asked, j: nat) { q.Asked? ==> c.hashBlock(q.bio.dbn) == j }

  lemma WaiterFacts(c: Config, disk: map<nat, Data>, s: State, q: Asked, log: seq<Ack>, content: map<nat, Data>, i: nat)
    requires WellFormed(c) && Reachable(c, disk, s) && UnderWay(s, q, log, content) && i < |s.slots|
    ensures s.slots[i].work.Drain? && s.slots[i].work.rest != [] ==> q.Asked? && s.slots[i].dbn == q.bio.dbn
  {
    ReachableGood(c, disk, s);
    assert EntriesOk(s, i);
    if s.slots[i].work.Drain? && s.slots[i].work.rest != [] { assert Rest(s.slots[i].work)[0].id in s.bios; }
  }

  method DrainTurn(k: Cache, cs: CacheSet, i: nat, ghost j: nat) returns (ghost step: Step)
    requires InStep(k, cs, j, None) && i < k.slots.Length && k.slots[i].work.Drain? && k.slots[i].work.rest != [] && k.c.hashBlock(k.slots[i].dbn) == j
    modifies k, k.slots, cs, cs.bits, cs.dbn, cs.hashPrev, cs.hashNext, cs.buckets
    ensures InStep(k, cs, j, None) && P.Productive(k.c, old(k.Now()), step) && k.steps == old(k.steps) + [step] && k.run == old(k.run) + [k.Now()]
  {
    ghost var s, run, steps := k.Now(), k.run, k.steps;
    var h := ReplayNext(k, cs, i, j);
    step := Replay(i, h);
    WasEnabled(k.c, k.initial, run, steps, s, k.Now(), step);
  }

  lemma WasEnabled(c: Config, disk: map<nat, Data>, run: seq<State>, steps: seq<Step>, s: State, t: State, step: Step)
    requires Reaches(c, disk, run, steps, s) && Reaches(c, disk, run + [t], steps + [step], t)
    ensures Enabled(c, s, step) && t == Apply(c, s, step)
  {
    assert Follows(c, run + [t], steps + [step], |steps|);
    assert (run + [t])[|steps|] == s && (run + [t])[|steps| + 1] == t && (steps + [step])[|steps|] == step;
  }

  method DiskTurn(k: Cache, cs: CacheSet, x: nat, ghost j: nat) returns (ghost step: Step)
    requires InStep(k, cs, j, None) && x in k.bios && k.bios[x].place == Uncached && k.c.hashBlock(k.bios[x].bio.dbn) == j
    modifies k, k.slots, cs, cs.bits, cs.dbn, cs.hashPrev, cs.hashNext, cs.buckets
    ensures InStep(k, cs, j, None) && P.Productive(k.c, old(k.Now()), step) && k.steps == old(k.steps) + [step] && k.run == old(k.run) + [k.Now()]
  {
    ghost var s, run, steps := k.Now(), k.run, k.steps;
    if k.bios[x].ran {
      var h := UncachedIoComplete(k, cs, x, j);
      step := UncachedDone(x, h);
      WasEnabled(k.c, k.initial, run, steps, s, k.Now(), step);
    } else {
      k.UncachedIo(x);
      step := DiskUncached(x);
      WasEnabled(k.c, k.initial, run, steps, s, k.Now(), step);
      StillTurn(k.c, k.initial, run, steps, s, k.Now(), step);
      SetDriver.Still(k.c, s.slots, k.slots[..], j, cs.start, cs.jhash, cs.Model(), None);
    }
  }

  // ----- until nothing is left to do -----

  predicate AtWork(sl: Slot) { !sl.work.NoWork? && !InMd(sl.work) }

  /** A slot whose job can go on. */
  method FindJob(k: Cache) returns (i: nat)
    ensures i <= k.slots.Length && (i < k.slots.Length ==> AtWork(k.slots[i]))
    ensures i == k.slots.Length ==> forall n: nat {:trigger k.slots[n]} :: n < k.slots.Length ==> !AtWork(k.slots[n])
  {
    i := 0;
    while i < k.slots.Length && !AtWork(k.slots[i])
      invariant i <= k.slots.Length && forall n: nat {:trigger k.slots[n]} :: n < i ==> !AtWork(k.slots[n])
    {
      i := i + 1;
    }
  }

  /** A metadata block with a write under way. */
  method FindHead(k: Cache) returns (m: nat)
    ensures m <= |k.heads| && (m < |k.heads| ==> !k.heads[m].io.MdIdle?)
    ensures m == |k.heads| ==> forall n: nat {:trigger k.heads[n]} :: n < |k.heads| ==> k.heads[n].io.MdIdle?
  {
    m := 0;
    while m < |k.heads| && k.heads[m].io.MdIdle?
      invariant m <= |k.heads| && forall n: nat {:trigger k.heads[n]} :: n < m ==> k.heads[n].io.MdIdle?
    {
      m := m + 1;
    }
  }

  lemma NoneAtWork(c: Config, disk: map<nat, Data>, s: State)
    requires WellFormed(c) && Reachable(c, disk, s)
    requires forall n: nat {:trigger s.slots[n]} :: n < |s.slots| ==> !AtWork(s.slots[n])
    requires forall n: nat {:trigger s.heads[n]} :: n < |s.heads| ==> s.heads[n].io.MdIdle?
    ensures forall n {:trigger s.slots[n]} :: 0 <= n < |s.slots| ==> s.slots[n].work.NoWork?
    ensures forall x {:trigger s.bios[x]} :: x in s.bios ==> s.bios[x].place == Uncached
  {
    ReachableGood(c, disk, s);
    forall n: nat | n < |s.slots| ensures s.slots[n].work.NoWork? { assert c.mdOf[n] < c.mdBlocks && HeadOk(c, s, c.mdOf[n]); }
    forall x | x in s.bios ensures s.bios[x].place == Uncached { P.NoneElsewhere(c, s, x); }
  }

  lemma TurnFacts(c: Config, disk: map<nat, Data>, run: seq<State>, steps: seq<Step>, s: State, t: State, step: Step,
                  q: Asked, log: seq<Ack>, content: map<nat, Data>, aim: R.Aim)
    requires Reaches(c, disk, run, steps, s) && Reaches(c, disk, run + [t], steps + [step], t) && P.Productive(c, s, step)
    requires UnderWay(s, q, log, content) && R.Toward(c, s, aim)
    ensures UnderWay(t, q, log, content) && P.Lower(c, s, t) && R.Toward(c, t, aim) && R.Spares(c, aim, step)
  {
    WasEnabled(c, disk, run, steps, s, t, step);
    ReachableGood(c, disk, s);
    P.ProductiveLowers(c, s, step);
    WorkKeeps(c, s, step, q, log, content);
    AimTurn(c, s, step, aim);
  }

  lemma AimTurn(c: Config, s: State, step: Step, aim: R.Aim)
    requires Inv(c, s) && P.Productive(c, s, step) && R.Toward(c, s, aim)
    ensures R.Toward(c, Apply(c, s, step), aim) && R.Spares(c, aim, step)
  {
    WorkQuiet(c, s, step);
    R.TowardOn(c, s, aim, step);
  }

  /** One turn of whoever has something to do. */
  method Turn(k: Cache, cs: CacheSet, ghost j: nat, ghost q: Asked, ghost log: seq<Ack>, ghost content: map<nat, Data>)
      returns (rest: bool, ghost step: Step)
    requires InStep(k, cs, j, None) && UnderWay(k.Now(), q, log, content) && Of(k.c, q, j)
    modifies k, k.slots, cs, cs.bits, cs.dbn, cs.hashPrev, cs.hashNext, cs.buckets
    ensures InStep(k, cs, j, None)
    ensures rest ==> k.Now() == old(k.Now()) && P.AtRest(k.Now()) && k.steps == old(k.steps)
    ensures !rest ==> P.Productive(k.c, old(k.Now()), step) && k.steps == old(k.steps) + [step] && k.run == old(k.run) + [k.Now()]
  {
    rest := false;
    assert Reachable(k.c, k.initial, k.Now());
    var i := FindJob(k);
    if i < k.slots.Length {
      WaiterFacts(k.c, k.initial, k.Now(), q, log, content, i);
      if P.OnItsOwn(k.slots[i].work) { step := DueTurn(k, cs, i, j); } else { step := DrainTurn(k, cs, i, j); }
      return;
    }
    var m := FindHead(k);
    if m < |k.heads| {
      step := HeadTurn(k, cs, m, j);
      return;
    }
    NoneAtWork(k.c, k.initial, k.Now());
    if y :| y in k.bios {
      step := DiskTurn(k, cs, y, j);
    } else {
      rest, step := true, PowerLoss;
    }
  }

  /** One turn on the way to what is being done. */
  method TakeTurn(k: Cache, cs: CacheSet, ghost j: nat, ghost q: Asked, ghost log: seq<Ack>, ghost content: map<nat, Data>, ghost aim: R.Aim)
      returns (rest: bool, ghost step: Step)
    requires InStep(k, cs, j, None) && UnderWay(k.Now(), q, log, content) && Of(k.c, q, j) && R.Toward(k.c, k.Now(), aim)
    modifies k, k.slots, cs, cs.bits, cs.dbn, cs.hashPrev, cs.hashNext, cs.buckets
    ensures InStep(k, cs, j, None) && UnderWay(k.Now(), q, log, content) && R.Toward(k.c, k.Now(), aim)
    ensures if rest then k.Now() == old(k.Now()) && P.AtRest(k.Now()) && k.steps == old(k.steps)
            else P.Lower(k.c, old(k.Now()), k.Now()) && k.steps == old(k.steps) + [step] && R.Spares(k.c, aim, step)
  {
    ghost var s, run, steps := k.Now(), k.run, k.steps;
    rest, step := Turn(k, cs, j, q, log, content);
    if !rest { TurnFacts(k.c, k.initial, run, steps, s, k.Now(), step, q, log, content, aim); }
  }

  /** The handlers and the devices take turns, and come to rest. */
  method Settle(k: Cache, cs: CacheSet, ghost j: nat, ghost q: Asked, ghost log: seq<Ack>, ghost content: map<nat, Data>, ghost aim: R.Aim)
      returns (ghost taken: seq<Step>)
    requires InStep(k, cs, j, None) && UnderWay(k.Now(), q, log, content) && Of(k.c, q, j) && R.Toward(k.c, k.Now(), aim)
    modifies k, k.slots, cs, cs.bits, cs.dbn, cs.hashPrev, cs.hashNext, cs.buckets
    ensures InStep(k, cs, j, None) && UnderWay(k.Now(), q, log, content) && P.AtRest(k.Now()) && R.Toward(k.c, k.Now(), aim)
    ensures k.steps == old(k.steps) + taken && AllSpare(k.c, aim, taken)
  {
    ghost var before := k.steps;
    var rest := false;
    taken := [];
    while !rest
      invariant InStep(k, cs, j, None) && UnderWay(k.Now(), q, log, content) && (rest ==> P.AtRest(k.Now())) && R.Toward(k.c, k.Now(), aim)
      invariant k.steps == before + taken && AllSpare(k.c, aim, taken)
      decreases P.SlotRanks(k.slots[..]), P.BioRanks(k.Now()), P.HeadRanks(k.c, k.heads), if rest then 0 else 1
    {
      ghost var step;
      rest, step := TakeTurn(k, cs, j, q, log, content, aim);
      if !rest {
        OneMore(k.c, aim, before, taken, step);
        taken := taken + [step];
      }
    }
  }

  lemma OneMore(c: Config, aim: R.Aim, before: seq<Step>, taken: seq<Step>, step: Step)
    requires AllSpare(c, aim, taken) && R.Spares(c, aim, step)
    ensures (before + taken) + [step] == before + (taken + [step]) && AllSpare(c, aim, taken + [step])
  {
  }

  ghost predicate AllSpare(c: Config, aim: R.Aim, steps: seq<Step>) {
    forall n {:trigger steps[n]} :: 0 <= n < |steps| ==> R.Spares(c, aim, steps[n])
  }

  // ----- whole requests -----

  lemma Submitted(c: Config, disk: map<nat, Data>, run: seq<State>, steps: seq<Step>, s: State, t: State, bio: Bio, h: Found, v: Found, skip: bool)
    requires Reaches(c, disk, run, steps, s) && Reaches(c, disk, run + [t], steps + [Step.Map(bio, h, v, skip)], t) && P.AtRest(s)
    ensures UnderWay(t, Asked(s.nextId, bio), s.log, s.logical)
  {
    WasEnabled(c, disk, run, steps, s, t, Step.Map(bio, h, v, skip));
    SubmitUnderWay(c, s, bio, h, v, skip);
  }

  /** What a request given to a cache at rest is to come to. */
  ghost function AimOf(c: Config, s: State, bio: Bio, h: Found, v: Found, skip: bool): R.Aim {
    if !Bypasses(c, bio, skip) && (h.Some? || (v.Some? && (bio.write || !skip))) then R.Serve(s, if h.Some? then h.value else v.value, s.nextId, bio, h.Some?)
    else R.Pass(s.nextId, bio)
  }

  lemma AimBegins(c: Config, disk: map<nat, Data>, run: seq<State>, steps: seq<Step>, s: State, t: State, bio: Bio, h: Found, v: Found, skip: bool)
    requires Reaches(c, disk, run, steps, s) && Reaches(c, disk, run + [t], steps + [Step.Map(bio, h, v, skip)], t) && P.AtRest(s)
    requires h.Some? ==> v.None?
    ensures R.Toward(c, t, AimOf(c, s, bio, h, v, skip)) && Inv(c, s) && IsLookup(c, s, bio.dbn, h) && MaybeIdx(c, s, h)
  {
    WasEnabled(c, disk, run, steps, s, t, Step.Map(bio, h, v, skip));
    ReachableGood(c, disk, s);
    if Bypasses(c, bio, skip) {
      R.PassingBegins(c, s, bio, h, v, skip);
    } else if h.Some? || (v.Some? && (bio.write || !skip)) {
      R.ServingBegins(c, s, bio, h, v, skip);
    } else {
      R.MissPasses(c, s, bio, v, skip);
    }
  }

  lemma AimFits(c: Config, s: State, j: nat, start: nat, jhash: nat -> nat, x: X.Index, bio: Bio, h: Found, v: Found, skip: bool)
    requires Slots(c, s) && Indexed(c, s.slots, j, start, jhash, x, None) && IsLookup(c, s, bio.dbn, h) && MaybeIdx(c, s, h)
    requires !Bypasses(c, bio, skip) && h.None? ==> InvalidFirst(x.bits, Local(start, v)) && (v.Some? ==> v.value >= start)
    ensures R.AimFor(c, s, AimOf(c, s, bio, h, v, skip), start, |x.bits|, bio, skip)
  {
    R.LookupGone(c, s, bio.dbn, h);
    if !Bypasses(c, bio, skip) && h.None? {
      assert R.Absent(s, bio.dbn);
      forall i | start <= i < start + |x.bits| && i < |s.slots| ensures s.slots[i].bits == x.bits[i - start] { assert SameAt(x, s.slots, start, i - start); }
    }
  }

  /** A quiet cache is given a request. */
  method Enter(k: Cache, cs: CacheSet, rs: ReclaimSet, bio: Bio, skip: bool, lru: bool, threshold: int, ghost j: nat) returns (ghost aim: R.Aim, ghost step: Step)
    requires InStep(k, cs, j, None) && Reclaims(cs, rs) && P.AtRest(k.Now()) && k.c.hashBlock(bio.dbn) == j
    modifies k, k.slots, cs, cs.bits, cs.dbn, cs.hashPrev, cs.hashNext, cs.buckets, rs, rs.lruPrev, rs.lruNext, rs.isWarm, rs.useCnt
    ensures InStep(k, cs, j, None) && Reclaims(cs, rs) && UnderWay(k.Now(), Asked(old(k.nextId), bio), old(k.log), old(k.logical))
    ensures R.Toward(k.c, k.Now(), aim) && R.AimFor(k.c, old(k.Now()), aim, cs.start, cs.bits.Length, bio, skip)
    ensures k.steps == old(k.steps) + [step] && step.Map?
  {
    ghost var s, run, steps, x := k.Now(), k.run, k.steps, cs.Model();
    var h, v := SetDriver.Map(k, cs, rs, bio, skip, lru, threshold, j);
    step := Step.Map(bio, h, v, skip);
    aim := AimOf(k.c, s, bio, h, v, skip);
    EnterFacts(k.c, k.initial, run, steps, s, k.Now(), j, cs.start, cs.jhash, x, bio, h, v, skip);
  }

  lemma EnterFacts(c: Config, disk: map<nat, Data>, run: seq<State>, steps: seq<Step>, s: State, t: State, j: nat, start: nat, jhash: nat -> nat, x: X.Index,
                   bio: Bio, h: Found, v: Found, skip: bool)
    requires Reaches(c, disk, run, steps, s) && Reaches(c, disk, run + [t], steps + [Step.Map(bio, h, v, skip)], t) && P.AtRest(s)
    requires Indexed(c, s.slots, j, start, jhash, x, None) && (h.Some? ==> v.None?)
    requires !Bypasses(c, bio, skip) && h.None? ==> InvalidFirst(x.bits, Local(start, v)) && (v.Some? ==> v.value >= start)
    ensures UnderWay(t, Asked(s.nextId, bio), s.log, s.logical)
    ensures R.Toward(c, t, AimOf(c, s, bio, h, v, skip)) && R.AimFor(c, s, AimOf(c, s, bio, h, v, skip), start, |x.bits|, bio, skip)
  {
    Submitted(c, disk, run, steps, s, t, bio, h, v, skip);
    AimBegins(c, disk, run, steps, s, t, bio, h, v, skip);
    AimFits(c, s, j, start, jhash, x, bio, h, v, skip);
  }

  lemma SpareToo(c: Config, aim: R.Aim, steps: seq<Step>, first: Step)
    requires AllSpare(c, aim, steps) && first.Map?
    ensures AllSpare(c, aim, [first] + steps)
  {
  }

  lemma AimReached(c: Config, disk: map<nat, Data>, was: State, s: State, steps: seq<Step>, first: Step, aim: R.Aim, start: nat, n: nat, bio: Bio, skip: bool)
    requires WellFormed(c) && Reachable(c, disk, s) && P.AtRest(s) && R.Toward(c, s, aim) && R.AimFor(c, was, aim, start, n, bio, skip)
    requires AllSpare(c, aim, steps) && first.Map?
    ensures R.Outcome(c, was, s, [first] + steps, start, n, bio, skip)
  {
    assert Inv(c, s) by { ReachableGood(c, disk, s); }
    SpareToo(c, aim, steps, first);
    R.AimMet(c, was, s, [first] + steps, aim, start, n, bio, skip);
  }

  /** A request given to a quiet cache is brought to its end, leaves the cache quiet again, and is
      answered with what the block held; what it has made of it is what the block holds then. And
      the cache has been put to use: the block is cached afterwards unless it cannot be, and if it was
      before, the disk has been spared. */
  method Serve(k: Cache, cs: CacheSet, rs: ReclaimSet, bio: Bio, skip: bool, lru: bool, threshold: int, ghost j: nat) returns (result: Data)
    requires InStep(k, cs, j, None) && Reclaims(cs, rs) && P.AtRest(k.Now()) && k.c.hashBlock(bio.dbn) == j
    modifies k, k.slots, cs, cs.bits, cs.dbn, cs.hashPrev, cs.hashNext, cs.buckets, rs, rs.lruPrev, rs.lruNext, rs.isWarm, rs.useCnt
    ensures InStep(k, cs, j, None) && Reclaims(cs, rs) && P.AtRest(k.Now())
    ensures result == Reply(BlockOf(old(k.logical), bio.dbn), bio) && k.logical == Patched(old(k.logical), bio)
    ensures Replied(old(k.log), k.log, bio, old(k.logical))
    ensures old(k.steps) <= k.steps && R.Outcome(k.c, old(k.Now()), k.Now(), k.steps[|old(k.steps)|..], cs.start, cs.bits.Length, bio, skip)
  {
    ghost var q, log, content, s := Asked(k.nextId, bio), k.log, k.logical, k.Now();
    ghost var aim, step := Enter(k, cs, rs, bio, skip, lru, threshold, j);
    ghost var taken := Settle(k, cs, j, q, log, content, aim);
    InTheEnd(k.Now(), bio, s.nextId, log, content);
    result := k.log[|k.log| - 1].result;
    Behind(old(k.steps), step, taken);
    AimReached(k.c, k.initial, s, k.Now(), taken, step, aim, cs.start, cs.bits.Length, bio, skip);
  }

  lemma InTheEnd(s: State, bio: Bio, x: nat, log: seq<Ack>, content: map<nat, Data>)
    requires UnderWay(s, Asked(x, bio), log, content) && P.AtRest(s)
    ensures Replied(log, s.log, bio, content) && s.logical == Patched(content, bio)
  {
  }

  lemma Behind(before: seq<Step>, step: Step, taken: seq<Step>)
    ensures before <= before + [step] + taken && (before + [step] + taken)[|before|..] == [step] + taken
  {
  }

  lemma CleanMoves(c: Config, disk: map<nat, Data>, run: seq<State>, steps: seq<Step>, s: State, t: State, i: nat)
    requires Reaches(c, disk, run, steps, s) && Reaches(c, disk, run + [t], steps + [CleanSlot(i)], t) && i < |s.slots| && P.AtRest(s)
    requires s.slots[i].bits.dirty
    ensures MovesAt(c, s.slots, t.slots, i) && UnderWay(t, Nothing, s.log, s.logical) && R.Toward(c, t, R.Clean(s, i))
  {
    Stepped(c, disk, run, steps, s, t, CleanSlot(i));
    ReachableGood(c, disk, s);
    WasEnabled(c, disk, run, steps, s, t, CleanSlot(i));
    WorkKeeps(c, s, CleanSlot(i), Nothing, s.log, s.logical);
    AfterAt(c, s.slots, t.slots, StepTouch(c, s, CleanSlot(i)), i);
    R.CleaningBegins(c, s, i);
  }

  lemma CleanReached(c: Config, disk: map<nat, Data>, was: State, s: State, i: nat)
    requires WellFormed(c) && Reachable(c, disk, s) && P.AtRest(s) && R.Toward(c, s, R.Clean(was, i))
    ensures CleanNow(was, s, i)
  {
    ReachableGood(c, disk, s);
    R.CleaningEnds(c, was, s, i);
  }

  /** Slot i is exactly VALID and keeps its block, and the disk has what the slot holds. */
  ghost predicate CleanNow(was: State, s: State, i: nat) {
    && i < |was.slots| && i < |was.ssd| && s.slots == was.slots[i := Slot(VALID, was.slots[i].dbn, 0, [], NoWork)]
    && s.ssd == was.ssd && s.disk == was.disk[was.slots[i].dbn := was.ssd[i]]
  }

  /** A block written back to the disk, on nobody's behalf, if it is DIRTY. */
  method CleanOne(k: Cache, cs: CacheSet, i: nat, ghost j: nat)
    requires InStep(k, cs, j, None) && P.AtRest(k.Now())
    modifies k, k.slots, cs, cs.bits, cs.dbn, cs.hashPrev, cs.hashNext, cs.buckets
    ensures InStep(k, cs, j, None) && P.AtRest(k.Now()) && k.logical == old(k.logical) && k.log == old(k.log)
    ensures if i < k.slots.Length && old(k.slots[..])[i].bits.dirty then CleanNow(old(k.Now()), k.Now(), i) else k.Now() == old(k.Now())
  {
    QuietIdle(k.c, k.initial, k.Now(), i) by { assert Reachable(k.c, k.initial, k.Now()); }
    if i < k.slots.Length && k.slots[i].bits.dirty && !k.slots[i].bits.Busy() {
      ghost var s, run, steps := k.Now(), k.run, k.steps;
      k.CleanBlock(i);
      CleanMoves(k.c, k.initial, run, steps, s, k.Now(), i);
      Observe(k, cs, i, j, s.slots);
      ghost var taken := Settle(k, cs, j, Nothing, s.log, s.logical, R.Clean(s, i));
      CleanReached(k.c, k.initial, s, k.Now(), i);
    }
  }

  lemma QuietIdle(c: Config, disk: map<nat, Data>, s: State, i: nat)
    requires WellFormed(c) && Reachable(c, disk, s) && P.AtRest(s)
    ensures i < |s.slots| ==> !s.slots[i].bits.Busy()
  {
    ReachableGood(c, disk, s);
    if i < |s.slots| { assert SlotOk(c, i, s.slots[i]); }
  }
}
