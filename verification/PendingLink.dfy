/** The requests the protocol has waiting for a slot are the jobs the pending table has for it,
    in the same order: each step adds at most one to one line or takes one line out whole, and
    the table does the same. */
module PendingLink {
  import opened Types
  import opened Protocol
  import opened Invariant
  import opened Steps
  import opened SlotIndex
  import opened PendingQueue
  import opened Theorems
  import Links

  // ----- what a step does to the lines -----

  datatype Turn = Stay | Join(i: nat, e: Entry) | Leave(i: nat) | Clear

  /** Exactly what w says has changed. */
  ghost predicate LinesAfter(s: seq<Slot>, t: seq<Slot>, w: Turn) {
    && |t| == |s| && (w.Join? || w.Leave? ==> w.i < |s|)
    && forall j {:trigger t[j]} :: 0 <= j < |s| ==>
         t[j].pend == if w.Join? && j == w.i then s[j].pend + [w.e] else if w.Clear? || (w.Leave? && j == w.i) then [] else s[j].pend
  }

  /** A request that invalidates waits, unless the slot found is idle and clean. */
  function InvalTurn(s: seq<Slot>, x: nat, h: Option<nat>): Turn {
    match h
    case None => Stay
    case Some(i) => if i < |s| && !IdleClean(s[i]) then Join(i, Entry(x, true)) else Stay
  }

  /** A hit waits while the slot is busy or others wait for it. */
  function HitTurn(s: seq<Slot>, x: nat, i: nat): Turn {
    if i < |s| && (s[i].bits.Busy() || s[i].nrQueued != 0) then Join(i, Entry(x, false)) else Stay
  }

  ghost function StepTurn(c: Config, s: State, step: Step): Turn
    requires Enabled(c, s, step)
  {
    match step
    case Map(bio, hit, _, skip) =>
      if Bypasses(c, bio, skip) then InvalTurn(s.slots, s.nextId, hit)
      else if hit.Some? then HitTurn(s.slots, s.nextId, hit.value) else Stay
    case UncachedDone(x, hit) => InvalTurn(s.slots, x, hit)
    case Replay(i, hit) => if s.slots[i].work.rest[0].inval then InvalTurn(s.slots, s.slots[i].work.rest[0].id, hit) else Stay
    case Detach(i) => Leave(i)
    case PowerLoss => Clear
    case _ => Stay
  }

  lemma ClearFallowLines(c: Config, s: State, i: nat)
    requires Idx(c, s, i)
    ensures LinesAfter(s.slots, ClearFallow(c, s, i).slots, Stay) && LinesAfter(s.slots, StartClean(c, s, i).slots, Stay)
    ensures var t := ClearFallow(c, s, i); t.slots[i].nrQueued == s.slots[i].nrQueued && t.slots[i].bits.Busy() == s.slots[i].bits.Busy()
  {
  }

  lemma WaitLines(c: Config, s: State, x: nat, i: nat)
    requires Idx(c, s, i)
    ensures var t := Enqueue(s, x, i, true);
            LinesAfter(s.slots, t.slots, Join(i, Entry(x, true))) && Idx(c, t, i) && LinesAfter(s.slots, StartClean(c, t, i).slots, Join(i, Entry(x, true)))
  {
    ClearFallowLines(c, Enqueue(s, x, i, true), i);
  }

  lemma InvalLines(c: Config, s: State, x: nat, h: Option<nat>)
    requires MaybeIdx(c, s, h)
    ensures LinesAfter(s.slots, InvalBlocks(c, s, x, h).0.slots, InvalTurn(s.slots, x, h))
    ensures LinesAfter(s.slots, Bypass(c, s, x, h).slots, InvalTurn(s.slots, x, h))
  {
    if h.Some? && !IdleClean(s.slots[h.value]) { WaitLines(c, s, x, h.value); }
  }

  lemma HitLines(c: Config, s: State, x: nat, i: nat)
    requires Idx(c, s, i)
    ensures LinesAfter(s.slots, Hit(c, s, x, i).slots, HitTurn(s.slots, x, i))
  {
    ClearFallowLines(c, s, i);
    ServeLines(ClearFallow(c, s, i), x, i);
  }

  /** The part of a hit after flashcache_clear_fallow. */
  lemma ServeLines(t: State, x: nat, i: nat)
    requires i < |t.slots|
    ensures LinesAfter(t.slots, Enqueue(t, x, i, false).slots, Join(i, Entry(x, false)))
    ensures LinesAfter(t.slots, StartWriteHit(t, x, i).slots, Stay) && LinesAfter(t.slots, StartReadHit(t, x, i).slots, Stay)
  {
  }

  lemma SubmitLines(c: Config, s: State, bio: Bio, h: Option<nat>, v: Option<nat>, skip: bool)
    requires MaybeIdx(c, s, h) && MaybeIdx(c, s, v)
    ensures LinesAfter(s.slots, Submit(c, s, bio, h, v, skip).slots,
              if Bypasses(c, bio, skip) then InvalTurn(s.slots, s.nextId, h) else if h.Some? then HitTurn(s.slots, s.nextId, h.value) else Stay)
  {
    var x, t := s.nextId, NewBio(s, bio);
    if Bypasses(c, bio, skip) {
      InvalLines(c, t, x, h);
    } else if h.Some? {
      HitLines(c, t, x, h.value);
    } else {
      assert LinesAfter(t.slots, Miss(t, x, v, skip).slots, Stay);
    }
  }

  lemma StayAt(s: State, t: State, i: nat)
    requires AtIn(s, t, i)
    ensures LinesAfter(s.slots, t.slots, Stay)
  {
  }

  lemma CallbackLines(c: Config, s: State, i: nat)
    requires Idx(c, s, i)
    ensures LinesAfter(s.slots, IoCallback(c, s, i).slots, Stay)
  {
    IoCallbackAt(c, s, i);
    StayAt(s, IoCallback(c, s, i), i);
  }

  lemma FinishLines(c: Config, s: State, i: nat)
    requires Idx(c, s, i)
    ensures LinesAfter(s.slots, MdDoneJob(c, s, i).slots, Stay)
  {
    MdDoneAt(c, s, i);
    StayAt(s, MdDoneJob(c, s, i), i);
  }

  lemma UpkeepLines(c: Config, s: State, i: nat)
    requires Idx(c, s, i)
    ensures LinesAfter(s.slots, DoPending(c, s, i).slots, Stay) && LinesAfter(s.slots, DrainEnd(s, i).slots, Stay)
    ensures LinesAfter(s.slots, DetectFallow(c, s, i).slots, Stay)
  {
    ClearFallowLines(c, s, i);
  }

  lemma SectionLines(c: Config, s: State, step: Step)
    requires Enabled(c, s, step) && (Single(step) || step.MdFinish?)
    ensures LinesAfter(s.slots, Apply(c, s, step).slots, Stay)
  {
    if step.MdFinish? {
      FinishLines(c, s, s.heads[step.m].active[0]);
    } else if step.IoDone? {
      CallbackLines(c, s, step.i);
    } else if step.CleanSlot? {
      ClearFallowLines(c, s, step.i);
    } else {
      UpkeepLines(c, s, step.i);
    }
  }

  lemma EffectLines(c: Config, s: State, step: Step)
    requires Enabled(c, s, step) && (IsEffect(step) || step.CopyDone? || step.Kickoff? || step.MdWritten? || step.MdAdvance?)
    ensures LinesAfter(s.slots, Apply(c, s, step).slots, Stay)
  {
  }

  /** No request waits anywhere. */
  ghost predicate NoLines(s: seq<Slot>) { forall j {:trigger s[j]} :: 0 <= j < |s| ==> s[j].pend == [] }

  lemma CrashLines(c: Config, s: State)
    requires Slots(c, s)
    ensures NoLines(Crash(c, s).slots) && LinesAfter(s.slots, Crash(c, s).slots, Clear)
  {
  }

  /** A cache that can be removed cleanly has nobody waiting, and a restart finds nobody. */
  lemma RestartLines(c: Config, s: State)
    requires Slots(c, s) && Enabled(c, s, CleanRestart)
    ensures NoLines(s.slots) && NoLines(Remount(c, s).slots) && LinesAfter(s.slots, Remount(c, s).slots, Stay)
  {
    forall j | 0 <= j < |s.slots| ensures s.slots[j].pend == [] { assert SlotOk(c, j, s.slots[j]); }
  }

  /** Every step, a crash and a restart included, does to the lines what StepTurn says. */
  lemma StepLines(c: Config, s: State, step: Step)
    requires Slots(c, s) && Enabled(c, s, step)
    ensures LinesAfter(s.slots, Apply(c, s, step).slots, StepTurn(c, s, step))
  {
    if step.PowerLoss? {
      CrashLines(c, s);
    } else if step.CleanRestart? {
      RestartLines(c, s);
    } else {
      RunningLines(c, s, step);
    }
  }

  lemma RunningLines(c: Config, s: State, step: Step)
    requires Slots(c, s) && Enabled(c, s, step) && !step.PowerLoss? && !step.CleanRestart?
    ensures LinesAfter(s.slots, Apply(c, s, step).slots, StepTurn(c, s, step))
  {
    if Single(step) || step.MdFinish? {
      SectionLines(c, s, step);
    } else if step.Map? {
      SubmitLines(c, s, step.bio, step.hit, step.victim, step.skip);
    } else if step.UncachedDone? {
      InvalLines(c, Moved(s, step.x, Hand), step.x, step.hit);
    } else if step.Replay? {
      assert SlotOk(c, step.i, s.slots[step.i]);
      ReplayLines(c, s, step.i, step.hit);
    } else if !step.Detach? {
      EffectLines(c, s, step);
    }
  }

  lemma ReplayLines(c: Config, s: State, i: nat, h: Option<nat>)
    requires Idx(c, s, i) && MaybeIdx(c, s, h) && h != Some(i) && s.slots[i].work.Drain? && s.slots[i].work.rest != []
    ensures LinesAfter(s.slots, DrainOne(c, s, i, h).slots,
              if s.slots[i].work.rest[0].inval then InvalTurn(s.slots, s.slots[i].work.rest[0].id, h) else Stay)
  {
    var e, u := s.slots[i].work.rest[0], DetachNext(s, i);
    if e.inval { InvalLines(c, u, e.id, h); }
  }

  // ----- first come, first served -----

  /** Everybody waiting for a slot, those being replayed first. */
  function Line(sl: Slot): seq<Entry> { Rest(sl.work) + sl.pend }

  /** The part of the line that is being replayed. */
  ghost predicate RestsAfter(s: seq<Slot>, t: seq<Slot>, step: Step) {
    |t| == |s| && forall j {:trigger t[j]} :: 0 <= j < |s| ==>
      Rest(t[j].work) == if step == Detach(j) then s[j].pend
                         else if step.Replay? && step.i == j then (if Rest(s[j].work) == [] then [] else Rest(s[j].work)[1..]) else Rest(s[j].work)
  }

  lemma EndRests(s: State, x: nat, result: Data, i: nat)
    requires i < |s.slots| && Rest(s.slots[i].work) == []
    ensures Rest(Release(EndBio(s, x, result), i).slots[i].work) == []
  {
  }

  lemma CallbackRests(c: Config, s: State, i: nat)
    requires Enabled(c, s, IoDone(i))
    ensures RestsAfter(s.slots, IoCallback(c, s, i).slots, IoDone(i))
  {
    IoCallbackAt(c, s, i);
    match s.slots[i].work
    case ReadCache(x, got) => EndRests(s, x, got.value, i);
    case ReadFill(x, data, _) => EndRests(s, x, data, i);
    case WriteCache(x, _, _) => EndRests(s, x, if c.mode == WriteBack then s.ssd[i] else OnDisk(s, s.slots[i].dbn), i);
    case _ =>
  }

  lemma FinishRests(c: Config, s: State, m: nat)
    requires Slots(c, s) && Meta(c, s) && Enabled(c, s, MdFinish(m))
    ensures RestsAfter(s.slots, MdDoneOne(c, s, m).slots, MdFinish(m))
  {
    FirstIsJob(c, s, m);
    MdDoneAt(c, s, s.heads[m].active[0]);
  }

  lemma PendingRests(c: Config, s: State, i: nat)
    requires Idx(c, s, i) && Rest(s.slots[i].work) == []
    ensures OnlyAt(s, DoPending(c, s, i), i) && Rest(DoPending(c, s, i).slots[i].work) == []
    ensures OnlyAt(s, StartClean(c, s, i), i) && Rest(StartClean(c, s, i).slots[i].work) == []
  {
    SlotStepsAt(c, s, i);
  }

  lemma MarkRests(c: Config, s: State, i: nat)
    requires Idx(c, s, i)
    ensures OnlyAt(s, DetectFallow(c, s, i), i) && DetectFallow(c, s, i).slots[i].work == s.slots[i].work
  {
  }

  lemma UpkeepRests(c: Config, s: State, step: Step)
    requires Slots(c, s) && Enabled(c, s, step) && (step.Pending? || step.DrainDone? || step.CleanSlot? || step.MarkFallow?)
    ensures RestsAfter(s.slots, Apply(c, s, step).slots, step)
  {
    assert SlotOk(c, step.i, s.slots[step.i]);
    if step.Pending? || step.CleanSlot? { PendingRests(c, s, step.i); }
    if step.MarkFallow? { MarkRests(c, s, step.i); }
  }

  lemma InvalRests(c: Config, s: State, x: nat, h: Option<nat>)
    requires MaybeIdx(c, s, h) && (h.Some? ==> !s.slots[h.value].work.Drain?)
    ensures var t := InvalBlocks(c, s, x, h).0; |t.slots| == |s.slots| && forall j {:trigger t.slots[j]} :: 0 <= j < |s.slots| ==> Rest(t.slots[j].work) == Rest(s.slots[j].work)
  {
  }

  lemma BypassSlots(c: Config, s: State, x: nat, h: Option<nat>)
    requires MaybeIdx(c, s, h)
    ensures Bypass(c, s, x, h).slots == InvalBlocks(c, s, x, h).0.slots
  {
  }

  lemma LookupNoDrain(c: Config, s: State, b: nat, h: Option<nat>)
    requires Slots(c, s) && MaybeIdx(c, s, h) && IsLookup(c, s, b, h)
    ensures h.Some? ==> !s.slots[h.value].work.Drain?
  {
    if h.Some? { assert SlotOk(c, h.value, s.slots[h.value]); }
  }

  lemma MapRests(c: Config, s: State, step: Step)
    requires Slots(c, s) && Enabled(c, s, step) && step.Map?
    ensures RestsAfter(s.slots, Apply(c, s, step).slots, step)
  {
    var u := NewBio(s, step.bio);
    LookupNoDrain(c, s, step.bio.dbn, step.hit);
    NewBioThere(s, step.bio);
    if Bypasses(c, step.bio, step.skip) {
      InvalRests(c, u, s.nextId, step.hit);
      BypassSlots(c, u, s.nextId, step.hit);
    } else if step.hit.Some? {
      HitRests(c, u, s.nextId, step.hit.value);
    } else if step.victim.Some? {
      assert SlotOk(c, step.victim.value, s.slots[step.victim.value]);
    }
  }

  lemma HitRests(c: Config, s: State, x: nat, i: nat)
    requires Idx(c, s, i) && !s.slots[i].work.Drain?
    ensures var t := Hit(c, s, x, i); |t.slots| == |s.slots| && forall j {:trigger t.slots[j]} :: 0 <= j < |s.slots| ==> Rest(t.slots[j].work) == Rest(s.slots[j].work)
  {
    YoungRests(c, s, i);
    SeatRests(ClearFallow(c, s, i), x, i);
  }

  lemma YoungRests(c: Config, s: State, i: nat)
    requires Idx(c, s, i)
    ensures OnlyAt(s, ClearFallow(c, s, i), i) && ClearFallow(c, s, i).slots[i].work == s.slots[i].work
  {
  }

  lemma SeatRests(s: State, x: nat, i: nat)
    requires i < |s.slots| && !s.slots[i].work.Drain?
    ensures OnlyAt(s, StartReadHit(s, x, i), i) && Rest(StartReadHit(s, x, i).slots[i].work) == []
    ensures OnlyAt(s, StartWriteHit(s, x, i), i) && Rest(StartWriteHit(s, x, i).slots[i].work) == []
    ensures OnlyAt(s, Enqueue(s, x, i, false), i) && Enqueue(s, x, i, false).slots[i].work == s.slots[i].work
  {
  }

  lemma ReplayRests(c: Config, s: State, i: nat, h: Option<nat>)
    requires Slots(c, s) && Enabled(c, s, Replay(i, h))
    ensures RestsAfter(s.slots, DrainOne(c, s, i, h).slots, Replay(i, h))
  {
    LookupNoDrain(c, s, s.slots[i].dbn, h);
    var e, u := s.slots[i].work.rest[0], DetachNext(s, i);
    if e.inval {
      InvalRests(c, u, e.id, h);
      BypassSlots(c, u, e.id, h);
    }
  }

  lemma StepRests(c: Config, s: State, step: Step)
    requires Slots(c, s) && Meta(c, s) && Enabled(c, s, step) && !step.PowerLoss? && !step.CleanRestart?
    ensures RestsAfter(s.slots, Apply(c, s, step).slots, step)
  {
    if step.IoDone? {
      CallbackRests(c, s, step.i);
    } else if step.MdFinish? {
      FinishRests(c, s, step.m);
    } else if Single(step) {
      UpkeepRests(c, s, step);
    } else if step.Map? {
      MapRests(c, s, step);
    } else if step.UncachedDone? {
      LookupNoDrain(c, s, s.bios[step.x].bio.dbn, step.hit);
      InvalRests(c, Moved(s, step.x, Hand), step.x, step.hit);
    } else if step.Replay? {
      ReplayRests(c, s, step.i, step.hit);
    } else {
      OtherRests(c, s, step);
    }
  }

  lemma OtherRests(c: Config, s: State, step: Step)
    requires Enabled(c, s, step) && (IsEffect(step) || step.CopyDone? || step.Kickoff? || step.MdWritten? || step.MdAdvance? || step.Detach?)
    ensures RestsAfter(s.slots, Apply(c, s, step).slots, step)
  {
    if IsEffect(step) { EffectRests(c, s, step); }
  }

  lemma EffectRests(c: Config, s: State, step: Step)
    requires Enabled(c, s, step) && IsEffect(step)
    ensures RestsAfter(s.slots, Apply(c, s, step).slots, step)
  {
  }

  lemma LineMoves(s: seq<Slot>, t: seq<Slot>, step: Step, w: Turn, i: nat)
    requires LinesAfter(s, t, w) && RestsAfter(s, t, step) && i < |s| && !w.Clear?
    requires (w == Leave(i) <==> step == Detach(i)) && (step == Detach(i) ==> Rest(s[i].work) == [])
    requires step.Replay? && step.i == i ==> Rest(s[i].work) != [] && !(w.Join? && w.i == i)
    ensures var l, r := Line(s[i]), Line(t[i]);
      if step.Replay? && step.i == i then l != [] && r == l[1..] else if w.Join? && w.i == i then r == l + [w.e] else r == l
  {
  }

  ghost predicate Advances(step: Step, i: nat, l: seq<Entry>, r: seq<Entry>) {
    if step.Replay? && step.i == i then l != [] && r == l[1..]
    else r == l || ((step.Map? || step.UncachedDone? || step.Replay?) && |r| == |l| + 1 && r[..|l|] == l)
  }

  /** Whoever waits for a slot is served in the order of arrival: a step leaves the line as it is, adds
      one request at its end, or takes away its first, which is then replayed; until a crash. */
  lemma FirstComeFirstServed(c: Config, disk: map<nat, Data>, s: State, step: Step, i: nat)
    requires WellFormed(c) && Reachable(c, disk, s) && Enabled(c, s, step) && !step.PowerLoss? && i < |s.slots|
    ensures i < |Apply(c, s, step).slots| && Advances(step, i, Line(s.slots[i]), Line(Apply(c, s, step).slots[i]))
  {
    assert Slots(c, s) && Meta(c, s) by { ReachableGood(c, disk, s); }
    StepLines(c, s, step);
    if step.CleanRestart? {
      assert SlotOk(c, i, s.slots[i]);
    } else {
      StepRests(c, s, step);
      TurnFits(c, s, step, i);
      LineMoves(s.slots, Apply(c, s, step).slots, step, StepTurn(c, s, step), i);
    }
  }

  lemma TurnFits(c: Config, s: State, step: Step, i: nat)
    requires Slots(c, s) && Enabled(c, s, step) && !step.PowerLoss? && !step.CleanRestart? && i < |s.slots|
    ensures var w := StepTurn(c, s, step);
      && !w.Clear? && (w == Leave(i) <==> step == Detach(i)) && (step == Detach(i) ==> Rest(s.slots[i].work) == [])
      && (step.Replay? && step.i == i ==> Rest(s.slots[i].work) != [] && !(w.Join? && w.i == i)) && (w.Join? ==> step.Map? || step.UncachedDone? || step.Replay?)
  {
    if step.Replay? { LookupNoDrain(c, s, s.slots[step.i].dbn, step.hit); }
  }

  // ----- the table -----

  /** The entry of a job. */
  function EntryOf(bio: seq<nat>, inval: seq<bool>, x: nat): Entry {
    if x < |bio| && x < |inval| then Entry(bio[x], inval[x]) else Entry(0, false)
  }

  function Entries(bio: seq<nat>, inval: seq<bool>, jobs: seq<nat>): seq<Entry> {
    seq(|jobs|, k requires 0 <= k < |jobs| => EntryOf(bio, inval, jobs[k]))
  }

  /** The table has for every slot the requests that wait for it, first come first. */
  ghost predicate Carries(t: PendingTable, s: seq<Slot>)
    reads t, t.slotOf, t.inval, t.bio, t.prev, t.next, t.heads
  {
    t.Valid() && forall i: nat {:trigger t.Waiting(i)} {:trigger s[i]} :: i < |s| ==> Entries(t.bio[..], t.inval[..], t.Waiting(i)) == s[i].pend
  }

  /** A job that is on no list does not show in any. */
  lemma NotWaiting(t: PendingTable, job: nat, i: nat)
    requires t.Valid() && job < |t.home| && t.home[job] == -1
    ensures job !in t.Waiting(i)
  {
    MatchingMember(t.lists[i % BUCKETS], t.slotOf[..], i, job);
    Links.NoHome(t.lists, t.home, i % BUCKETS, job);
  }

  lemma EntriesElsewhere(bio: seq<nat>, inval: seq<bool>, jobs: seq<nat>, job: nat, x: nat, v: bool)
    requires job !in jobs && job < |bio| == |inval|
    ensures Entries(bio[job := x], inval[job := v], jobs) == Entries(bio, inval, jobs)
    ensures Entries(bio[job := x], inval[job := v], jobs + [job]) == Entries(bio, inval, jobs) + [Entry(x, v)]
  {
  }

  lemma StartLines(c: Config, disk: map<nat, Data>)
    ensures NoLines(Start(c, disk).slots)
  {
  }

  /** The table a constructor makes carries the lines of a new cache, of one loaded after a crash
      and of one loaded after a clean removal: there are none in any of the three. */
  method Open(pool: nat, ghost s: seq<Slot>) returns (t: PendingTable)
    requires NoLines(s)
    ensures fresh(t) && Carries(t, s) && t.slotOf.Length == pool && t.count == 0
  {
    t := new PendingTable(pool);
    forall i: nat | i < |s| ensures Entries(t.bio[..], t.inval[..], t.Waiting(i)) == s[i].pend {
      assert t.Waiting(i) == [];
    }
  }

  /** A request joins the line of a slot: it is the last of it in the table too. */
  method Put(t: PendingTable, job: nat, x: nat, i: nat, inval: bool, ghost s: seq<Slot>, ghost s': seq<Slot>)
    requires Carries(t, s) && job < t.slotOf.Length && t.home[job] == -1 && LinesAfter(s, s', Join(i, Entry(x, inval)))
    modifies t, t.slotOf, t.inval, t.bio, t.prev, t.next, t.heads
    ensures Carries(t, s')
  {
    ghost var bio, inv := t.bio[..], t.inval[..];
    forall q: nat | q < |s| ensures job !in t.Waiting(q) { NotWaiting(t, job, q); }
    t.Enqueue(job, i, inval, x);
    forall q: nat | q < |s'| ensures Entries(t.bio[..], t.inval[..], t.Waiting(q)) == s'[q].pend {
      EntriesElsewhere(bio, inv, old(t.Waiting(q)), job, x, inval);
    }
  }

  /** A line is taken out whole and walked along: its requests come in the order they joined it. */
  method TakeAll(t: PendingTable, i: nat, ghost s: seq<Slot>, ghost s': seq<Slot>) returns (line: seq<Entry>)
    requires Carries(t, s) && i < |s| && LinesAfter(s, s', Leave(i))
    modifies t, t.prev, t.next, t.heads
    ensures Carries(t, s') && line == s[i].pend
  {
    var node;
    ghost var jobs;
    assert Entries(t.bio[..], t.inval[..], t.Waiting(i)) == s[i].pend;
    node, jobs := t.Dequeue(i);
    line := WalkLine(t, node, jobs);
  }

  /** The loop of flashcache_do_pending over what it has dequeued. */
  method WalkLine(t: PendingTable, list: int, ghost jobs: seq<nat>) returns (line: seq<Entry>)
    requires t.Valid() && Chained(t.next[..], list, jobs)
    ensures line == Entries(t.bio[..], t.inval[..], jobs)
  {
    ghost var k := 0;
    var node := list;
    line := [];
    while node != NIL
      invariant k <= |jobs| && Chained(t.next[..], node, jobs[k..]) && line == Entries(t.bio[..], t.inval[..], jobs[..k])
      decreases |jobs| - k
    {
      line := line + [Entry(t.bio[node], t.inval[node])];
      node := t.next[node];
      assert jobs[k..][1..] == jobs[k + 1..] && jobs[..k + 1] == jobs[..k] + [jobs[k]];
      k := k + 1;
    }
    assert jobs[..k] == jobs;
  }
}
