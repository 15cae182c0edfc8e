/** The driver's critical sections as they work on the cache in place. Every method takes the
    cache from one reachable state of the protocol to another, by the steps it reports. */
module Driver {
  import opened Types
  import opened Protocol
  import opened Steps
  import opened Invariant
  import opened Theorems
  import Batching

  /** What the index looks up: the VALID slot of a block in the block's set, or none. */
  type Found = Option<nat>

  /** s is the last state of a run of the protocol from a new cache. */
  ghost predicate Reaches(c: Config, disk: map<nat, Data>, run: seq<State>, steps: seq<Step>, s: State) {
    WellFormed(c) && IsRun(c, disk, run, steps) && run[|run| - 1] == s
  }

  lemma FollowsStill(c: Config, run: seq<State>, steps: seq<Step>, t: State, step: Step, k: nat)
    requires k < |steps| && |run| == |steps| + 1 && Follows(c, run, steps, k)
    ensures Follows(c, run + [t], steps + [step], k)
  {
    assert (run + [t])[k] == run[k] && (run + [t])[k + 1] == run[k + 1] && (steps + [step])[k] == steps[k];
  }

  lemma FollowsNow(c: Config, run: seq<State>, steps: seq<Step>, s: State, t: State, step: Step)
    requires |run| == |steps| + 1 && run[|steps|] == s && Enabled(c, s, step) && t == Apply(c, s, step)
    ensures Follows(c, run + [t], steps + [step], |steps|)
  {
    assert (run + [t])[|steps|] == s && (run + [t])[|steps| + 1] == t && (steps + [step])[|steps|] == step;
  }

  lemma Extend(c: Config, disk: map<nat, Data>, run: seq<State>, steps: seq<Step>, s: State, step: Step)
    requires Reaches(c, disk, run, steps, s) && Enabled(c, s, step)
    ensures Reaches(c, disk, run + [Apply(c, s, step)], steps + [step], Apply(c, s, step))
  {
    var t := Apply(c, s, step);
    FollowsNow(c, run, steps, s, t, step);
    forall k: nat | k < |steps + [step]| ensures Follows(c, run + [t], steps + [step], k) {
      if k < |steps| {
        assert Follows(c, run, steps, k);
        FollowsStill(c, run, steps, t, step, k);
      }
    }
  }

  lemma ReplayExtends(c: Config, disk: map<nat, Data>, run: seq<State>, steps: seq<Step>, s: State, i: nat, h: Found)
    requires Reaches(c, disk, run, steps, s) && Shaped(c, s) && i < |s.slots| && s.slots[i].work.Drain? && s.slots[i].work.rest != []
    requires (h.Some? ==> Idx(c, s, h.value)) && IsLookup(c, s, s.slots[i].dbn, h)
    ensures var t := DrainOne(c, s, i, h); Reaches(c, disk, run + [t], steps + [Replay(i, h)], t)
  {
    Extend(c, disk, run, steps, s, Replay(i, h));
  }

  lemma FinishExtends(c: Config, disk: map<nat, Data>, run: seq<State>, steps: seq<Step>, s: State, m: nat)
    requires Reaches(c, disk, run, steps, s) && Enabled(c, s, MdFinish(m))
    ensures m < |s.heads| && s.heads[m].active != [] && Idx(c, s, s.heads[m].active[0])
    ensures var t := MdDoneOne(c, s, m); Reaches(c, disk, run + [t], steps + [MdFinish(m)], t)
  {
    Extend(c, disk, run, steps, s, MdFinish(m));
  }

  lemma MapExtends(c: Config, disk: map<nat, Data>, run: seq<State>, steps: seq<Step>, s: State, bio: Bio, h: Found, v: Found, skip: bool)
    requires Reaches(c, disk, run, steps, s) && Shaped(c, s) && (h.Some? ==> Idx(c, s, h.value)) && IsLookup(c, s, bio.dbn, h)
    requires v.Some? ==> Idx(c, s, v.value) && Claimable(c, s, bio.dbn, v.value)
    ensures var t := Submit(c, s, bio, h, v, skip); Reaches(c, disk, run + [t], steps + [Step.Map(bio, h, v, skip)], t)
  {
    Extend(c, disk, run, steps, s, Step.Map(bio, h, v, skip));
  }

  predicate Shaped(c: Config, s: State) {
    && |s.slots| == |s.ssd| == |s.md| == c.size == |c.setOf| == |c.mdOf| && |s.heads| == c.mdBlocks
    && |s.ctr.setDirty| == |s.ctr.setFallow| == |s.ctr.setCleaning| == c.sets
    && (forall i {:trigger c.setOf[i]} :: 0 <= i < c.size ==> c.setOf[i] < c.sets)
    && (forall i {:trigger c.mdOf[i]} :: 0 <= i < c.size ==> c.mdOf[i] < c.mdBlocks)
  }

  lemma ReachesShaped(c: Config, disk: map<nat, Data>, run: seq<State>, steps: seq<Step>, s: State)
    requires Reaches(c, disk, run, steps, s)
    ensures Shaped(c, s)
  {
    ReachableGood(c, disk, s);
  }

  /** The request of a slot's job is there to be ended. */
  lemma JobHasBio(c: Config, disk: map<nat, Data>, run: seq<State>, steps: seq<Step>, s: State, i: nat)
    requires Reaches(c, disk, run, steps, s) && i < |s.slots|
    ensures Holder(s.slots[i].work).Some? ==> Holder(s.slots[i].work).value in s.bios
  {
    ReachableGood(c, disk, s);
    assert JobOk(s, i);
  }

  /** The jobs of a metadata write belong to slots of its block, and have something to record. */
  lemma BatchIsOfBlock(c: Config, disk: map<nat, Data>, run: seq<State>, steps: seq<Step>, s: State, m: nat)
    requires Reaches(c, disk, run, steps, s) && m < |s.heads|
    ensures forall k {:trigger All(s.heads[m])[k]} :: 0 <= k < |All(s.heads[m])| ==>
              All(s.heads[m])[k] < |s.slots| == |c.mdOf| && c.mdOf[All(s.heads[m])[k]] == m && InMd(s.slots[All(s.heads[m])[k]].work)
  {
    ReachableGood(c, disk, s);
    assert HeadOk(c, s, m);
  }

  lemma CleanExtends(c: Config, disk: map<nat, Data>, run: seq<State>, steps: seq<Step>, s: State, i: nat)
    requires Reaches(c, disk, run, steps, s) && i < |s.slots| && s.slots[i].bits.dirty && !s.slots[i].bits.Busy()
    ensures Idx(c, s, i) && Reaches(c, disk, run + [Protocol.StartClean(c, s, i)], steps + [CleanSlot(i)], Protocol.StartClean(c, s, i))
  {
    ReachesShaped(c, disk, run, steps, s);
    Extend(c, disk, run, steps, s, CleanSlot(i));
  }

  lemma MarkExtends(c: Config, disk: map<nat, Data>, run: seq<State>, steps: seq<Step>, s: State, i: nat)
    requires Reaches(c, disk, run, steps, s) && i < |s.slots|
    ensures Idx(c, s, i) && Reaches(c, disk, run + [Protocol.DetectFallow(c, s, i)], steps + [MarkFallow(i)], Protocol.DetectFallow(c, s, i))
  {
    ReachesShaped(c, disk, run, steps, s);
    Extend(c, disk, run, steps, s, MarkFallow(i));
  }

  lemma UncachedExtends(c: Config, disk: map<nat, Data>, run: seq<State>, steps: seq<Step>, s: State, x: nat, h: Found)
    requires Reaches(c, disk, run, steps, s) && x in s.bios && s.bios[x].place == Uncached && s.bios[x].ran && IsLookup(c, s, s.bios[x].bio.dbn, h)
    ensures h.Some? ==> Idx(c, s, h.value)
    ensures var t := UncachedComplete(c, s, x, h); Reaches(c, disk, run + [t], steps + [UncachedDone(x, h)], t)
  {
    ReachesShaped(c, disk, run, steps, s);
    Extend(c, disk, run, steps, s, UncachedDone(x, h));
  }

  /** A drain replays its entries one by one, each with what its lookup finds. */
  function Replays(i: nat, hits: seq<Found>): seq<Step> { seq(|hits|, k requires 0 <= k < |hits| => Replay(i, hits[k])) }

  lemma OneReplay(i: nat, hits: seq<Found>, h: Found)
    ensures Replays(i, hits + [h]) == Replays(i, hits) + [Replay(i, h)]
  {
  }

  /** The requests a drain replays are there. */
  lemma EntriesHaveBios(c: Config, disk: map<nat, Data>, run: seq<State>, steps: seq<Step>, s: State, i: nat)
    requires Reaches(c, disk, run, steps, s) && i < |s.slots|
    ensures forall k {:trigger s.slots[i].pend[k]} :: 0 <= k < |s.slots[i].pend| ==> s.slots[i].pend[k].id in s.bios
    ensures s.slots[i].work.Drain? ==> !s.slots[i].bits.valid && (s.slots[i].work.rest != [] ==> s.slots[i].work.rest[0].id in s.bios)
  {
    ReachableGood(c, disk, s);
    assert EntriesOk(s, i) && SlotOk(c, i, s.slots[i]);
  }

  /** What fallow detection makes of a slot. */
  function Older(mode: Mode, sl: Slot): Slot {
    if mode != WriteBack || !sl.bits.dirty || sl.bits.Busy() then sl
    else if !sl.bits.fallow1 then sl.(bits := sl.bits.(fallow1 := true))
    else sl.(bits := sl.bits.(fallow2 := true))
  }

  /** None of these slots has a metadata update under way. */
  ghost predicate AllDone(s: seq<Slot>, batch: seq<nat>) {
    forall q {:trigger batch[q]} :: 0 <= q < |batch| ==> batch[q] < |s| && !InMd(s[batch[q]].work)
  }

  lemma DoneMore(was: seq<Slot>, now: seq<Slot>, batch: seq<nat>, n: nat)
    requires n < |batch| && AllDone(was, batch[..n]) && batch[n] < |was| && now == was[batch[n] := if batch[n] < |now| then now[batch[n]] else was[batch[n]]]
    requires batch[n] < |now| && !InMd(now[batch[n]].work)
    ensures AllDone(now, batch[..n + 1])
  {
    var b := batch[..n + 1];
    forall q | 0 <= q < |b| ensures b[q] < |now| && !InMd(now[b[q]].work) {
      if q < n { assert batch[..n][q] == b[q]; }
    }
  }

  /** The same step n times. */
  function Times(n: nat, step: Step): seq<Step> { seq(n, k => step) }

  lemma OnceMore(n: nat, step: Step)
    ensures Times(n + 1, step) == Times(n, step) + [step]
  {
  }

  lemma OneMore(slots: seq<Slot>, setOf: seq<nat>, k: nat, j: nat)
    requires j < |slots| == |setOf|
    ensures Count(slots[..j + 1], IsCached) == Count(slots[..j], IsCached) + (if IsCached(slots[j]) then 1 else 0)
    ensures Count(slots[..j + 1], IsDirty) == Count(slots[..j], IsDirty) + (if IsDirty(slots[j]) then 1 else 0)
    ensures CountIn(slots[..j + 1], setOf[..j + 1], k, IsDirty)
         == CountIn(slots[..j], setOf[..j], k, IsDirty) + (if setOf[j] == k && IsDirty(slots[j]) then 1 else 0)
  {
    assert slots[..j + 1][..j] == slots[..j] && setOf[..j + 1][..j] == setOf[..j];
  }

  /** What a reload starts from: each slot is what its record tells, and the counters are the counts. */
  lemma LoadFacts(c: Config, disk: map<nat, Data>, run: seq<State>, steps: seq<Step>, s: State, step: Step, t: State)
    requires Reaches(c, disk, run, steps, s) && Enabled(c, s, step) && t == Apply(c, s, step) && (step.CleanRestart? || step.PowerLoss?)
    ensures Reaches(c, disk, run + [t], steps + [step], t)
    ensures |t.slots| == |t.md| == c.size == |c.setOf| && t.ctr == Recount(c, t.slots)
    ensures forall i {:trigger t.slots[i]} :: 0 <= i < c.size ==> t.slots[i] == Reloaded(t.md[i], step.CleanRestart?)
  {
    ReachesShaped(c, disk, run, steps, s);
    Extend(c, disk, run, steps, s, step);
  }

  class Cache {
    const c: Config
    const slots: array<Slot>
    var ssd: seq<Data>
    var disk: map<nat, Data>
    var md: seq<Rec>
    var heads: seq<MdHead>
    var bios: map<nat, Flight>
    var nextId: nat
    var cached: int
    var dirty: int
    var cleaning: int
    var setDirty: seq<int>
    var setFallow: seq<int>
    var setCleaning: seq<int>
    // what the model remembers of the past
    var log: seq<Ack>
    var lost: set<nat>
    var logical: map<nat, Data>
    var torn: set<nat>
    ghost const initial: map<nat, Data>
    ghost var run: seq<State>
    ghost var steps: seq<Step>

    ghost function Counted(): Counters
      reads this
    {
      Counters(cached, dirty, cleaning, setDirty, setFallow, setCleaning)
    }

    ghost function Now(): State
      reads this, slots
    {
      State(slots[..], ssd, disk, md, heads, bios, log, nextId, lost, logical, torn, Counted())
    }

    /** The cache is in the last state of a run of the protocol from a new cache. */
    ghost predicate Valid()
      reads this, slots
    {
      Reaches(c, initial, run, steps, Now())
    }

    /** A new cache over a disk. */
    constructor (config: Config, content: map<nat, Data>)
      requires WellFormed(config)
      ensures Valid() && c == config && initial == content && Now() == Start(config, content) && steps == []
      ensures fresh(slots)
    {
      c := config;
      slots := new Slot[config.size](i => Slot(INVALID, 0, 0, [], NoWork));
      ssd, disk := seq(config.size, k => map[]), content;
      md := seq(config.size, k => Rec(0, false, true, false));
      heads := seq(config.mdBlocks, k => MdHead(MdIdle, [], []));
      bios, nextId := map[], 0;
      cached, dirty, cleaning := 0, 0, 0;
      setDirty, setFallow, setCleaning := seq(config.sets, k => 0), seq(config.sets, k => 0), seq(config.sets, k => 0);
      log, lost, logical, torn := [], {}, content, {};
      initial := content;
      run, steps := [Start(config, content)], [];
      new;
      assert slots[..] == Start(config, content).slots;
    }

    /** A cache in state t, over given slots. */
    constructor In(config: Config, ghost content: map<nat, Data>, its: array<Slot>, t: State, ghost past: seq<State>, ghost taken: seq<Step>)
      requires Reaches(config, content, past, taken, t) && its[..] == t.slots
      ensures Valid() && c == config && initial == content && Now() == t && run == past && steps == taken && slots == its
    {
      c, initial, slots := config, content, its;
      ssd, disk, md, heads, bios, nextId := t.ssd, t.disk, t.md, t.heads, t.bios, t.nextId;
      cached, dirty, cleaning := t.ctr.cached, t.ctr.dirty, t.ctr.cleaning;
      setDirty, setFallow, setCleaning := t.ctr.setDirty, t.ctr.setFallow, t.ctr.setCleaning;
      log, lost, logical, torn := t.log, t.lost, t.logical, t.torn;
      run, steps := past, taken;
    }

    // ----- parts of critical sections -----

    /** flashcache_clear_fallow */
    method ClearFallow(i: nat)
      requires Idx(c, Now(), i)
      modifies this`setFallow, slots
      ensures Now() == Protocol.ClearFallow(c, old(Now()), i)
    {
      if c.mode != WriteBack { return; }
      if slots[i].bits.fallow1 || slots[i].bits.fallow2 {
        if slots[i].bits.fallow2 { setFallow := BumpAt(setFallow, c.setOf[i], -1); }
        slots[i] := slots[i].(bits := slots[i].bits.Young());
        assert slots[..] == old(slots[..])[i := slots[i]];
      }
    }

    /** flashcache_detect_fallow */
    method DetectFallow(i: nat)
      requires Idx(c, Now(), i)
      modifies this`setFallow, slots
      ensures Now() == Protocol.DetectFallow(c, old(Now()), i)
    {
      if c.mode != WriteBack { return; }
      if slots[i].bits.dirty && !slots[i].bits.Busy() {
        if !slots[i].bits.fallow1 {
          slots[i] := slots[i].(bits := slots[i].bits.(fallow1 := true));
        } else if !slots[i].bits.fallow2 {
          setFallow := BumpAt(setFallow, c.setOf[i], 1);
          slots[i] := slots[i].(bits := slots[i].bits.(fallow2 := true));
        }
        assert slots[..] == old(slots[..])[i := slots[i]];
      }
    }

    /** flashcache_enq_pending */
    method EnqPending(x: nat, i: nat, inval: bool)
      requires i < slots.Length && x in bios
      modifies this`bios, slots
      ensures Now() == Protocol.Enqueue(old(Now()), x, i, inval)
    {
      slots[i] := slots[i].(pend := slots[i].pend + [Entry(x, inval)], nrQueued := slots[i].nrQueued + 1);
      bios := bios[x := bios[x].(place := Queued(i))];
      assert slots[..] == old(slots[..])[i := slots[i]];
    }

    /** flashcache_dirty_writeback on a slot just marked DISKWRITEINPROG. */
    method DirtyWriteback(i: nat)
      requires Idx(c, Now(), i)
      modifies this`cleaning, this`setCleaning, slots
      ensures Now() == Protocol.DirtyWriteback(c, old(Now()), i)
    {
      slots[i] := slots[i].(bits := slots[i].bits.Idle().(diskWrite := true));
      cleaning := cleaning + 1;
      setCleaning := BumpAt(setCleaning, c.setOf[i], 1);
      slots[i] := slots[i].(work := WriteDisk(None, false));
      assert slots[..] == old(slots[..])[i := slots[i]];
    }

    method StartClean(i: nat)
      requires Idx(c, Now(), i)
      modifies this`cleaning, this`setCleaning, this`setFallow, slots
      ensures Now() == Protocol.StartClean(c, old(Now()), i)
    {
      ClearFallow(i);
      DirtyWriteback(i);
    }

    /** flashcache_start_uncached_io */
    method StartUncached(x: nat)
      requires x in bios
      modifies this`bios
      ensures Now() == Protocol.StartUncached(old(Now()), x)
    {
      bios := bios[x := bios[x].(place := Uncached, ran := false)];
    }

    /** flashcache_bio_endio */
    method EndBio(x: nat, result: Data)
      requires x in bios
      modifies this`bios, this`log, this`torn, this`logical
      ensures Now() == Protocol.EndBio(old(Now()), x, result)
    {
      var f := bios[x];
      log := log + [Ack(x, f.bio, f.pre, f.alone, result)];
      torn := Mended(torn, f);
      if f.bio.write { logical := logical[f.bio.dbn := result]; }
      bios := bios - {x};
    }

    /** flashcache_inval_block_set_v3 */
    method InvalBlocks(x: nat, h: Found) returns (queued: bool)
      requires x in bios && (h.Some? ==> Idx(c, Now(), h.value))
      modifies this`cached, this`bios, this`cleaning, this`setCleaning, this`setFallow, slots
      ensures (Now(), queued) == Protocol.InvalBlocks(c, old(Now()), x, h)
    {
      if h.None? { return false; }
      var i := h.value;
      if !slots[i].bits.Busy() && !slots[i].bits.dirty && slots[i].nrQueued == 0 {
        cached := cached - 1;
        slots[i] := slots[i].(bits := INVALID);
        assert slots[..] == old(slots[..])[i := slots[i]];
        return false;
      }
      EnqPending(x, i, true);
      if slots[i].bits.dirty && !slots[i].bits.Busy() { StartClean(i); }
      queued := true;
    }

    /** The tail of flashcache_io_callback and of flashcache_md_write_done. */
    method Release(i: nat)
      requires i < slots.Length
      modifies slots
      ensures Now() == Protocol.Release(old(Now()), i)
    {
      if slots[i].nrQueued > 0 {
        slots[i] := slots[i].(work := Finish);
      } else {
        slots[i] := slots[i].(bits := slots[i].bits.Idle(), work := NoWork);
      }
      assert slots[..] == old(slots[..])[i := slots[i]];
    }

    /** flashcache_md_write: behind a write in progress, walk to the end of the queue; else
        become the write in progress. */
    method MdWrite(i: nat)
      requires Idx(c, Now(), i)
      modifies this`heads
      ensures Now() == Protocol.MdWrite(c, old(Now()), i)
    {
      var m := c.mdOf[i];
      if heads[m].io != MdIdle {
        heads := heads[m := heads[m].(queue := heads[m].queue + [i])];
      } else {
        heads := heads[m := MdHead(MdScheduled, [i], [])];
      }
    }

    // ----- whole critical sections -----

    /** The section just done, from state s, is a step of the protocol. */
    ghost method Took(s: State, step: Step)
      requires Reaches(c, initial, run, steps, s) && Enabled(c, s, step) && Now() == Apply(c, s, step)
      modifies this`run, this`steps
      ensures Valid() && Now() == old(Now()) && steps == old(steps) + [step] && run == old(run) + [Now()]
    {
      Extend(c, initial, run, steps, s, step);
      run := run + [Now()];
      steps := steps + [step];
    }

    ghost method Taken(step: Step)
      requires Reaches(c, initial, run + [Now()], steps + [step], Now())
      modifies this`run, this`steps
      ensures Valid() && Now() == old(Now()) && steps == old(steps) + [step] && run == old(run) + [Now()]
    {
      run := run + [Now()];
      steps := steps + [step];
    }

    /** flashcache_read_hit and flashcache_write_hit */
    method Hit(x: nat, i: nat)
      requires Idx(c, Now(), i) && x in bios
      modifies this`bios, this`setFallow, slots
      ensures Now() == Protocol.Hit(c, old(Now()), x, i)
    {
      ClearFallow(i);
      if !slots[i].bits.Busy() && slots[i].nrQueued == 0 {
        if bios[x].bio.write {
          slots[i] := slots[i].(bits := slots[i].bits.(cacheWrite := true), work := WriteCache(x, false, false));
        } else {
          slots[i] := slots[i].(bits := slots[i].bits.(cacheRead := true), work := ReadCache(x, None));
        }
        bios := bios[x := bios[x].(place := OnSlot(i))];
        assert slots[..] == Protocol.ClearFallow(c, old(Now()), i).slots[i := slots[i]];
      } else {
        EnqPending(x, i, false);
      }
    }

    /** A miss: the victim takes the block's identity, or the request goes to disk. */
    method Miss(x: nat, v: Found, skip: bool)
      requires x in bios && (v.Some? ==> v.value < slots.Length)
      modifies this`bios, this`cached, slots
      ensures Now() == Protocol.Miss(old(Now()), x, v, skip)
    {
      if v.None? || (skip && !bios[x].bio.write) {
        StartUncached(x);
        return;
      }
      var i := v.value;
      if !slots[i].bits.valid { cached := cached + 1; }
      if bios[x].bio.write {
        slots[i] := slots[i].(bits := VALID.(cacheWrite := true), dbn := bios[x].bio.dbn, work := WriteCache(x, false, false));
      } else {
        slots[i] := slots[i].(bits := VALID.(diskRead := true), dbn := bios[x].bio.dbn, work := ReadDisk(x, None));
      }
      bios := bios[x := bios[x].(place := OnSlot(i))];
      assert slots[..] == old(slots[..])[i := slots[i]];
    }

    /** A request arrives. */
    method Arrive(bio: Bio) returns (x: nat)
      modifies this`bios, this`nextId, this`torn
      ensures Now() == NewBio(old(Now()), bio) && x == old(nextId) && x in bios && bios[x].bio == bio
    {
      x := nextId;
      var t := NewBio(State(slots[..], ssd, disk, md, heads, bios, log, nextId, lost, logical, torn,
                            Counters(cached, dirty, cleaning, setDirty, setFallow, setCleaning)), bio);
      bios, nextId, torn := t.bios, t.nextId, t.torn;
    }

    method Route(x: nat, h: Found, v: Found, skip: bool)
      requires x in bios && (h.Some? ==> Idx(c, Now(), h.value)) && (v.Some? ==> v.value < slots.Length)
      modifies this`bios, this`cached, this`cleaning, this`setCleaning, this`setFallow, slots
      ensures var bio := old(bios)[x].bio;
              Now() == if !bio.full || (bio.write && (c.mode == WriteAround || skip)) then Bypass(c, old(Now()), x, h)
                       else if h.Some? then Protocol.Hit(c, old(Now()), x, h.value)
                       else Protocol.Miss(old(Now()), x, v, skip)
    {
      if !bios[x].bio.full || (bios[x].bio.write && (c.mode == WriteAround || skip)) {
        var queued := InvalBlocks(x, h);
        if !queued { StartUncached(x); }
      } else if h.Some? {
        Hit(x, h.value);
      } else {
        Miss(x, v, skip);
      }
    }

    method Serve(bio: Bio, h: Found, v: Found, skip: bool)
      requires (h.Some? ==> Idx(c, Now(), h.value)) && (v.Some? ==> v.value < slots.Length)
      modifies this`bios, this`nextId, this`torn, this`cached, this`cleaning, this`setCleaning, this`setFallow, slots
      ensures Now() == Submit(c, old(Now()), bio, h, v, skip)
    {
      var x := Arrive(bio);
      Route(x, h, v, skip);
    }

    /** flashcache_map, with what the lookup has found, the victim reclaim has chosen and what the
        cacheability checks say. */
    method Map(bio: Bio, h: Found, v: Found, skip: bool)
      requires Valid() && IsLookup(c, Now(), bio.dbn, h) && (v.Some? ==> Claimable(c, Now(), bio.dbn, v.value))
      modifies this, slots
      ensures Valid() && steps == old(steps) + [Step.Map(bio, h, v, skip)] && run == old(run) + [Now()]
    {
      ReachesShaped(c, initial, run, steps, Now());
      MapExtends(c, initial, run, steps, Now(), bio, h, v, skip);
      Serve(bio, h, v, skip);
      Taken(Step.Map(bio, h, v, skip));
    }

    /** flashcache_io_callback */
    method IoCallback(i: nat)
      requires Valid() && Enabled(c, Now(), IoDone(i))
      modifies this, slots
      ensures Valid() && steps == old(steps) + [IoDone(i)] && run == old(run) + [Now()]
    {
      ghost var was := Now();
      JobHasBio(c, initial, run, steps, was, i);
      IoEnd(i);
      Took(was, IoDone(i));
    }

    method IoEnd(i: nat)
      requires Idx(c, Now(), i) && (Holder(slots[i].work).Some? ==> Holder(slots[i].work).value in bios)
      modifies this`bios, this`log, this`torn, this`logical, this`heads, slots
      ensures Now() == Protocol.IoCallback(c, old(Now()), i)
    {
      match slots[i].work
      case ReadDisk(x, got) =>
        if got.Some? {
          slots[i] := slots[i].(work := ReadFill(x, got.value, false));
          assert slots[..] == old(slots[..])[i := slots[i]];
        }
      case ReadCache(x, got) =>
        if got.Some? {
          EndBio(x, got.value);
          Release(i);
        }
      case ReadFill(x, data, _) =>
        EndBio(x, data);
        Release(i);
      case WriteCache(x, _, _) =>
        if c.mode == WriteBack && !slots[i].bits.dirty {
          slots[i] := slots[i].(work := MdDirty(x));
          assert slots[..] == old(slots[..])[i := slots[i]];
          MdWrite(i);
        } else {
          EndBio(x, if c.mode == WriteBack then ssd[i] else At(disk, slots[i].dbn, map[]));
          Release(i);
        }
      case _ =>
    }

    /** flashcache_kcopyd_callback */
    method KcopydCallback(i: nat)
      requires Valid() && Enabled(c, Now(), CopyDone(i))
      modifies this, slots
      ensures Valid() && steps == old(steps) + [CopyDone(i)] && run == old(run) + [Now()]
    {
      ghost var was := Now();
      slots[i] := slots[i].(work := MdClean);
      assert slots[..] == was.slots[i := slots[i]];
      MdWrite(i);
      Took(was, CopyDone(i));
    }

    /** The first loop of flashcache_md_write_kickoff copies out the records of the whole block. */
    method CopyBlock(m: nat) returns (snap: map<nat, Rec>)
      requires |c.mdOf| == slots.Length
      ensures snap == map k | 0 <= k < slots.Length && c.mdOf[k] == m :: Snapshot(Now(), [], k)
    {
      snap := map[];
      for i := 0 to slots.Length
        invariant snap == map k | 0 <= k < i && c.mdOf[k] == m :: Snapshot(Now(), [], k)
      {
        if c.mdOf[i] == m {
          snap := snap[i := Rec(slots[i].dbn, slots[i].bits.valid, slots[i].bits.invalid, slots[i].bits.dirty)];
        }
      }
    }

    /** The second puts in, for each job of the batch, what the job is about. */
    method CopyOut(m: nat, batch: seq<nat>) returns (snap: map<nat, Rec>)
      requires |c.mdOf| == slots.Length
      requires forall k {:trigger batch[k]} :: 0 <= k < |batch| ==> batch[k] < slots.Length && c.mdOf[batch[k]] == m
      ensures snap == map k | 0 <= k < slots.Length && c.mdOf[k] == m :: Snapshot(Now(), batch, k)
    {
      snap := CopyBlock(m);
      for j := 0 to |batch|
        invariant snap == map k | 0 <= k < slots.Length && c.mdOf[k] == m :: Snapshot(Now(), batch[..j], k)
      {
        var k := batch[j];
        snap := snap[k := Rec(slots[k].dbn, true, false, slots[k].work.MdDirty?)];
        assert batch[..j + 1] == batch[..j] + [k];
      }
      assert batch[..|batch|] == batch;
    }

    /** flashcache_md_write_kickoff */
    method MdWriteKickoff(m: nat)
      requires Valid() && Enabled(c, Now(), Kickoff(m))
      modifies this, slots
      ensures Valid() && steps == old(steps) + [Kickoff(m)] && run == old(run) + [Now()]
      ensures m < |heads| && heads[m].queue == [] && slots[..] == old(slots[..])
      ensures forall k: nat {:trigger Batching.Updating(c, Now(), m, k)} :: Batching.Updating(c, Now(), m, k) ==>
                k in heads[m].active && heads[m].io.MdWriting? && k in heads[m].io.snap && Target(slots[k], heads[m].io.snap[k])
    {
      ghost var was := Now();
      BatchIsOfBlock(c, initial, run, steps, was, m);
      var batch := heads[m].active + heads[m].queue;
      forall k | 0 <= k < |batch| ensures batch[k] < slots.Length && c.mdOf[batch[k]] == m { assert All(was.heads[m])[k] == batch[k]; }
      var snap := CopyOut(m, batch);
      heads := heads[m := MdHead(MdWriting(snap, {}), batch, [])];
      Took(was, Kickoff(m));
      assert Reachable(c, initial, was);
      forall k: nat | Batching.Updating(c, Now(), m, k) ensures k in heads[m].active && k in snap && Target(slots[k], snap[k]) {
        Batching.KickoffTakesAll(c, initial, was, m, k);
      }
    }

    /** The slot's record says DIRTY now ... */
    method RecordDirty(i: nat)
      requires Idx(c, Now(), i)
      modifies this`dirty, this`setDirty, slots
      ensures Now() == Batching.DirtyRecorded(c, old(Now()), i)
    {
      if !slots[i].bits.dirty {
        setDirty := BumpAt(setDirty, c.setOf[i], 1);
        dirty := dirty + 1;
      } else {
        assert BumpAt(setDirty, c.setOf[i], 0) == setDirty;
      }
      slots[i] := slots[i].(bits := slots[i].bits.(dirty := true));
      assert slots[..] == old(slots[..])[i := slots[i]];
    }

    /** ... or no longer. */
    method RecordClean(i: nat)
      requires Idx(c, Now(), i)
      modifies this`dirty, this`cleaning, this`setDirty, this`setCleaning, slots
      ensures Now() == Batching.CleanRecorded(c, old(Now()), i)
    {
      slots[i] := slots[i].(bits := slots[i].bits.(dirty := false));
      assert slots[..] == old(slots[..])[i := slots[i]];
      setDirty := BumpAt(setDirty, c.setOf[i], -1);
      dirty := dirty - 1;
      setCleaning := BumpAt(setCleaning, c.setOf[i], -1);
      cleaning := cleaning - 1;
    }

    /** One job of a finished metadata write. */
    method FinishJob(i: nat)
      requires Idx(c, Now(), i) && (Holder(slots[i].work).Some? ==> Holder(slots[i].work).value in bios)
      modifies this`bios, this`log, this`torn, this`logical, this`dirty, this`cleaning, this`setDirty, this`setCleaning, slots
      ensures Now() == MdDoneJob(c, old(Now()), i)
    {
      match slots[i].work
      case MdDirty(x) =>
        RecordDirty(i);
        EndBio(x, ssd[i]);
        Release(i);
      case _ =>
        RecordClean(i);
        Release(i);
    }

    method FinishHead(m: nat, i: nat)
      requires m < |heads| && heads[m].active != [] && heads[m].active[0] == i && Idx(c, Now(), i)
      requires Holder(slots[i].work).Some? ==> Holder(slots[i].work).value in bios
      modifies this`bios, this`log, this`torn, this`logical, this`heads, this`dirty, this`cleaning, this`setDirty, this`setCleaning, slots
      ensures Now() == MdDoneOne(c, old(Now()), m)
      ensures heads == old(heads)[m := old(heads)[m].(active := old(heads)[m].active[1..])]
    {
      FinishJob(i);
      heads := heads[m := heads[m].(active := heads[m].active[1..])];
    }

    method FinishFirst(m: nat)
      requires Valid() && Enabled(c, Now(), MdFinish(m))
      modifies this, slots
      ensures Valid() && steps == old(steps) + [MdFinish(m)] && run == old(run) + [Now()]
      ensures heads == old(heads)[m := old(heads)[m].(active := old(heads)[m].active[1..])]
      ensures var i := old(heads)[m].active[0]; i < slots.Length && !InMd(slots[i].work) && slots[..] == old(slots[..])[i := slots[i]]
    {
      Batching.FinishedSlot(c, Now(), m);
      FinishExtends(c, initial, run, steps, Now(), m);
      var i := heads[m].active[0];
      JobHasBio(c, initial, run, steps, Now(), i);
      FinishHead(m, i);
      Taken(MdFinish(m));
    }

    /** The next queued update, if there is one. */
    method NextUpdate(m: nat)
      requires Valid() && Enabled(c, Now(), MdAdvance(m))
      modifies this, slots
      ensures slots[..] == old(slots[..])
      ensures Valid() && steps == old(steps) + [MdAdvance(m)] && run == old(run) + [Now()]
    {
      ghost var was := Now();
      if heads[m].queue != [] {
        heads := heads[m := MdHead(MdScheduled, [heads[m].queue[0]], heads[m].queue[1..])];
      } else {
        heads := heads[m := MdHead(MdIdle, [], [])];
      }
      Took(was, MdAdvance(m));
    }

    /** The write is taken off the head. */
    method TakeBatch(m: nat)
      requires Valid() && Enabled(c, Now(), MdWritten(m))
      modifies this, slots
      ensures slots[..] == old(slots[..])
      ensures Valid() && steps == old(steps) + [MdWritten(m)] && run == old(run) + [Now()] && heads == old(heads)[m := old(heads)[m].(io := MdCompleting)]
    {
      ghost var was := Now();
      heads := heads[m := heads[m].(io := MdCompleting)];
      Took(was, MdWritten(m));
    }

    lemma CompletingEnabled(m: nat)
      requires Valid() && m < |heads| && heads[m].io == MdCompleting
      ensures Enabled(c, Now(), if heads[m].active == [] then MdAdvance(m) else MdFinish(m))
    {
      ReachesShaped(c, initial, run, steps, Now());
      BatchIsOfBlock(c, initial, run, steps, Now(), m);
      assert heads[m].active != [] ==> All(Now().heads[m])[0] == heads[m].active[0];
    }

    /** flashcache_md_write_done: the whole batch is finished, job by job, and the next update
        is started if one has queued up meanwhile. */
    method MdWriteDone(m: nat)
      requires Valid() && Enabled(c, Now(), MdWritten(m))
      modifies this, slots
      ensures Valid()
      ensures steps == old(steps) + [MdWritten(m)] + Times(|old(heads)[m].active|, MdFinish(m)) + [MdAdvance(m)]
      ensures forall i {:trigger i in old(heads)[m].active} :: i in old(heads)[m].active ==> i < slots.Length && !InMd(slots[i].work)
    {
      ghost var batch := heads[m].active;
      TakeBatch(m);
      ghost var n := 0;
      while heads[m].active != []
        invariant Valid() && m < |heads| && heads[m].io == MdCompleting
        invariant n <= |batch| && heads[m].active == batch[n..] && AllDone(slots[..], batch[..n])
        invariant steps == old(steps) + [MdWritten(m)] + Times(n, MdFinish(m))
        decreases |heads[m].active|
      {
        CompletingEnabled(m);
        ghost var was := slots[..];
        FinishFirst(m);
        OnceMore(n, MdFinish(m));
        DoneMore(was, slots[..], batch, n);
        n := n + 1;
      }
      CompletingEnabled(m);
      NextUpdate(m);
    }

    /** The start of flashcache_do_pending_noerror. */
    method BeginPending(i: nat)
      requires Valid() && Enabled(c, Now(), Pending(i))
      modifies this, slots
      ensures Valid() && steps == old(steps) + [Pending(i)] && run == old(run) + [Now()]
      ensures !old(slots[i]).bits.dirty ==> slots[i] == old(slots[i]).(bits := slots[i].bits, work := Limbo)
    {
      ghost var was := Now();
      if slots[i].bits.dirty {
        StartClean(i);
      } else {
        cached := cached - 1;
        slots[i] := slots[i].(bits := slots[i].bits.(valid := false, invalid := true), work := Limbo);
        assert slots[..] == was.slots[i := slots[i]];
      }
      Took(was, Pending(i));
    }

    /** flashcache_deq_pending */
    method DeqPending(i: nat)
      requires Valid() && Enabled(c, Now(), Detach(i))
      modifies this, slots
      ensures Valid() && steps == old(steps) + [Detach(i)] && run == old(run) + [Now()]
      ensures slots[i].work == Drain(old(slots[i]).pend)
    {
      ghost var was := Now();
      EntriesHaveBios(c, initial, run, steps, was, i);
      var list := slots[i].pend;
      slots[i] := slots[i].(pend := [], work := Drain(list));
      assert slots[..] == was.slots[i := slots[i]];
      MoveAll(i, list);
      assert Now() == Protocol.Dequeue(was, i);
      Took(was, Detach(i));
    }

    method MoveAll(i: nat, list: seq<Entry>)
      requires forall k {:trigger list[k]} :: 0 <= k < |list| ==> list[k].id in bios
      modifies this`bios
      ensures bios == (var moved := set e | e in list :: e.id;
                       map y | y in old(bios) :: if y in moved then old(bios)[y].(place := Detached(i)) else old(bios)[y])
    {
      for k := 0 to |list|
        invariant bios.Keys == old(bios).Keys
        invariant forall y {:trigger bios[y]} :: y in bios ==>
                    bios[y] == if exists j :: 0 <= j < k && list[j].id == y then old(bios)[y].(place := Detached(i)) else old(bios)[y]
      {
        var x := list[k].id;
        bios := bios[x := bios[x].(place := Detached(i))];
      }
    }

    /** One turn of the loop of flashcache_do_pending_noerror. */
    method ReplayNext(i: nat, h: Found)
      requires Valid() && Idx(c, Now(), i) && slots[i].work.Drain? && slots[i].work.rest != [] && IsLookup(c, Now(), slots[i].dbn, h)
      modifies this, slots
      ensures Valid() && steps == old(steps) + [Replay(i, h)] && run == old(run) + [Now()]
      ensures Idx(c, Now(), i) && slots[i].work == Drain(old(slots[i]).work.rest[1..])
    {
      DrainInfo(i, h);
      ReplayExtends(c, initial, run, steps, Now(), i, h);
      DrainFirst(i, h);
      Taken(Replay(i, h));
    }

    lemma DrainInfo(i: nat, h: Found)
      requires Valid() && i < slots.Length && slots[i].work.Drain? && slots[i].work.rest != []
      requires |c.setOf| == slots.Length && IsLookup(c, Now(), slots[i].dbn, h)
      ensures Shaped(c, Now()) && slots[i].work.rest[0].id in bios && h != Some(i) && (h.Some? ==> Idx(c, Now(), h.value))
    {
      ReachesShaped(c, initial, run, steps, Now());
      EntriesHaveBios(c, initial, run, steps, Now(), i);
    }

    method DrainFirst(i: nat, h: Found)
      requires Idx(c, Now(), i) && slots[i].work.Drain? && slots[i].work.rest != [] && slots[i].work.rest[0].id in bios
      requires h.Some? ==> Idx(c, Now(), h.value)
      modifies this`bios, this`cached, this`cleaning, this`setCleaning, this`setFallow, slots
      ensures Now() == DrainOne(c, old(Now()), i, h)
      ensures Idx(c, Now(), i)
      ensures h != Some(i) ==> slots[i].work == Drain(old(slots[i]).work.rest[1..])
    {
      var e := slots[i].work.rest[0];
      slots[i] := slots[i].(work := Drain(slots[i].work.rest[1..]), nrQueued := slots[i].nrQueued - 1);
      assert slots[..] == old(slots[..])[i := slots[i]];
      bios := bios[e.id := bios[e.id].(place := Hand, ran := false)];
      assert Now() == DetachNext(old(Now()), i);
      if e.inval {
        var queued := InvalBlocks(e.id, h);
        if queued { return; }
      }
      StartUncached(e.id);
    }

    method EndDrain(i: nat)
      requires Valid() && Idx(c, Now(), i) && slots[i].work == Drain([])
      modifies this, slots
      ensures Valid() && steps == old(steps) + [DrainDone(i)] && run == old(run) + [Now()]
    {
      ghost var was := Now();
      ReachesShaped(c, initial, run, steps, was);
      slots[i] := slots[i].(bits := slots[i].bits.Idle(), work := NoWork);
      assert slots[..] == was.slots[i := slots[i]];
      Took(was, DrainDone(i));
    }

    lemma LimboIdx(i: nat)
      requires Valid() && i < slots.Length
      ensures Idx(c, Now(), i) && (slots[i].work.Limbo? ==> Enabled(c, Now(), Detach(i)))
    {
      ReachesShaped(c, initial, run, steps, Now());
    }

    /** flashcache_uncached_io_complete */
    method UncachedIoComplete(x: nat, h: Found)
      requires Valid() && x in bios && bios[x].place == Uncached && bios[x].ran && IsLookup(c, Now(), bios[x].bio.dbn, h)
      modifies this, slots
      ensures Valid() && steps == old(steps) + [UncachedDone(x, h)] && run == old(run) + [Now()]
    {
      UncachedExtends(c, initial, run, steps, Now(), x, h);
      EndUncached(x, h);
      Taken(UncachedDone(x, h));
    }

    method EndUncached(x: nat, h: Found)
      requires x in bios && (h.Some? ==> Idx(c, Now(), h.value))
      modifies this`bios, this`cached, this`cleaning, this`setCleaning, this`setFallow, this`log, this`torn, this`logical, slots
      ensures Now() == UncachedComplete(c, old(Now()), x, h)
    {
      bios := bios[x := bios[x].(place := Hand)];
      var queued := InvalBlocks(x, h);
      if !queued {
        EndBio(x, if bios[x].bio.write then At(disk, bios[x].bio.dbn, map[]) else bios[x].got);
      }
    }

    /** Mark an idle DIRTY slot DISKWRITEINPROG and write it back. */
    method CleanBlock(i: nat)
      requires Valid() && i < slots.Length && slots[i].bits.dirty && !slots[i].bits.Busy()
      modifies this, slots
      ensures Valid() && steps == old(steps) + [CleanSlot(i)] && run == old(run) + [Now()]
      ensures i < |c.setOf| && c.setOf[i] < |old(setCleaning)|
      ensures cleaning == old(cleaning) + 1 && setCleaning == BumpAt(old(setCleaning), c.setOf[i], 1)
      ensures var b := if c.mode == WriteBack then old(slots[i]).bits.Young() else old(slots[i]).bits;
              slots[..] == old(slots[..])[i := old(slots[i]).(bits := b.Idle().(diskWrite := true), work := WriteDisk(None, false))]
    {
      CleanExtends(c, initial, run, steps, Now(), i);
      StartClean(i);
      Taken(CleanSlot(i));
    }

    method MarkBlock(i: nat)
      requires Valid() && i < slots.Length
      modifies this, slots
      ensures Valid() && steps == old(steps) + [MarkFallow(i)] && run == old(run) + [Now()]
      ensures cleaning == old(cleaning) && setCleaning == old(setCleaning) && setDirty == old(setDirty)
      ensures |setFallow| == |old(setFallow)| && slots[..] == old(slots[..])[i := Older(c.mode, old(slots[i]))]
    {
      MarkExtends(c, initial, run, steps, Now(), i);
      DetectFallow(i);
      Taken(MarkFallow(i));
    }

    lemma Sizes()
      requires Valid()
      ensures |setDirty| == |setFallow| == |setCleaning| == c.sets && |c.setOf| == slots.Length
    {
      ReachesShaped(c, initial, run, steps, Now());
    }

    // ----- the devices -----

    /** A device read of slot i's job takes effect. */
    method SlotRead(step: Step, i: nat)
      requires Valid() && Enabled(c, Now(), step) && step in [SsdRead(i), DiskRead(i), CopyRead(i)]
      modifies this, slots
      ensures Valid() && steps == old(steps) + [step] && run == old(run) + [Now()]
    {
      Extend(c, initial, run, steps, Now(), step);
      ReadEffect(step, i);
      Taken(step);
    }

    method ReadEffect(step: Step, i: nat)
      requires Enabled(c, Now(), step) && step in [SsdRead(i), DiskRead(i), CopyRead(i)]
      modifies slots
      ensures Now() == Apply(c, old(Now()), step)
    {
      var work := slots[i].work;
      if step.SsdRead? {
        work := ReadCache(work.id, Some(ssd[i]));
      } else if step.DiskRead? {
        work := ReadDisk(work.id, Some(At(disk, slots[i].dbn, map[])));
      } else {
        work := WriteDisk(Some(ssd[i]), false);
      }
      slots[i] := slots[i].(work := work);
      assert slots[..] == old(slots[..])[i := slots[i]];
    }

    /** A device write of slot i's job takes effect. */
    method SlotWrite(step: Step, i: nat)
      requires Valid() && Enabled(c, Now(), step) && step in [SsdFill(i), SsdWrite(i), DiskMirror(i), CopyWrite(i)]
      modifies this, slots
      ensures Valid() && steps == old(steps) + [step] && run == old(run) + [Now()]
    {
      Extend(c, initial, run, steps, Now(), step);
      WriteEffect(step, i);
      Taken(step);
    }

    method WriteEffect(step: Step, i: nat)
      requires Enabled(c, Now(), step) && step in [SsdFill(i), SsdWrite(i), DiskMirror(i), CopyWrite(i)]
      modifies this`ssd, this`disk, slots
      ensures Now() == Apply(c, old(Now()), step)
    {
      var work := slots[i].work;
      if step.SsdFill? {
        ssd := ssd[i := work.data];
        work := ReadFill(work.id, work.data, true);
      } else if step.SsdWrite? {
        ssd := ssd[i := Payload(work.id)];
        work := WriteCache(work.id, true, work.mirrored);
      } else if step.DiskMirror? {
        disk := disk[slots[i].dbn := Payload(work.id)];
        work := WriteCache(work.id, work.stored, true);
      } else {
        disk := disk[slots[i].dbn := work.copy.value];
        work := WriteDisk(work.copy, true);
      }
      slots[i] := slots[i].(work := work);
      assert slots[..] == old(slots[..])[i := slots[i]];
    }

    function Payload(x: nat): Data
      reads this`bios
    {
      if x in bios then bios[x].bio.payload else map[]
    }

    /** An uncached I/O reaches the disk. */
    method UncachedIo(x: nat)
      requires Valid() && x in bios && bios[x].place == Uncached
      modifies this, slots
      ensures Valid() && steps == old(steps) + [DiskUncached(x)] && run == old(run) + [Now()]
    {
      Sizes();
      Extend(c, initial, run, steps, Now(), DiskUncached(x)) by { ReachesShaped(c, initial, run, steps, Now()); }
      var f := bios[x];
      var content := At(disk, f.bio.dbn, map[]);
      if f.bio.write {
        disk := disk[f.bio.dbn := Patch(content, f.bio)];
        bios := bios[x := f.(ran := true)];
      } else {
        bios := bios[x := f.(ran := true, got := content)];
      }
      Taken(DiskUncached(x));
    }

    /** One record of a metadata write reaches the SSD. */
    method MetadataIo(m: nat, k: nat)
      requires Valid() && Enabled(c, Now(), MdEffect(m, k))
      modifies this, slots
      ensures Valid() && steps == old(steps) + [MdEffect(m, k)] && run == old(run) + [Now()]
    {
      Extend(c, initial, run, steps, Now(), MdEffect(m, k));
      var io := heads[m].io;
      md := md[k := io.snap[k]];
      heads := heads[m := heads[m].(io := io.(applied := io.applied + {k}))];
      Taken(MdEffect(m, k));
    }
  }

  /** The counting of the last loop of flashcache_ctr. */
  method Tally(c: Config, slots: array<Slot>) returns (cached: int, dirty: int, setDirty: seq<int>)
    requires WellFormed(c) && slots.Length == c.size
    ensures Counters(cached, dirty, 0, setDirty, seq(c.sets, k => 0), seq(c.sets, k => 0)) == Recount(c, slots[..])
  {
    cached, dirty, setDirty := 0, 0, seq(c.sets, k => 0);
    var i := 0;
    while i < slots.Length
      invariant 0 <= i <= slots.Length && |setDirty| == c.sets
      invariant cached == Count(slots[..i], IsCached) && dirty == Count(slots[..i], IsDirty)
      invariant forall k: nat {:trigger setDirty[k]} :: k < c.sets ==> setDirty[k] == CountIn(slots[..i], c.setOf[..i], k, IsDirty)
    {
      forall k: nat ensures CountIn(slots[..][..i + 1], c.setOf[..i + 1], k, IsDirty) == CountIn(slots[..][..i], c.setOf[..i], k, IsDirty) + (if c.setOf[i] == k && IsDirty(slots[i]) then 1 else 0) {
        OneMore(slots[..], c.setOf, k, i);
      }
      OneMore(slots[..], c.setOf, 0, i);
      assert slots[..][..i] == slots[..i] && slots[..][..i + 1] == slots[..i + 1];
      if slots[i].bits.valid { cached := cached + 1; }
      if slots[i].bits.dirty { dirty, setDirty := dirty + 1, BumpAt(setDirty, c.setOf[i], 1); }
      i := i + 1;
    }
    assert slots[..i] == slots[..] && c.setOf[..i] == c.setOf;
  }

  /** A cache loaded from an SSD, after a crash or after a clean removal: its slots are what the
      records say and its counters are counted. u holds the devices and what the model remembers. */
  method Load(c: Config, ghost content: map<nat, Data>, u: State, clean: bool, ghost run: seq<State>, ghost steps: seq<Step>, ghost was: State, ghost step: Step, ghost t: State)
      returns (k: Cache)
    requires Reaches(c, content, run, steps, was) && Enabled(c, was, step) && t == Apply(c, was, step) && u == t.(slots := u.slots, ctr := u.ctr)
    requires if clean then step.CleanRestart? else step.PowerLoss?
    ensures fresh(k) && fresh(k.slots) && k.Valid() && k.c == c && k.initial == content && k.Now() == t
    ensures k.run == run + [t] && k.steps == steps + [step]
  {
    LoadFacts(c, content, run, steps, was, step, t);
    var slots := new Slot[c.size](i requires 0 <= i < |u.md| => Reloaded(u.md[i], clean));
    assert slots[..] == t.slots;
    var cached, dirty, setDirty := Tally(c, slots);
    var ctr := Counters(cached, dirty, 0, setDirty, seq(c.sets, k => 0), seq(c.sets, k => 0));
    k := new Cache.In(c, content, slots, u.(slots := slots[..], ctr := ctr), run + [t], steps + [step]);
  }
}
