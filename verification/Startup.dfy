/** Where the agreement of index and protocol begins, and that it lasts: a new cache, a cache after
    a crash and one after a clean restart are indexed slot by slot, and from there on the index of
    every set follows every step of every run. */
module Startup {
  import opened Types
  import opened Protocol
  import opened Invariant
  import opened Steps
  import opened SlotIndex
  import opened SetView
  import opened Driver
  import opened HashIndex
  import opened LruLists
  import opened SetDriver
  import opened Theorems
  import opened CrashProofs
  import X = IndexSpec
  import Links

  // ----- slots on which nothing is under way -----

  function BitsOf(s: seq<Slot>, start: nat, n: nat): seq<Bits>
    requires start + n <= |s|
  {
    seq(n, i requires 0 <= i < n => s[start + i].bits)
  }

  function BlocksOf(s: seq<Slot>, start: nat, n: nat): seq<nat>
    requires start + n <= |s|
  {
    seq<nat>(n, i requires 0 <= i < n => s[start + i].dbn)
  }

  predicate Resting(s: seq<Slot>, i: nat)
    requires i < |s|
  {
    s[i].work.NoWork?
  }

  ghost predicate AllResting(s: seq<Slot>) { forall i: nat {:trigger Resting(s, i)} :: i < |s| ==> Resting(s, i) }

  /** The index the slot-indexing loop makes of a set. */
  ghost function Fresh(jhash: nat -> nat, s: seq<Slot>, start: nat, n: nat): X.Index {
    if start + n <= |s| then X.Built(jhash, BitsOf(s, start, n), BlocksOf(s, start, n), n) else X.Index([], [], [], [])
  }

  lemma RestingSlot(c: Config, s: State, i: nat)
    requires Slots(c, s) && i < |s.slots| && Resting(s.slots, i)
    ensures s.slots[i].bits == INVALID || (s.slots[i].bits.valid && !s.slots[i].bits.invalid && c.hashBlock(s.slots[i].dbn) == c.setOf[i])
  {
    assert SlotOk(c, i, s.slots[i]);
  }

  /** What such slots hold can be indexed. */
  lemma RestingIndexable(c: Config, s: State, j: nat, start: nat, n: nat)
    requires Slots(c, s) && SetAt(c, j, start, n) && AllResting(s.slots) && n <= Links.NULL
    ensures X.Indexable(Mine(c, j), BitsOf(s.slots, start, n), BlocksOf(s.slots, start, n))
  {
    var bits, d := BitsOf(s.slots, start, n), BlocksOf(s.slots, start, n);
    forall i: nat | i < n ensures bits[i] == INVALID || (bits[i].valid && !bits[i].invalid && Mine(c, j)(d[i])) {
      assert Resting(s.slots, start + i) && c.setOf[start + i] == j;
      RestingSlot(c, s, start + i);
    }
    DistinctBlocks(c, s, start, n);
  }

  lemma DistinctBlocks(c: Config, s: State, start: nat, n: nat)
    requires Slots(c, s) && start + n <= |s.slots|
    ensures var bits, d := BitsOf(s.slots, start, n), BlocksOf(s.slots, start, n);
            forall a, b {:trigger d[a], d[b]} :: 0 <= a < b < n && bits[a].valid && bits[b].valid ==> d[a] != d[b]
  {
    var bits, d := BitsOf(s.slots, start, n), BlocksOf(s.slots, start, n);
    forall a, b | 0 <= a < b < n && bits[a].valid && bits[b].valid ensures d[a] != d[b] {
      assert s.slots[start + a].bits.valid && s.slots[start + b].bits.valid;
    }
  }

  lemma FreshMirrors(jhash: nat -> nat, s: seq<Slot>, start: nat, n: nat)
    requires start + n <= |s|
    ensures Mirrors(Fresh(jhash, s, start, n), s, start)
  {
    var x := Fresh(jhash, s, start, n);
    forall i: nat | i < |x.bits| ensures SameAt(x, s, start, i) {}
  }

  lemma FreshIndexed(c: Config, s: State, j: nat, start: nat, n: nat, jhash: nat -> nat)
    requires Slots(c, s) && SetAt(c, j, start, n) && AllResting(s.slots) && n <= Links.NULL
    ensures Indexed(c, s.slots, j, start, jhash, Fresh(jhash, s.slots, start, n), None)
  {
    RestingIndexable(c, s, j, start, n);
    X.BuiltConsistent(jhash, Mine(c, j), BitsOf(s.slots, start, n), BlocksOf(s.slots, start, n));
    FreshMirrors(jhash, s.slots, start, n);
  }

  lemma StartRests(c: Config, disk: map<nat, Data>)
    ensures AllResting(Start(c, disk).slots)
  {
  }

  lemma CrashRests(c: Config, s: State)
    requires |s.md| == |c.setOf|
    ensures AllResting(Crash(c, s).slots)
  {
  }

  lemma RestartRests(c: Config, s: State)
    requires |s.slots| == |c.setOf|
    ensures AllResting(Remount(c, s).slots)
  {
  }

  // ----- in place -----

  /** The part of flashcache_ctr that sets up one set: hash table, slot index and reclaim lists. */
  method SetUp(c: Config, slots: seq<Slot>, j: nat, start: nat, n: nat, jhash: nat -> nat, hotPct: nat, ghost s: State) returns (cs: CacheSet, rs: ReclaimSet)
    requires Slots(c, s) && s.slots == slots && SetAt(c, j, start, n) && AllResting(slots) && 0 < n <= Links.NULL && hotPct <= 100
    ensures cs.Valid() && Indexed(c, slots, j, start, jhash, cs.Model(), None) && cs.Model() == Fresh(jhash, slots, start, n)
    ensures cs.start == start && cs.jhash == jhash && cs.bits.Length == n && Reclaims(cs, rs)
    ensures fresh(cs) && fresh(cs.bits) && fresh(cs.dbn) && fresh(cs.hashPrev) && fresh(cs.hashNext) && fresh(cs.buckets)
    ensures fresh(rs) && fresh(rs.lruPrev) && fresh(rs.lruNext) && fresh(rs.isWarm) && fresh(rs.useCnt)
  {
    cs := IndexSet(c, slots, j, start, n, jhash, s);
    rs := ListSet(cs, hotPct);
  }

  method IndexSet(c: Config, slots: seq<Slot>, j: nat, start: nat, n: nat, jhash: nat -> nat, ghost s: State) returns (cs: CacheSet)
    requires Slots(c, s) && s.slots == slots && SetAt(c, j, start, n) && AllResting(slots) && n <= Links.NULL
    ensures cs.Valid() && Indexed(c, slots, j, start, jhash, cs.Model(), None) && cs.Model() == Fresh(jhash, slots, start, n)
    ensures cs.start == start && cs.jhash == jhash && cs.bits.Length == n
    ensures fresh(cs) && fresh(cs.bits) && fresh(cs.dbn) && fresh(cs.hashPrev) && fresh(cs.hashNext) && fresh(cs.buckets)
  {
    var bits := new Bits[n](i requires 0 <= i < n => slots[start + i].bits);
    var dbn := new nat[n](i requires 0 <= i < n => slots[start + i].dbn);
    RestingIndexable(c, s, j, start, n);
    FreshIndexed(c, s, j, start, n, jhash);
    assert bits[..] == BitsOf(slots, start, n) && dbn[..] == BlocksOf(slots, start, n);
    cs := new CacheSet(start, jhash, bits, dbn);
    cs.BuildIndex(Mine(c, j));
  }

  method ListSet(cs: CacheSet, hotPct: nat) returns (rs: ReclaimSet)
    requires 0 < cs.bits.Length <= Links.NULL && hotPct <= 100
    ensures Reclaims(cs, rs) && fresh(rs) && fresh(rs.lruPrev) && fresh(rs.lruNext) && fresh(rs.isWarm) && fresh(rs.useCnt)
  {
    rs := new ReclaimSet(cs.start, cs.bits, hotPct);
    rs.InitLruLists();
  }

  /** A new cache, with one of its sets. */
  method Create(config: Config, content: map<nat, Data>, j: nat, start: nat, n: nat, jhash: nat -> nat, hotPct: nat) returns (k: Cache, cs: CacheSet, rs: ReclaimSet)
    requires WellFormed(config) && SetAt(config, j, start, n) && 0 < n <= Links.NULL && hotPct <= 100
    ensures InStep(k, cs, j, None) && Reclaims(cs, rs) && k.c == config && k.Now() == Start(config, content) && k.steps == []
    ensures cs.start == start && cs.bits.Length == n && fresh(k) && fresh(k.slots)
    ensures fresh(cs) && fresh(cs.bits) && fresh(cs.dbn) && fresh(cs.hashPrev) && fresh(cs.hashNext) && fresh(cs.buckets)
    ensures fresh(rs) && fresh(rs.lruPrev) && fresh(rs.lruNext) && fresh(rs.isWarm) && fresh(rs.useCnt)
  {
    k := new Cache(config, content);
    StartInv(config, content);
    StartRests(config, content);
    cs, rs := SetUp(config, k.slots[..], j, start, n, jhash, hotPct, k.Now());
  }

  /** What a power loss leaves of any cache, or a clean removal of a quiet one, loaded again: the
      index is rebuilt and agrees with the loaded slots. u holds the devices, `clean` says which. */
  method Reload(k: Cache, u: State, clean: bool, ghost step: Step, j: nat, start: nat, n: nat, jhash: nat -> nat, hotPct: nat)
      returns (k': Cache, cs: CacheSet, rs: ReclaimSet)
    requires k.Valid() && (if clean then step.CleanRestart? else step.PowerLoss?) && Enabled(k.c, k.Now(), step)
    requires var t := Apply(k.c, k.Now(), step); u == t.(slots := u.slots, ctr := u.ctr)
    requires SetAt(k.c, j, start, n) && 0 < n <= Links.NULL && hotPct <= 100
    ensures InStep(k', cs, j, None) && Reclaims(cs, rs) && cs.start == start && cs.bits.Length == n && fresh(k') && fresh(k'.slots)
    ensures fresh(cs) && fresh(cs.bits) && fresh(cs.dbn) && fresh(cs.hashPrev) && fresh(cs.hashNext) && fresh(cs.buckets)
    ensures fresh(rs) && fresh(rs.lruPrev) && fresh(rs.lruNext) && fresh(rs.isWarm) && fresh(rs.useCnt)
    ensures k'.c == k.c && k'.initial == k.initial && k'.Now() == Apply(k.c, k.Now(), step) && k'.steps == k.steps + [step]
  {
    ghost var t := Apply(k.c, k.Now(), step);
    ReloadRests(k.c, k.initial, k.run, k.steps, k.Now(), step);
    k' := Load(k.c, k.initial, u, clean, k.run, k.steps, k.Now(), step, t);
    cs, rs := SetUp(k.c, k'.slots[..], j, start, n, jhash, hotPct, t);
  }

  lemma ReloadRests(c: Config, disk: map<nat, Data>, run: seq<State>, steps: seq<Step>, s: State, step: Step)
    requires Reaches(c, disk, run, steps, s) && Enabled(c, s, step) && (step.CleanRestart? || step.PowerLoss?)
    ensures Slots(c, Apply(c, s, step)) && AllResting(Apply(c, s, step).slots)
  {
    ReachableGood(c, disk, s);
    if step.PowerLoss? {
      CrashKeeps(c, s);
      CrashRests(c, s);
    } else {
      RemountKeeps(c, s);
      RestartRests(c, s);
    }
  }

  // ----- and it lasts -----

  /** The index of a set after a step: rebuilt by a reload, else updated as the step demands. */
  ghost function NextIndex(c: Config, s: State, step: Step, j: nat, start: nat, jhash: nat -> nat, x: X.Index): X.Index
    requires Enabled(c, s, step)
  {
    if step.PowerLoss? || step.CleanRestart? then Fresh(jhash, Apply(c, s, step).slots, start, |x.bits|)
    else Followed(c, s.slots, j, start, jhash, x, StepTouch(c, s, step))
  }

  lemma SameSize(c: Config, s: seq<Slot>, t: seq<Slot>, j: nat, start: nat, jhash: nat -> nat, x: X.Index, y: X.Index)
    requires Indexed(c, s, j, start, jhash, x, None) && Indexed(c, t, j, start, jhash, y, None) && |x.bits| > 0
    ensures |y.bits| == |x.bits|
  {
    var a, b := |x.bits|, |y.bits|;
    assert c.setOf[start] == j && c.setOf[start + a - 1] == j;
    if b > 0 { assert c.setOf[start + b - 1] == j; }
  }

  /** Whatever the step, crashes and reloads included, the index of every set follows it: it is
      consistent again and has exactly the state words and blocks of the set's slots. */
  lemma IndexFollows(c: Config, s: State, step: Step, j: nat, start: nat, jhash: nat -> nat, x: X.Index)
    requires Inv(c, s) && Enabled(c, s, step) && Indexed(c, s.slots, j, start, jhash, x, None) && |x.bits| > 0
    requires FromIndex(c, s.slots, start, x, StepTouch(c, s, step))
    ensures Indexed(c, Apply(c, s, step).slots, j, start, jhash, NextIndex(c, s, step, j, start, jhash, x), None)
    ensures |NextIndex(c, s, step, j, start, jhash, x).bits| == |x.bits|
  {
    if step.PowerLoss? {
      CrashKeeps(c, s);
      CrashRests(c, s);
      FreshIndexed(c, Crash(c, s), j, start, |x.bits|, jhash);
    } else if step.CleanRestart? {
      RemountKeeps(c, s);
      RestartRests(c, s);
      FreshIndexed(c, Remount(c, s), j, start, |x.bits|, jhash);
    } else {
      StepTouches(c, s, step);
      StepLegal(c, s, step);
      TouchFollows(c, s.slots, Apply(c, s, step).slots, j, start, jhash, x, StepTouch(c, s, step));
    }
    SameSize(c, s.slots, Apply(c, s, step).slots, j, start, jhash, x, NextIndex(c, s, step, j, start, jhash, x));
  }

  /** The index of a set of n slots along a run, from the one it is set up with. */
  ghost function Tracked(c: Config, run: seq<State>, steps: seq<Step>, j: nat, start: nat, n: nat, jhash: nat -> nat, k: nat): X.Index
    requires k < |run| == |steps| + 1
    decreases k
  {
    if k == 0 then Fresh(jhash, run[0].slots, start, n)
    else
      var x := Tracked(c, run, steps, j, start, n, jhash, k - 1);
      if Enabled(c, run[k - 1], steps[k - 1]) then NextIndex(c, run[k - 1], steps[k - 1], j, start, jhash, x) else x
  }

  /** A request that claims an INVALID slot of the set at step k claims the one the index gives out. */
  ghost predicate Claims(c: Config, run: seq<State>, steps: seq<Step>, j: nat, start: nat, n: nat, jhash: nat -> nat, k: nat)
    requires k < |steps| && |run| == |steps| + 1
  {
    Enabled(c, run[k], steps[k]) ==> FromIndex(c, run[k].slots, start, Tracked(c, run, steps, j, start, n, jhash, k), StepTouch(c, run[k], steps[k]))
  }

  ghost predicate AllClaims(c: Config, run: seq<State>, steps: seq<Step>, j: nat, start: nat, n: nat, jhash: nat -> nat)
    requires |run| == |steps| + 1
  {
    forall k: nat {:trigger Claims(c, run, steps, j, start, n, jhash, k)} :: k < |steps| ==> Claims(c, run, steps, j, start, n, jhash, k)
  }

  /** At step k the index is consistent and has exactly the state words and blocks of the set. */
  ghost predicate OnTrack(c: Config, run: seq<State>, steps: seq<Step>, j: nat, start: nat, n: nat, jhash: nat -> nat, k: nat)
    requires k < |run| == |steps| + 1
  {
    var x := Tracked(c, run, steps, j, start, n, jhash, k);
    |x.bits| == n && Indexed(c, run[k].slots, j, start, jhash, x, None)
  }

  lemma StartOnTrack(c: Config, disk: map<nat, Data>, run: seq<State>, steps: seq<Step>, j: nat, start: nat, n: nat, jhash: nat -> nat)
    requires WellFormed(c) && |run| == |steps| + 1 && run[0] == Start(c, disk) && SetAt(c, j, start, n) && n <= Links.NULL
    ensures OnTrack(c, run, steps, j, start, n, jhash, 0)
  {
    StartInv(c, disk);
    StartRests(c, disk);
    FreshIndexed(c, Start(c, disk), j, start, n, jhash);
  }

  lemma StepOnTrack(c: Config, disk: map<nat, Data>, run: seq<State>, steps: seq<Step>, j: nat, start: nat, n: nat, jhash: nat -> nat, k: nat)
    requires WellFormed(c) && IsRun(c, disk, run, steps) && k < |steps| && n > 0 && AllClaims(c, run, steps, j, start, n, jhash)
    requires OnTrack(c, run, steps, j, start, n, jhash, k)
    ensures OnTrack(c, run, steps, j, start, n, jhash, k + 1)
  {
    RunGood(c, disk, run, steps, k);
    assert Follows(c, run, steps, k) && Claims(c, run, steps, j, start, n, jhash, k);
    IndexFollows(c, run[k], steps[k], j, start, jhash, Tracked(c, run, steps, j, start, n, jhash, k));
  }

  /** In every state of every run, whatever the interleaving, the crashes and the reloads, the
      index of every set has the set's slots. */
  lemma {:induction false} RunIndexed(c: Config, disk: map<nat, Data>, run: seq<State>, steps: seq<Step>, j: nat, start: nat, n: nat, jhash: nat -> nat, k: nat)
    requires WellFormed(c) && IsRun(c, disk, run, steps) && SetAt(c, j, start, n) && 0 < n <= Links.NULL && k < |run|
    requires AllClaims(c, run, steps, j, start, n, jhash)
    ensures OnTrack(c, run, steps, j, start, n, jhash, k)
    decreases k
  {
    if k == 0 {
      StartOnTrack(c, disk, run, steps, j, start, n, jhash);
    } else {
      RunIndexed(c, disk, run, steps, j, start, n, jhash, k - 1);
      StepOnTrack(c, disk, run, steps, j, start, n, jhash, k - 1);
    }
  }

  /** So at any time walking the chain of a block answers what the protocol demands of a lookup. */
  lemma RunLookups(c: Config, disk: map<nat, Data>, run: seq<State>, steps: seq<Step>, j: nat, start: nat, n: nat, jhash: nat -> nat, k: nat, b: nat)
    requires WellFormed(c) && IsRun(c, disk, run, steps) && SetAt(c, j, start, n) && 0 < n <= Links.NULL && k < |run| && c.hashBlock(b) == j
    requires AllClaims(c, run, steps, j, start, n, jhash)
    ensures var x := Tracked(c, run, steps, j, start, n, jhash, k);
            |x.lists| == X.BUCKETS + 1 && (forall m {:trigger x.lists[X.Bucket(jhash, b)][m]} :: 0 <= m < |x.lists[X.Bucket(jhash, b)]| ==> x.lists[X.Bucket(jhash, b)][m] < |x.dbn|)
            && IsLookup(c, run[k], b, Global(start, X.Walk(x, x.lists[X.Bucket(jhash, b)], b)))
  {
    RunIndexed(c, disk, run, steps, j, start, n, jhash, k);
    WalkIsLookup(c, run[k], j, start, jhash, Tracked(c, run, steps, j, start, n, jhash, k), None, b);
  }
}
