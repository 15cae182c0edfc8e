/** What starts background cleaning: flashcache_clean_set on one set, and flashcache_sync_blocks
    on one set after the other. */
module Cleaner {
  import opened Types
  import opened Protocol
  import opened Steps
  import opened SlotIndex
  import opened SetView
  import opened Driver
  import opened HashIndex
  import opened LruLists
  import opened SetDriver
  import opened SetCleaning
  import opened Invariant
  import opened Theorems
  import X = IndexSpec
  import L = LruSpec
  import M = MergeWrites
  import Links
  import Accounting

  // ----- the sweep that marks fallow blocks -----

  /** The first n slots from start have been looked at, and nothing else has changed. */
  ghost predicate Swept(mode: Mode, was: seq<Slot>, now: seq<Slot>, start: nat, n: nat) {
    |now| == |was| && forall i {:trigger now[i]} :: 0 <= i < |was| ==> now[i] == if start <= i < start + n then Older(mode, was[i]) else was[i]
  }

  function Marks(start: nat, n: nat): seq<Step> { seq(n, i requires 0 <= i => MarkFallow(start + i)) }

  lemma OneMark(start: nat, n: nat)
    ensures Marks(start, n + 1) == Marks(start, n) + [MarkFallow(start + n)]
  {
  }

  method MarkBlock(k: Cache, i: nat)
    requires k.Valid() && i < k.slots.Length
    modifies k, k.slots
    ensures k.Valid() && k.steps == old(k.steps) + [MarkFallow(i)] && MovesAt(k.c, old(k.slots[..]), k.slots[..], i)
    ensures k.slots[..] == old(k.slots[..])[i := Older(k.c.mode, old(k.slots[i]))]
    ensures k.cleaning == old(k.cleaning) && k.setCleaning == old(k.setCleaning) && k.setDirty == old(k.setDirty)
  {
    ghost var s, run, steps := k.Now(), k.run, k.steps;
    k.MarkBlock(i);
    Stepped(k.c, k.initial, run, steps, s, k.Now(), MarkFallow(i));
    AfterAt(k.c, s.slots, k.slots[..], StepTouch(k.c, s, MarkFallow(i)), i);
  }

  method MarkOne(k: Cache, cs: CacheSet, n: nat, ghost was: seq<Slot>, ghost j: nat)
    requires InStep(k, cs, j, None) && n < cs.bits.Length && Swept(k.c.mode, was, k.slots[..], cs.start, n)
    modifies k, k.slots, cs, cs.bits, cs.dbn, cs.hashPrev, cs.hashNext, cs.buckets
    ensures InStep(k, cs, j, None) && Swept(k.c.mode, was, k.slots[..], cs.start, n + 1) && k.steps == old(k.steps) + [MarkFallow(cs.start + n)]
    ensures k.cleaning == old(k.cleaning) && k.setCleaning == old(k.setCleaning) && k.setDirty == old(k.setDirty)
  {
    ghost var s := k.slots[..];
    MarkBlock(k, cs.start + n);
    Catch(k, cs, cs.start + n, j, s);
  }

  /** The idle DIRTY blocks of the set are older by one sweep: fallow with the second. */
  ghost predicate AgedBlocks(mode: Mode, was: seq<Slot>, now: seq<Slot>, start: nat, n: nat) {
    |now| == |was| && forall i {:trigger now[i]} :: 0 <= i < |was| ==>
      if mode == Mode.WriteBack && start <= i < start + n && M.IdleDirty(was[i].bits)
      then now[i].bits.fallow1 && (was[i].bits.fallow1 ==> now[i].bits.fallow2) && now[i].bits.Young() == was[i].bits.Young() && now[i].dbn == was[i].dbn
      else now[i] == was[i]
  }

  lemma SweptAges(mode: Mode, was: seq<Slot>, now: seq<Slot>, start: nat, n: nat)
    requires Swept(mode, was, now, start, n)
    ensures AgedBlocks(mode, was, now, start, n)
  {
  }

  /** Every slot of the set is looked at once. */
  method Sweep(k: Cache, cs: CacheSet, ghost j: nat)
    requires InStep(k, cs, j, None)
    modifies k, k.slots, cs, cs.bits, cs.dbn, cs.hashPrev, cs.hashNext, cs.buckets
    ensures AgedBlocks(k.c.mode, old(k.slots[..]), k.slots[..], cs.start, cs.bits.Length)
    ensures InStep(k, cs, j, None) && Swept(k.c.mode, old(k.slots[..]), k.slots[..], cs.start, cs.bits.Length)
    ensures k.steps == old(k.steps) + Marks(cs.start, cs.bits.Length)
    ensures k.cleaning == old(k.cleaning) && k.setCleaning == old(k.setCleaning) && k.setDirty == old(k.setDirty)
  {
    ghost var was := k.slots[..];
    for n := 0 to cs.bits.Length
      invariant InStep(k, cs, j, None) && Swept(k.c.mode, was, k.slots[..], cs.start, n) && k.steps == old(k.steps) + Marks(cs.start, n)
      invariant k.cleaning == old(k.cleaning) && k.setCleaning == old(k.setCleaning) && k.setDirty == old(k.setDirty)
    {
      MarkOne(k, cs, n, was, j);
      OneMark(cs.start, n);
    }
    SweptAges(k.c.mode, was, k.slots[..], cs.start, cs.bits.Length);
  }

  // ----- the orders in which blocks are looked at -----

  /** Around the set from the cursor. */
  function Cyclic(n: nat, cursor: nat): seq<nat>
    requires cursor < n
  {
    seq(n, k requires 0 <= k < n => Around(n, cursor, k))
  }

  lemma CyclicApart(n: nat, cursor: nat)
    requires cursor < n
    ensures Within(Cyclic(n, cursor), n) && Links.Distinct(Cyclic(n, cursor))
  {
  }

  lemma ListsApart(l: L.Lru, n: nat)
    requires L.Split(l, n)
    ensures Within(l.warm + l.hot, n) && Links.Distinct(l.warm + l.hot)
  {
    var q := l.warm + l.hot;
    forall a: nat, b: nat | a < b < |q| ensures Links.Differ(q, a, b) {
      if b < |l.warm| {
        assert Links.Differ(l.warm, a, b);
      } else if a >= |l.warm| {
        assert Links.Differ(l.hot, a - |l.warm|, b - |l.warm|);
      } else {
        assert L.On(l, l.hot[b - |l.warm|]) && l.warm[a] in l.warm && l.hot[b - |l.warm|] in l.hot;
      }
    }
  }

  /** The order reclaim looks at the slots in. */
  method ReclaimOrder(cs: CacheSet, rs: ReclaimSet, lru: bool, cursor: nat) returns (order: seq<nat>)
    requires Reclaims(cs, rs) && cursor < cs.bits.Length
    ensures order == if lru then rs.Model().warm + rs.Model().hot else Cyclic(cs.bits.Length, cursor)
    ensures Within(order, cs.bits.Length) && Links.Distinct(order)
  {
    ListsApart(rs.Model(), cs.bits.Length);
    CyclicApart(cs.bits.Length, cursor);
    if lru { order := rs.InOrder(); } else { order := Cyclic(cs.bits.Length, cursor); }
  }

  // ----- what a pass is for -----

  /** From s to t the set has been cleaned enough: the limits on cleanings under way are reached, or
      its DIRTY blocks, less the cleanings started, are within the threshold, or none is left idle. */
  ghost predicate CleanedEnough(s: State, t: State, j: nat, start: nat, n: nat, thresh: int, lim: Limits) {
    && j < |s.ctr.setDirty| && j < |s.ctr.setCleaning| && j < |t.ctr.setCleaning| && start + n <= |t.slots|
    && (t.ctr.setCleaning[j] >= lim.perSet || t.ctr.cleaning >= lim.total
        || s.ctr.setDirty[j] - (t.ctr.setCleaning[j] - s.ctr.setCleaning[j]) <= thresh
        || forall i {:trigger t.slots[i]} :: start <= i < start + n ==> !M.IdleDirty(t.slots[i].bits))
  }

  lemma {:induction false} Fewer(a: set<nat>, b: set<nat>)
    requires a <= b
    ensures |a| <= |b|
  {
    if a != {} {
      var i :| i in a;
      Fewer(a - {i}, b - {i});
    }
  }

  lemma {:induction false} AsMany(q: seq<nat>)
    requires Links.Distinct(q)
    ensures |ToSet(q)| == |q|
  {
    if q != [] {
      var n := |q| - 1;
      forall a: nat, b: nat | a < b < n ensures Links.Differ(q[..n], a, b) { assert Links.Differ(q, a, b); }
      AsMany(q[..n]);
      forall k: nat | k < n ensures q[k] != q[n] { Links.Apart(q, k, n); }
      assert ToSet(q) == ToSet(q[..n]) + {q[n]};
    }
  }

  lemma ChosenStarted(s: State, t: State, x: X.Index, start: nat, j: nat, q: seq<nat>, size: M.BlockSize, out: seq<M.Pair>)
    requires Cleaned(s, t, x, start, j, ToSet(q), size, out) && |x.bits| == |x.dbn| && Within(q, |x.bits|) && Links.Distinct(q)
    ensures |q| <= |out| && forall i: nat {:trigger i in q} :: i in q ==> i in Indices(out)
  {
    forall i: nat | i in q ensures i in Indices(out) { M.JoinedChosen(x, size, ToSet(q), i); }
    AsMany(q);
    Distinctly(x, out);
    Fewer(ToSet(q), ToSet(Indices(out)));
  }

  /** Every slot of the set is looked at. */
  ghost predicate Covers(order: seq<nat>, n: nat) { forall i: nat {:trigger i in order} :: i < n ==> i in order }

  lemma PassEnough(c: Config, s: State, t: State, j: nat, start: nat, jhash: nat -> nat, x: X.Index, order: seq<nat>, p: Pass, lim: Limits, size: M.BlockSize, out: seq<M.Pair>)
    requires Indexed(c, s.slots, j, start, jhash, x, None) && Tidy(x.bits) && Within(order, |x.bits|) && Links.Distinct(order) && Covers(order, |x.bits|)
    requires Cleaned(s, t, x, start, j, ToSet(Selected(x.bits, order, p)), size, out) && j < |s.ctr.setDirty|
    requires p.room == Room(lim, s.ctr.setCleaning[j], s.ctr.cleaning) && p.dirty == s.ctr.setDirty[j] && (p.force == 0 || p.dirty > Max(p.thresh, 0))
    ensures CleanedEnough(s, t, j, start, |x.bits|, p.thresh, lim)
  {
    var q := Selected(x.bits, order, p);
    SelectedDistinct(x.bits, order, p);
    ChosenStarted(s, t, x, start, j, q, size, out);
    ThresholdLaw(x.bits, order, p);
    if |q| < p.room && p.dirty - |q| > p.thresh {
      forall i: nat | start <= i < start + |x.bits| ensures !M.IdleDirty(t.slots[i].bits) {
        assert SameAt(x, s.slots, start, i - start) && i - start in order;
      }
    }
  }

  /** A pass forced by a miss, under the threshold and with nothing fallow, starts a cleaning if one of
      the first blocks in reclaim order can be cleaned and there is room. */
  ghost predicate CleanedForced(x: X.Index, order: seq<nat>, force: nat, out: seq<M.Pair>) {
    && (forall i {:trigger x.bits[i]} :: 0 <= i < |x.bits| ==> !x.bits[i].fallow2)
    && (exists q {:trigger order[q]} :: 0 <= q < |order| && q < force && order[q] < |x.bits| && M.IdleDirty(x.bits[order[q]]))
    ==> out != []
  }

  lemma PassForced(s: State, t: State, j: nat, start: nat, x: X.Index, order: seq<nat>, p: Pass, size: M.BlockSize, out: seq<M.Pair>)
    requires |x.bits| == |x.dbn| && Tidy(x.bits) && Within(order, |x.bits|) && Links.Distinct(order)
    requires Cleaned(s, t, x, start, j, ToSet(Selected(x.bits, order, p)), size, out)
    requires p.room > 0 && p.force > 0 && 0 < p.dirty <= p.thresh
    ensures CleanedForced(x, order, p.force, out)
  {
    var q := Selected(x.bits, order, p);
    SelectedDistinct(x.bits, order, p);
    ChosenStarted(s, t, x, start, j, q, size, out);
    if forall i {:trigger x.bits[i]} :: 0 <= i < |x.bits| ==> !x.bits[i].fallow2 { ForcedLaw(x.bits, order, p); }
  }

  /** The blocks counted. */
  ghost function Which(slots: seq<Slot>, setOf: seq<nat>, j: nat, q: Slot -> bool): set<nat>
    requires |slots| == |setOf|
  {
    set i: nat | i < |slots| && setOf[i] == j && q(slots[i])
  }

  lemma {:induction false} CountWhich(slots: seq<Slot>, setOf: seq<nat>, j: nat, q: Slot -> bool)
    requires |slots| == |setOf|
    ensures CountIn(slots, setOf, j, q) == |Which(slots, setOf, j, q)|
  {
    if slots == [] {
      assert Which(slots, setOf, j, q) == {};
    } else {
      var n := |slots| - 1;
      CountWhich(slots[..n], setOf[..n], j, q);
      var w := Which(slots[..n], setOf[..n], j, q);
      assert Which(slots, setOf, j, q) == if setOf[n] == j && q(slots[n]) then w + {n} else w;
    }
  }

  function Shift(a: seq<nat>, start: nat): seq<nat> { seq(|a|, k requires 0 <= k < |a| => start + a[k]) }

  lemma ShiftDistinct(a: seq<nat>, start: nat)
    requires Links.Distinct(a)
    ensures Links.Distinct(Shift(a, start))
  {
    forall u: nat, v: nat | u < v < |a| ensures Links.Differ(Shift(a, start), u, v) { assert Links.Differ(a, u, v); }
  }

  lemma FallowsThere(c: Config, s: seq<Slot>, j: nat, start: nat, jhash: nat -> nat, x: X.Index, a: seq<nat>)
    requires Indexed(c, s, j, start, jhash, x, None) && AllFallow(x.bits, a)
    ensures ToSet(Shift(a, start)) <= Which(s, c.setOf, j, IsFallow)
  {
    forall q | q in Shift(a, start) ensures q in Which(s, c.setOf, j, IsFallow) {
      var p :| 0 <= p < |a| && Shift(a, start)[p] == q;
      assert SameAt(x, s, start, a[p]) && c.setOf[start + a[p]] == j;
    }
  }

  /** As many different fallow blocks of the set as there are, are all of them. */
  lemma AllOfThem(c: Config, s: seq<Slot>, j: nat, start: nat, jhash: nat -> nat, x: X.Index, a: seq<nat>, i: nat)
    requires Indexed(c, s, j, start, jhash, x, None) && AllFallow(x.bits, a) && Links.Distinct(a) && |a| >= CountIn(s, c.setOf, j, IsFallow)
    requires i < |x.bits| && x.bits[i].fallow2
    ensures i in a
  {
    if i !in a {
      var b := a + [i];
      Links.MoreDistinct(a, i);
      ShiftDistinct(b, start);
      AsMany(Shift(b, start));
      FallowsThere(c, s, j, start, jhash, x, b);
      CountWhich(s, c.setOf, j, IsFallow);
      Fewer(ToSet(Shift(b, start)), Which(s, c.setOf, j, IsFallow));
    }
  }

  /** A pass for which fallow blocks are due leaves none, unless the limits stop it. */
  lemma PassFallow(c: Config, s: State, t: State, j: nat, start: nat, jhash: nat -> nat, x: X.Index, order: seq<nat>, p: Pass, lim: Limits, size: M.BlockSize, out: seq<M.Pair>)
    requires Indexed(c, s.slots, j, start, jhash, x, None) && Tidy(x.bits) && Within(order, |x.bits|) && Links.Distinct(order) && p.due
    requires Cleaned(s, t, x, start, j, ToSet(Selected(x.bits, order, p)), size, out)
    requires p.room == Room(lim, s.ctr.setCleaning[j], s.ctr.cleaning) && p.fallow == CountIn(s.slots, c.setOf, j, IsFallow)
    ensures FallowCleaned(s, t, j, start, |x.bits|, lim)
  {
    var q, a := Selected(x.bits, order, p), FallowFirst(x.bits, p);
    SelectedDistinct(x.bits, order, p);
    ChosenStarted(s, t, x, start, j, q, size, out);
    FirstFallows(Upto(|x.bits|), x.bits, Min(p.room, p.fallow));
    UptoDistinct(|x.bits|);
    FirstDistinct(Upto(|x.bits|), x.bits, true, Min(p.room, p.fallow));
    if |q| < p.room {
      forall i: nat | start <= i < start + |x.bits| ensures !t.slots[i].bits.fallow2 {
        if x.bits[i - start].fallow2 { FallowTaken(c, s.slots, j, start, jhash, x, p, i - start); }
        NoLonger(s, t, x, start, j, q, size, out, i - start);
      }
    }
  }

  lemma NoLonger(s: State, t: State, x: X.Index, start: nat, j: nat, q: seq<nat>, size: M.BlockSize, out: seq<M.Pair>, r: nat)
    requires Cleaned(s, t, x, start, j, ToSet(q), size, out) && Mirrors(x, s.slots, start) && r < |x.bits| && (r in q ==> r in Indices(out))
    requires x.bits[r].fallow2 ==> r in q
    ensures start + r < |t.slots| && !t.slots[start + r].bits.fallow2
  {
    assert SameAt(x, s.slots, start, r);
    if r !in Indices(out) { assert t.slots[start + r] == s.slots[start + r]; }
  }

  /** While there is room every fallow block is among those chosen. */
  lemma FallowTaken(c: Config, s: seq<Slot>, j: nat, start: nat, jhash: nat -> nat, x: X.Index, p: Pass, r: nat)
    requires Indexed(c, s, j, start, jhash, x, None) && p.due && p.fallow == CountIn(s, c.setOf, j, IsFallow) && r < |x.bits| && x.bits[r].fallow2
    requires AllFallow(x.bits, FallowFirst(x.bits, p)) && Links.Distinct(FallowFirst(x.bits, p)) && |FallowFirst(x.bits, p)| < p.room
    ensures r in FallowFirst(x.bits, p)
  {
    assert Upto(|x.bits|)[r] == r;
    FirstExact(Upto(|x.bits|), x.bits, true, Min(p.room, p.fallow), r);
    if |FallowFirst(x.bits, p)| >= p.fallow { AllOfThem(c, s, j, start, jhash, x, FallowFirst(x.bits, p), r); }
  }

  ghost predicate FallowCleaned(s: State, t: State, j: nat, start: nat, n: nat, lim: Limits) {
    && j < |t.ctr.setCleaning| && start + n <= |t.slots|
    && (t.ctr.setCleaning[j] >= lim.perSet || t.ctr.cleaning >= lim.total
        || forall i {:trigger t.slots[i]} :: start <= i < start + n ==> !t.slots[i].bits.fallow2)
  }

  lemma CyclicCovers(n: nat, cursor: nat)
    requires cursor < n
    ensures Covers(Cyclic(n, cursor), n)
  {
    forall i: nat | i < n ensures i in Cyclic(n, cursor) {
      var k := if i >= cursor then i - cursor else n - cursor + i;
      assert Cyclic(n, cursor)[k] == i;
    }
  }

  lemma ListsCover(l: L.Lru, n: nat)
    requires L.Split(l, n)
    ensures Covers(l.warm + l.hot, n)
  {
    forall i: nat | i < n ensures i in l.warm + l.hot { assert L.On(l, i); }
  }

  /** Either order covers the set, each slot once. */
  lemma OrderCovers(l: L.Lru, n: nat, lru: bool, cursor: nat)
    requires L.Split(l, n) && cursor < n
    ensures var order := if lru then l.warm + l.hot else Cyclic(n, cursor); Within(order, n) && Links.Distinct(order) && Covers(order, n)
  {
    ListsApart(l, n);
    ListsCover(l, n);
    CyclicApart(n, cursor);
    CyclicCovers(n, cursor);
  }

  // ----- flashcache_clean_set -----

  /** A miss forces cleaning only if reclaim is LRU. */
  function Forced(lru: bool, force: nat): nat { if lru then force else 0 }

  /** What the second half of the function is given: the fallow blocks there are now, and the
      counters of DIRTY blocks and of cleanings under way. */
  ghost function PassOf(c: Config, s: State, j: nat, due: bool, thresh: int, force: nat, lim: Limits): Pass
    requires |s.slots| == |c.setOf| && j < |s.ctr.setDirty| && j < |s.ctr.setCleaning|
  {
    Pass(due, CountIn(s.slots, c.setOf, j, IsFallow), s.ctr.setDirty[j], thresh, force, Room(lim, s.ctr.setCleaning[j], s.ctr.cleaning))
  }

  lemma FallowCounted(c: Config, disk: map<nat, Data>, run: seq<State>, steps: seq<Step>, s: State, j: nat)
    requires Reaches(c, disk, run, steps, s) && j < c.sets
    ensures |s.slots| == |c.setOf| && |s.ctr.setFallow| == |s.ctr.setDirty| == |s.ctr.setCleaning| == c.sets
    ensures s.ctr.setFallow[j] == CountIn(s.slots, c.setOf, j, IsFallow)
  {
    ReachesShaped(c, disk, run, steps, s);
    Accounting.CountersTrue(c, disk, s);
  }

  /** From s, where the set's index was x, to t: exactly the blocks joined by an unbroken run of
      idle DIRTY blocks to those chosen have had their writebacks started and are counted. */
  ghost predicate Cleaned(s: State, t: State, x: X.Index, start: nat, j: nat, chosen: set<nat>, size: M.BlockSize, out: seq<M.Pair>) {
    && M.ListOk(x, out) && (forall i: nat {:trigger M.Joined(x, size, chosen, i)} :: i in Indices(out) <==> M.Joined(x, size, chosen, i))
    && StartedAll(s.slots, t.slots, start, Indices(out)) && j < |s.ctr.setCleaning|
    && t.ctr.cleaning == s.ctr.cleaning + |out| && t.ctr.setCleaning == BumpAt(s.ctr.setCleaning, j, |out|)
  }

  method CleanPass(k: Cache, cs: CacheSet, order: seq<nat>, due: bool, thresh: int, force: nat, lim: Limits, size: M.BlockSize, j: nat)
      returns (out: seq<M.Pair>, scanned: nat)
    requires InStep(k, cs, j, None) && k.c.mode == Mode.WriteBack && j < k.c.sets && Sectors(cs.dbn[..])
    requires |k.slots[..]| == |k.c.setOf| && |k.setDirty| == |k.setCleaning| == k.c.sets && Within(order, cs.bits.Length) && Links.Distinct(order)
    modifies k, k.slots, cs.bits
    ensures InStep(k, cs, j, None) && k.steps == old(k.steps) + Cleans(cs.start, out) && |out| <= cs.bits.Length
    ensures var p := PassOf(k.c, old(k.Now()), j, due, thresh, force, lim);
            scanned == Tried(old(cs.bits[..]), order, p)
            && Cleaned(old(k.Now()), k.Now(), old(cs.Model()), cs.start, j, ToSet(Selected(old(cs.bits[..]), order, p)), size, out)
  {
    FallowCounted(k.c, k.initial, k.run, k.steps, k.Now(), j);
    out, scanned := Clean(k, cs, order, due, thresh, force, lim, size, j);
  }

  /** The sweep, if it is time for one. */
  method MaybeSweep(k: Cache, cs: CacheSet, sweep: bool, j: nat)
    requires InStep(k, cs, j, None) && j < k.c.sets
    modifies k, k.slots, cs, cs.bits, cs.dbn, cs.hashPrev, cs.hashNext, cs.buckets
    ensures InStep(k, cs, j, None) && Swept(k.c.mode, old(k.slots[..]), k.slots[..], cs.start, if sweep then cs.bits.Length else 0)
    ensures k.steps == old(k.steps) + Marks(cs.start, if sweep then cs.bits.Length else 0)
    ensures k.cleaning == old(k.cleaning) && k.setCleaning == old(k.setCleaning) && k.setDirty == old(k.setDirty)
    ensures |k.slots[..]| == |k.c.setOf| && |k.setDirty| == |k.setCleaning| == k.c.sets
  {
    if sweep { Sweep(k, cs, j); }
    FallowCounted(k.c, k.initial, k.run, k.steps, k.Now(), j);
  }

  /** Blocks are sector numbers. */
  ghost predicate SectorSlots(s: seq<Slot>) { forall i {:trigger s[i]} :: 0 <= i < |s| ==> s[i].dbn < M.SECTORS }

  lemma SectorsOf(c: Config, was: seq<Slot>, s: seq<Slot>, n: nat, j: nat, start: nat, jhash: nat -> nat, x: X.Index)
    requires SectorSlots(was) && Swept(c.mode, was, s, start, n) && Indexed(c, s, j, start, jhash, x, None)
    ensures Sectors(x.dbn)
  {
    forall i: nat | i < |x.dbn| ensures x.dbn[i] < M.SECTORS { assert SameAt(x, s, start, i) && s[start + i].dbn == was[start + i].dbn; }
  }

  /** The part after the sweep. */
  method CleanNow(k: Cache, cs: CacheSet, rs: ReclaimSet, lru: bool, cursor: nat, due: bool, thresh: int, force: nat, lim: Limits, size: M.BlockSize, j: nat)
      returns (out: seq<M.Pair>, next: nat, ghost order: seq<nat>)
    requires InStep(k, cs, j, None) && Reclaims(cs, rs) && k.c.mode == Mode.WriteBack && j < k.c.sets && Sectors(cs.dbn[..]) && cursor < cs.bits.Length
    requires |k.slots[..]| == |k.c.setOf| && |k.setDirty| == |k.setCleaning| == k.c.sets
    modifies k, k.slots, cs.bits
    ensures InStep(k, cs, j, None) && Reclaims(cs, rs) && k.steps == old(k.steps) + Cleans(cs.start, out) && |out| <= cs.bits.Length
    ensures order == (if lru then rs.Model().warm + rs.Model().hot else Cyclic(cs.bits.Length, cursor)) && Within(order, cs.bits.Length)
    ensures var p := PassOf(k.c, old(k.Now()), j, due, thresh, Forced(lru, force), lim);
            next == (if lru then cursor else Around(cs.bits.Length, cursor, Tried(old(cs.bits[..]), order, p)))
            && Cleaned(old(k.Now()), k.Now(), old(cs.Model()), cs.start, j, ToSet(Selected(old(cs.bits[..]), order, p)), size, out)
  {
    var q := ReclaimOrder(cs, rs, lru, cursor);
    var scanned;
    order := q;
    out, scanned := CleanPass(k, cs, q, due, thresh, Forced(lru, force), lim, size, j);
    next := if lru then cursor else Around(cs.bits.Length, cursor, scanned);
  }

  /** What a pass from s to t is for. A miss forces cleaning under the threshold only. */
  ghost predicate Lawful(s: State, t: State, j: nat, start: nat, x: X.Index, order: seq<nat>, due: bool, thresh: int, force: nat, lim: Limits, out: seq<M.Pair>) {
    && (due ==> FallowCleaned(s, t, j, start, |x.bits|, lim))
    && j < |s.ctr.setDirty| && j < |s.ctr.setCleaning|
    && (force == 0 || s.ctr.setDirty[j] > Max(thresh, 0) ==> CleanedEnough(s, t, j, start, |x.bits|, thresh, lim))
    && (force > 0 && 0 < s.ctr.setDirty[j] <= thresh && Room(lim, s.ctr.setCleaning[j], s.ctr.cleaning) > 0 ==> CleanedForced(x, order, force, out))
  }

  lemma PassLawful(c: Config, s: State, t: State, j: nat, start: nat, jhash: nat -> nat, x: X.Index, order: seq<nat>, p: Pass, lim: Limits, size: M.BlockSize, out: seq<M.Pair>)
    requires Indexed(c, s.slots, j, start, jhash, x, None) && Tidy(x.bits) && Within(order, |x.bits|) && Links.Distinct(order) && Covers(order, |x.bits|)
    requires Cleaned(s, t, x, start, j, ToSet(Selected(x.bits, order, p)), size, out) && j < |s.ctr.setDirty|
    requires p.room == Room(lim, s.ctr.setCleaning[j], s.ctr.cleaning) && p.dirty == s.ctr.setDirty[j] && p.fallow == CountIn(s.slots, c.setOf, j, IsFallow)
    ensures Lawful(s, t, j, start, x, order, p.due, p.thresh, p.force, lim, out)
  {
    if p.due { PassFallow(c, s, t, j, start, jhash, x, order, p, lim, size, out); }
    if p.force == 0 || p.dirty > Max(p.thresh, 0) { PassEnough(c, s, t, j, start, jhash, x, order, p, lim, size, out); }
    if p.room > 0 && p.force > 0 && 0 < p.dirty <= p.thresh { PassForced(s, t, j, start, x, order, p, size, out); }
  }

  method CleanLawfully(k: Cache, cs: CacheSet, rs: ReclaimSet, lru: bool, cursor: nat, due: bool, thresh: int, force: nat, lim: Limits, size: M.BlockSize, j: nat)
      returns (out: seq<M.Pair>, next: nat, ghost order: seq<nat>)
    requires InStep(k, cs, j, None) && Reclaims(cs, rs) && k.c.mode == Mode.WriteBack && j < k.c.sets && Sectors(cs.dbn[..]) && cursor < cs.bits.Length
    requires |k.slots[..]| == |k.c.setOf| && |k.setDirty| == |k.setCleaning| == k.c.sets
    modifies k, k.slots, cs.bits
    ensures InStep(k, cs, j, None) && Reclaims(cs, rs) && k.steps == old(k.steps) + Cleans(cs.start, out) && |out| <= cs.bits.Length
    ensures order == (if lru then rs.Model().warm + rs.Model().hot else Cyclic(cs.bits.Length, cursor)) && Within(order, cs.bits.Length)
    ensures var p := PassOf(k.c, old(k.Now()), j, due, thresh, Forced(lru, force), lim);
            next == (if lru then cursor else Around(cs.bits.Length, cursor, Tried(old(cs.bits[..]), order, p)))
            && Cleaned(old(k.Now()), k.Now(), old(cs.Model()), cs.start, j, ToSet(Selected(old(cs.bits[..]), order, p)), size, out)
    ensures Lawful(old(k.Now()), k.Now(), j, cs.start, old(cs.Model()), order, due, thresh, Forced(lru, force), lim, out)
  {
    ghost var s, x := k.Now(), cs.Model();
    TidyReached(k.c, k.initial, k.run, k.steps, s, j, cs.start, cs.jhash, x);
    out, next, order := CleanNow(k, cs, rs, lru, cursor, due, thresh, force, lim, size, j);
    OrderCovers(rs.Model(), cs.bits.Length, lru, cursor);
    PassLawful(k.c, s, k.Now(), j, cs.start, cs.jhash, x, order, PassOf(k.c, s, j, due, thresh, Forced(lru, force), lim), lim, size, out);
  }

  /** s is a state the sweep has left, with the set's index x. */
  ghost predicate Aged(c: Config, was: State, s: State, j: nat, start: nat, jhash: nat -> nat, x: X.Index, sweep: bool) {
    && Swept(c.mode, was.slots, s.slots, start, if sweep then |x.bits| else 0) && Indexed(c, s.slots, j, start, jhash, x, None)
    && s.ctr.cleaning == was.ctr.cleaning && s.ctr.setCleaning == was.ctr.setCleaning && s.ctr.setDirty == was.ctr.setDirty
    && |s.slots| == |c.setOf| && |s.ctr.setDirty| == |s.ctr.setCleaning| == c.sets
  }

  /** flashcache_clean_set. A set that is due is swept for fallow blocks; then blocks are chosen,
      fallow ones first and the rest in reclaim order, as long as the limits on cleanings under
      way let it; and all blocks joined to them by an unbroken run of idle DIRTY blocks are
      written back with them, whatever the limits. */
  method CleanSet(k: Cache, cs: CacheSet, rs: ReclaimSet, lru: bool, cursor: nat, sweep: bool, due: bool, thresh: int, force: nat, lim: Limits,
                  size: M.BlockSize, j: nat) returns (out: seq<M.Pair>, next: nat, ghost s: State, ghost x: X.Index, ghost order: seq<nat>)
    requires InStep(k, cs, j, None) && Reclaims(cs, rs) && j < k.c.sets && SectorSlots(k.slots[..]) && cursor < cs.bits.Length
    modifies k, k.slots, cs, cs.bits, cs.dbn, cs.hashPrev, cs.hashNext, cs.buckets
    ensures InStep(k, cs, j, None) && Reclaims(cs, rs)
    ensures k.c.mode != Mode.WriteBack ==> k.Now() == old(k.Now()) && k.steps == old(k.steps) && out == [] && next == cursor
    ensures k.c.mode == Mode.WriteBack ==> k.steps == old(k.steps) + Marks(cs.start, if sweep then cs.bits.Length else 0) + Cleans(cs.start, out)
    ensures k.c.mode == Mode.WriteBack ==> Aged(k.c, old(k.Now()), s, j, cs.start, cs.jhash, x, sweep) && |x.bits| == cs.bits.Length && |out| <= cs.bits.Length
    ensures k.c.mode == Mode.WriteBack ==>
      order == (if lru then rs.Model().warm + rs.Model().hot else Cyclic(cs.bits.Length, cursor)) && Within(order, cs.bits.Length)
      && next == (if lru then cursor else Around(cs.bits.Length, cursor, Tried(x.bits, order, PassOf(k.c, s, j, due, thresh, Forced(lru, force), lim))))
      && Cleaned(s, k.Now(), x, cs.start, j, ToSet(Selected(x.bits, order, PassOf(k.c, s, j, due, thresh, Forced(lru, force), lim))), size, out)
    ensures k.c.mode == Mode.WriteBack ==> Lawful(s, k.Now(), j, cs.start, x, order, due, thresh, Forced(lru, force), lim, out)
  {
    s, x, order := k.Now(), cs.Model(), [];
    out, next := [], cursor;
    if k.c.mode != Mode.WriteBack { return; }
    ghost var was := k.slots[..];
    MaybeSweep(k, cs, sweep, j);
    s, x := k.Now(), cs.Model();
    SectorsOf(k.c, was, k.slots[..], if sweep then cs.bits.Length else 0, j, cs.start, cs.jhash, x);
    out, next, order := CleanLawfully(k, cs, rs, lru, cursor, due, thresh, force, lim, size, j);
  }

  // ----- flashcache_sync_blocks -----

  /** The block a walk that has just crossed into the set takes without asking for room. */
  function SyncFirst(bits: seq<Bits>, from: nat, entered: bool): seq<nat> {
    if entered && from < |bits| && M.IdleDirty(bits[from]) then [from] else []
  }

  function SyncFrom(n: nat, from: nat, entered: bool): nat { if entered && from < n then from + 1 else from }

  function SyncRest(n: nat, from: nat, entered: bool): (q: seq<nat>)
    requires from <= n
    ensures Within(q, n)
  {
    Upto(n)[SyncFrom(n, from, entered)..]
  }

  /** The blocks chosen in one set, from a place in it on: all that are idle and DIRTY, in the
      order of their slots, as long as there is room. */
  function SyncChosen(bits: seq<Bits>, from: nat, entered: bool, room: int): seq<nat>
    requires from <= |bits|
  {
    var a := SyncFirst(bits, from, entered);
    a + First(SyncRest(|bits|, from, entered), MarkedAt(bits, a), false, room - |a|)
  }

  /** ... and where the walk stops. */
  function SyncNext(bits: seq<Bits>, from: nat, entered: bool, room: int): (n: nat)
    requires from <= |bits|
    ensures from <= n <= |bits|
  {
    var a := SyncFirst(bits, from, entered);
    SyncFrom(|bits|, from, entered) + Looked(SyncRest(|bits|, from, entered), MarkedAt(bits, a), false, room - |a|)
  }

  method SyncPick(bits: array<Bits>, dbn: array<nat>, from: nat, entered: bool, room: int, ghost was: X.Index) returns (list: seq<M.Pair>, next: nat)
    requires dbn[..] == was.dbn && bits[..] == was.bits && |was.bits| == |was.dbn| && Tidy(was.bits) && from <= |was.bits|
    modifies bits
    ensures Picking(was, bits[..], list)
    ensures Indices(list) == SyncChosen(was.bits, from, entered, room) && next == SyncNext(was.bits, from, entered, room)
  {
    list := SyncHead(bits, dbn, from, entered, was);
    var order := SyncRest(bits.Length, from, entered);
    ApartFrom(bits.Length, from, entered);
    var scanned;
    list, scanned := PickInOrder(bits, dbn, list, order, room, room, 0, order, bits[..], was);
    next := SyncFrom(bits.Length, from, entered) + scanned;
  }

  method SyncHead(bits: array<Bits>, dbn: array<nat>, from: nat, entered: bool, ghost was: X.Index) returns (list: seq<M.Pair>)
    requires dbn[..] == was.dbn && bits[..] == was.bits && |was.bits| == |was.dbn| && Tidy(was.bits) && from <= |was.bits|
    modifies bits
    ensures Picking(was, bits[..], list) && Indices(list) == SyncFirst(was.bits, from, entered)
    ensures bits[..] == MarkedAt(was.bits, SyncFirst(was.bits, from, entered)) && |list| == |SyncFirst(was.bits, from, entered)|
  {
    Unmarked(was);
    list := [];
    if entered && from < bits.Length { list := TryBlock(bits, dbn, list, from, was); }
    SyncPicked(was, bits[..], list, from, entered);
  }

  lemma SyncPicked(was: X.Index, bits: seq<Bits>, list: seq<M.Pair>, from: nat, entered: bool)
    requires Picking(was, bits, list) && from <= |was.bits|
    requires Indices(list) == SyncFirst(was.bits, from, entered)
    ensures bits == MarkedAt(was.bits, SyncFirst(was.bits, from, entered)) && |list| == |SyncFirst(was.bits, from, entered)|
  {
  }

  lemma ApartFrom(n: nat, from: nat, entered: bool)
    requires from <= n
    ensures Links.Distinct(SyncRest(n, from, entered))
  {
  }

  /** The chosen blocks are among those gathered, so those are no fewer. */
  lemma NoFewer(x: X.Index, list: seq<M.Pair>, out: seq<M.Pair>, size: M.BlockSize)
    requires M.ListOk(x, list) && M.ListOk(x, out)
    requires forall i: nat {:trigger M.Joined(x, size, M.Slots(list), i)} :: i in Indices(out) <==> M.Joined(x, size, M.Slots(list), i)
    ensures |list| <= |out| && forall i :: i in Indices(list) ==> i in Indices(out)
  {
    forall i: nat | i in Indices(list) ensures i in Indices(out) {
      SlotsAre(list, i);
      M.SlotsOf(list, i);
      M.JoinedChosen(x, size, M.Slots(list), i);
    }
    Distinctly(x, list);
    Distinctly(x, out);
    Fewer(ToSet(Indices(list)), ToSet(Indices(out)));
  }

  /** What has been gathered: the blocks chosen and all that are joined to them. */
  ghost predicate Gathered(x: X.Index, q: seq<nat>, size: M.BlockSize, out: seq<M.Pair>) {
    && M.ListOk(x, out) && |q| <= |out| && (forall i :: i in q ==> i in Indices(out))
    && (forall k {:trigger out[k]} :: 0 <= k < |out| ==> M.IdleDirty(x.bits[out[k].index]))
    && forall i: nat {:trigger M.Joined(x, size, ToSet(q), i)} :: i in Indices(out) <==> M.Joined(x, size, ToSet(q), i)
  }

  method GatherFrom(cs: CacheSet, from: nat, entered: bool, room: int, size: M.BlockSize, ghost x: X.Index, ghost mine: nat -> bool)
      returns (out: seq<M.Pair>, next: nat, taken: nat)
    requires cs.Valid() && x == cs.Model() && M.Sound(cs.jhash, mine, x, None) && Tidy(x.bits) && from <= |x.bits|
    modifies cs.bits
    ensures cs.Valid() && M.Sound(cs.jhash, mine, cs.Model(), None) && Picking(x, cs.bits[..], out) && cs.Model() == x.(bits := cs.bits[..])
    ensures next == SyncNext(x.bits, from, entered, room) && taken == |SyncChosen(x.bits, from, entered, room)|
    ensures Gathered(x, SyncChosen(x.bits, from, entered, room), size, out)
  {
    var list;
    list, next := SyncPick(cs.bits, cs.dbn, from, entered, room, x);
    taken := |list|;
    SlotsAll(list);
    out := Merge(cs, list, size, x, mine);
    NoFewer(x, list, out, size);
  }

  /** What one set sees of flashcache_sync_blocks: from a place in it on, or from its first block
      when the walk has just crossed into it. `room` is what the limit leaves when it gets there;
      `go` says whether some was left before the merging, when the walk decides about crossing
      into the next set. */
  method SyncSet(k: Cache, cs: CacheSet, from: nat, entered: bool, room: int, size: M.BlockSize, ghost x: X.Index, ghost j: nat)
      returns (out: seq<M.Pair>, next: nat, go: bool)
    requires InStep(k, cs, j, None) && k.c.mode == Mode.WriteBack && j < |k.setCleaning| && x == cs.Model() && Sectors(x.dbn) && from <= |x.bits|
    modifies k, k.slots, cs.bits
    ensures InStep(k, cs, j, None) && k.steps == old(k.steps) + Cleans(cs.start, out)
    ensures next == SyncNext(x.bits, from, entered, room)
    ensures go == (|SyncChosen(x.bits, from, entered, room)| < room)
    ensures Gathered(x, SyncChosen(x.bits, from, entered, room), size, out)
    ensures StartedAll(old(k.slots[..]), k.slots[..], cs.start, Indices(out))
    ensures k.cleaning == old(k.cleaning) + |out| && k.setCleaning == BumpAt(old(k.setCleaning), j, |out|)
  {
    TidyReached(k.c, k.initial, k.run, k.steps, k.Now(), j, cs.start, cs.jhash, x);
    var taken;
    out, next, taken := GatherFrom(cs, from, entered, room, size, x, Mine(k.c, j));
    WriteOut(k, cs, out, x, j);
    go := taken < room;
  }

  /** All wanted blocks that are looked at are picked, and if not all are looked at there is no room left. */
  lemma {:induction false} LookedPicked(q: seq<nat>, bits: seq<Bits>, fallow: bool, room: int, m: nat)
    requires Within(q, |bits|)
    ensures m < Looked(q, bits, fallow, room) && Wanted(bits[q[m]], fallow) ==> q[m] in First(q, bits, fallow, room)
    ensures Looked(q, bits, fallow, room) < |q| ==> |First(q, bits, fallow, room)| >= room
  {
    if q != [] && room > 0 {
      LookedPicked(q[1..], bits, fallow, if Wanted(bits[q[0]], fallow) then room - 1 else room, if m > 0 then m - 1 else 0);
      assert m > 0 && m < |q| ==> q[m] == q[1..][m - 1];
    }
  }

  /** What the walk passes in a set it chooses, if idle and DIRTY; it stops early only for want of room. */
  lemma SyncPasses(bits: seq<Bits>, from: nat, entered: bool, room: int, i: nat)
    requires from <= |bits|
    ensures from <= i < SyncNext(bits, from, entered, room) && M.IdleDirty(bits[i]) ==> i in SyncChosen(bits, from, entered, room)
    ensures SyncNext(bits, from, entered, room) < |bits| ==> |SyncChosen(bits, from, entered, room)| >= room
  {
    var a, f := SyncFirst(bits, from, entered), SyncFrom(|bits|, from, entered);
    var q := SyncRest(|bits|, from, entered);
    LookedPicked(q, MarkedAt(bits, a), false, room - |a|, if i >= f then i - f else 0);
    if f <= i < SyncNext(bits, from, entered, room) { assert q[i - f] == i && MarkedAt(bits, a)[i] == bits[i]; }
  }

  /** From was to now only idle DIRTY slots have been started, among them all from lo up to hi. */
  ghost predicate Passed(was: seq<Slot>, now: seq<Slot>, lo: nat, hi: nat) {
    |was| == |now| && forall i {:trigger now[i]} :: 0 <= i < |was| ==>
      (now[i] == was[i] || (now[i] == Started(was[i]) && M.IdleDirty(was[i].bits))) && (lo <= i < hi && M.IdleDirty(was[i].bits) ==> now[i] == Started(was[i]))
  }

  lemma PassedMore(was: seq<Slot>, mid: seq<Slot>, now: seq<Slot>, lo: nat, hi: nat, hi': nat, start: nat, q: seq<nat>)
    requires Passed(was, mid, lo, hi) && StartedAll(mid, now, start, q) && hi <= hi'
    requires forall i: nat {:trigger mid[i]} :: i < |mid| && i - start in q ==> M.IdleDirty(mid[i].bits)
    requires forall i: nat {:trigger mid[i]} :: hi <= i < hi' && i < |mid| && M.IdleDirty(mid[i].bits) ==> i - start in q
    ensures Passed(was, now, lo, hi')
  {
    forall i | 0 <= i < |was|
      ensures (now[i] == was[i] || (now[i] == Started(was[i]) && M.IdleDirty(was[i].bits))) && (lo <= i < hi' && M.IdleDirty(was[i].bits) ==> now[i] == Started(was[i]))
    {
      assert mid[i] == mid[i];
    }
  }

  /** The other sets are not concerned. */
  lemma OtherSet(c: Config, s: seq<Slot>, t: seq<Slot>, j: nat, start: nat, jhash: nat -> nat, x: X.Index, out: seq<M.Pair>,
                 r: nat, start': nat, jhash': nat -> nat, y: X.Index)
    requires Indexed(c, s, j, start, jhash, x, None) && M.ListOk(x, out) && StartedAll(s, t, start, Indices(out))
    requires Indexed(c, s, r, start', jhash', y, None) && r != j
    ensures Indexed(c, t, r, start', jhash', y, None)
  {
    assert forall k {:trigger out[k]} :: 0 <= k < |out| ==> c.setOf[start + out[k].index] == j;
    forall i: nat | i < |y.bits| ensures SameAt(y, t, start', i) {
      assert SameAt(y, s, start', i) && c.setOf[start' + i] == r;
    }
  }

  lemma SectorsStill(c: Config, was: seq<Slot>, s: seq<Slot>, lo: nat, hi: nat, j: nat, start: nat, jhash: nat -> nat, x: X.Index)
    requires SectorSlots(was) && Passed(was, s, lo, hi) && Indexed(c, s, j, start, jhash, x, None)
    ensures Sectors(x.dbn)
  {
    forall i: nat | i < |x.dbn| ensures x.dbn[i] < M.SECTORS { assert SameAt(x, s, start, i) && s[start + i].dbn == was[start + i].dbn; }
  }

  lemma GatheredIdle(s: seq<Slot>, start: nat, x: X.Index, q: seq<nat>, size: M.BlockSize, out: seq<M.Pair>, i: nat)
    requires Mirrors(x, s, start) && Gathered(x, q, size, out) && i < |s| && i - start in Indices(out)
    ensures M.IdleDirty(s[i].bits)
  {
    var k :| 0 <= k < |out| && out[k].index == i - start;
    assert SameAt(x, s, start, out[k].index);
  }

  lemma GatheredAll(s: seq<Slot>, start: nat, x: X.Index, from: nat, entered: bool, room: int, size: M.BlockSize, out: seq<M.Pair>, i: nat)
    requires Mirrors(x, s, start) && from <= |x.bits| && Gathered(x, SyncChosen(x.bits, from, entered, room), size, out)
    requires start + from <= i < start + SyncNext(x.bits, from, entered, room) && i < |s| && M.IdleDirty(s[i].bits)
    ensures i - start in Indices(out)
  {
    var r: nat := i - start;
    SyncPasses(x.bits, from, entered, room, r);
    assert r < |x.bits| && SameAt(x, s, start, r);
    assert r in SyncChosen(x.bits, from, entered, room);
  }

  lemma PassedOn(was: seq<Slot>, s: seq<Slot>, t: seq<Slot>, lo: nat, from: nat, next: nat, start: nat, x: X.Index,
                 out: seq<M.Pair>, entered: bool, room: int, size: M.BlockSize)
    requires Mirrors(x, s, start) && Passed(was, s, lo, start + from) && from <= |x.bits| && next == SyncNext(x.bits, from, entered, room)
    requires Gathered(x, SyncChosen(x.bits, from, entered, room), size, out) && StartedAll(s, t, start, Indices(out))
    ensures Passed(was, t, lo, start + next) && M.ListOk(x, out) && from <= next <= |x.bits|
    ensures next < |x.bits| || |SyncChosen(x.bits, from, entered, room)| >= room ==> |out| >= room
  {
    SyncPasses(x.bits, from, entered, room, 0);
    forall i: nat | i < |s| && i - start in Indices(out) ensures M.IdleDirty(s[i].bits) {
      GatheredIdle(s, start, x, SyncChosen(x.bits, from, entered, room), size, out, i);
    }
    forall i: nat | start + from <= i < start + next && i < |s| && M.IdleDirty(s[i].bits) ensures i - start in Indices(out) {
      GatheredAll(s, start, x, from, entered, room, size, out, i);
    }
    PassedMore(was, s, t, lo, start + from, start + next, start, Indices(out));
  }

  /** The walk within one set ... */
  method SyncHere(k: Cache, cs: CacheSet, from: nat, entered: bool, room: int, size: M.BlockSize, ghost was: seq<Slot>, ghost lo: nat, ghost x: X.Index, ghost j: nat)
      returns (next: nat, go: bool, ghost out: seq<M.Pair>)
    requires InStep(k, cs, j, None) && x == cs.Model() && from <= |x.bits| && k.c.mode == Mode.WriteBack && j < |k.setCleaning|
    requires SectorSlots(was) && Passed(was, k.slots[..], lo, cs.start + from)
    modifies k, k.slots, cs.bits
    ensures InStep(k, cs, j, None) && M.ListOk(x, out) && StartedAll(old(k.slots[..]), k.slots[..], cs.start, Indices(out))
    ensures from <= next <= |x.bits| && Passed(was, k.slots[..], lo, cs.start + next) && |k.setCleaning| == |old(k.setCleaning)|
    ensures next < |x.bits| || !go ==> k.cleaning >= old(k.cleaning) + room
  {
    ghost var s := k.slots[..];
    SectorsStill(k.c, was, s, lo, cs.start + from, j, cs.start, cs.jhash, x);
    var list;
    list, next, go := SyncSet(k, cs, from, entered, room, size, x, j);
    out := list;
    PassedOn(was, s, k.slots[..], lo, from, next, cs.start, x, out, entered, room, size);
  }

  predicate Apart(sets: seq<CacheSet>, q: nat, r: nat)
    requires q < |sets| && r < |sets|
  {
    sets[q].bits != sets[r].bits
  }

  /** The sets of a cache, one behind the other, none empty. */
  ghost predicate Lined(sets: seq<CacheSet>) {
    && (forall r: nat {:trigger sets[r]} :: r < |sets| ==> sets[r].bits.Length > 0)
    && (forall r: nat {:trigger Next(sets, r)} :: r + 1 < |sets| ==> Next(sets, r))
    && (forall q: nat, r: nat {:trigger Apart(sets, q, r)} :: q < |sets| && r < |sets| && q != r ==> Apart(sets, q, r))
  }

  predicate Next(sets: seq<CacheSet>, r: nat)
    requires r + 1 < |sets|
  {
    sets[r].start + sets[r].bits.Length == sets[r + 1].start
  }

  /** ... while all others stay in step. */
  method SyncTurn(k: Cache, sets: seq<CacheSet>, q: nat, from: nat, entered: bool, total: int, size: M.BlockSize, ghost was: seq<Slot>, ghost lo: nat)
      returns (next: nat, go: bool)
    requires q < |sets| && forall r: nat {:trigger sets[r]} :: r < |sets| ==> InStep(k, sets[r], r, None)
    requires Lined(sets)
    requires from <= sets[q].bits.Length && k.c.mode == Mode.WriteBack && q < |k.setCleaning|
    requires SectorSlots(was) && Passed(was, k.slots[..], lo, sets[q].start + from)
    modifies k, k.slots, sets[q].bits
    ensures forall r: nat {:trigger sets[r]} :: r < |sets| ==> InStep(k, sets[r], r, None)
    ensures from <= next <= sets[q].bits.Length && Passed(was, k.slots[..], lo, sets[q].start + next) && |k.setCleaning| == |old(k.setCleaning)|
    ensures next < sets[q].bits.Length || !go ==> k.cleaning >= total
  {
    ghost var s, x, out := k.slots[..], sets[q].Model(), [];
    next, go, out := SyncHere(k, sets[q], from, entered, total - k.cleaning, size, was, lo, x, q);
    forall r: nat | r < |sets| ensures InStep(k, sets[r], r, None) {
      if r != q {
        assert Apart(sets, q, r);
        OtherSet(k.c, s, k.slots[..], q, sets[q].start, sets[q].jhash, x, out, r, sets[r].start, sets[r].jhash, sets[r].Model());
      }
    }
  }

  /** Only write-back caches have DIRTY blocks. */
  lemma DirtyIsWriteBack(c: Config, disk: map<nat, Data>, run: seq<State>, steps: seq<Step>, s: State)
    requires Reaches(c, disk, run, steps, s) && s.ctr.dirty != 0
    ensures c.mode == Mode.WriteBack && |s.ctr.setCleaning| == c.sets
  {
    ReachesShaped(c, disk, run, steps, s);
    ReachableGood(c, disk, s);
    Accounting.CountersTrue(c, disk, s);
    if c.mode != Mode.WriteBack {
      forall i | 0 <= i < |s.slots| ensures !IsDirty(s.slots[i]) { assert SlotOk(c, i, s.slots[i]); }
      Accounting.CountNone(s.slots, c.setOf, 0, IsDirty);
    }
  }

  /** One set, and whether the walk is over with it. */
  method SyncSetOf(k: Cache, sets: seq<CacheSet>, q: nat, from: nat, entered: bool, total: int, size: M.BlockSize, ghost was: seq<Slot>, ghost lo: nat)
      returns (next: nat, over: bool)
    requires q < |sets| && forall r: nat {:trigger sets[r]} :: r < |sets| ==> InStep(k, sets[r], r, None)
    requires Lined(sets) && from <= sets[q].bits.Length && k.c.mode == Mode.WriteBack && |k.setCleaning| == |sets|
    requires SectorSlots(was) && Passed(was, k.slots[..], lo, sets[q].start + from)
    modifies k, k.slots, sets[q].bits
    ensures forall r: nat {:trigger sets[r]} :: r < |sets| ==> InStep(k, sets[r], r, None)
    ensures next <= sets[q].bits.Length && Passed(was, k.slots[..], lo, sets[q].start + next) && |k.setCleaning| == |sets|
    ensures over ==> k.cleaning >= total || (q + 1 == |sets| && next == sets[q].bits.Length)
    ensures !over ==> q + 1 < |sets| && Passed(was, k.slots[..], lo, sets[q + 1].start)
  {
    var go;
    next, go := SyncTurn(k, sets, q, from, entered, total, size, was, lo);
    over := next < sets[q].bits.Length || !go || q + 1 == |sets|;
    if !over { assert Next(sets, q); }
  }

  /** The walk from a place in a set on. */
  method SyncWalk(k: Cache, sets: seq<CacheSet>, place: nat, from: nat, total: int, size: M.BlockSize) returns (q: nat, next: nat)
    requires Lined(sets) && |sets| == |k.setCleaning| && SectorSlots(k.slots[..]) && k.c.mode == Mode.WriteBack
    requires forall r: nat {:trigger sets[r]} :: r < |sets| ==> InStep(k, sets[r], r, None)
    requires place < |sets| && from < sets[place].bits.Length
    modifies k, k.slots, set r: nat | r < |sets| :: sets[r].bits
    ensures forall r: nat {:trigger sets[r]} :: r < |sets| ==> InStep(k, sets[r], r, None)
    ensures q < |sets| && next <= sets[q].bits.Length
    ensures Passed(old(k.slots[..]), k.slots[..], sets[place].start + from, sets[q].start + next)
    ensures k.cleaning >= total || (q == |sets| - 1 && next == sets[q].bits.Length)
  {
    ghost var was, lo := k.slots[..], sets[place].start + from;
    var first: nat, entered := from, false;
    q := place;
    while true
      invariant q < |sets| && first <= sets[q].bits.Length && |k.setCleaning| == |sets|
      invariant forall r: nat {:trigger sets[r]} :: r < |sets| ==> InStep(k, sets[r], r, None)
      invariant Passed(was, k.slots[..], lo, sets[q].start + first)
      decreases |sets| - q
    {
      var over;
      next, over := SyncSetOf(k, sets, q, first, entered, total, size, was, lo);
      if over { return; }
      q, first, entered := q + 1, 0, true;
    }
  }

  /** flashcache_sync_blocks, as far as the limit lets it: every idle DIRTY block it passes is
      being written back when it is done, and others are only if they were merged with such
      ones. It stops at the end of the cache or with the limit reached. */
  method SyncBlocks(k: Cache, sets: seq<CacheSet>, place: nat, from: nat, total: int, size: M.BlockSize) returns (q: nat, next: nat)
    requires Lined(sets) && |sets| == k.c.sets && SectorSlots(k.slots[..]) && k.Valid()
    requires forall r: nat {:trigger sets[r]} :: r < |sets| ==> InStep(k, sets[r], r, None)
    requires place < |sets| && from < sets[place].bits.Length
    modifies k, k.slots, set r: nat | r < |sets| :: sets[r].bits
    ensures forall r: nat {:trigger sets[r]} :: r < |sets| ==> InStep(k, sets[r], r, None)
    ensures q < |sets| && next <= sets[q].bits.Length
    ensures Passed(old(k.slots[..]), k.slots[..], sets[place].start + from, sets[q].start + next)
    ensures old(k.dirty) == 0 ==> k.Now() == old(k.Now()) && q == place && next == from
    ensures old(k.dirty) != 0 ==> k.cleaning >= total || (q == |sets| - 1 && next == sets[q].bits.Length)
  {
    q, next := place, from;
    if k.dirty == 0 { return; }
    DirtyIsWriteBack(k.c, k.initial, k.run, k.steps, k.Now());
    q, next := SyncWalk(k, sets, place, from, total, size);
  }
}
