/** Background cleaning of one cache set: which blocks are chosen, which the merging of writes
    adds to them, and what that does to the limits on cleanings under way. */
module SetCleaning {
  import opened Types
  import opened Protocol
  import opened Invariant
  import opened Steps
  import opened SlotIndex
  import opened SetView
  import opened Driver
  import opened HashIndex
  import opened LruLists
  import opened SetDriver
  import opened Theorems
  import X = IndexSpec
  import L = LruSpec
  import M = MergeWrites
  import Links

  function Min(a: int, b: int): int { if a < b then a else b }
  function Max(a: int, b: int): int { if a < b then b else a }

  /** max_clean_ios_set and max_clean_ios_total */
  datatype Limits = Limits(perSet: int, total: int)

  /** How many more cleanings flashcache_can_clean lets through. */
  function Room(lim: Limits, inSet: int, overall: int): int { Min(lim.perSet - inSet, lim.total - overall) }

  // ----- which blocks are chosen -----

  /** A block a pass is after: a fallow one, or any that is DIRTY and idle. */
  predicate Wanted(b: Bits, fallow: bool) { if fallow then b.fallow2 else M.IdleDirty(b) }

  predicate Within(q: seq<nat>, n: nat) { forall k {:trigger q[k]} :: 0 <= k < |q| ==> q[k] < n }

  /** The first `room` blocks in the order q that are wanted. */
  function First(q: seq<nat>, bits: seq<Bits>, fallow: bool, room: int): seq<nat>
    requires Within(q, |bits|)
  {
    if q == [] || room <= 0 then []
    else if Wanted(bits[q[0]], fallow) then [q[0]] + First(q[1..], bits, fallow, room - 1)
    else First(q[1..], bits, fallow, room)
  }

  /** They are wanted blocks of q in its order; if there is room left, all of them. */
  lemma {:induction false} FirstExact(q: seq<nat>, bits: seq<Bits>, fallow: bool, room: int, i: nat)
    requires Within(q, |bits|) && i < |bits|
    ensures i in First(q, bits, fallow, room) ==> i in q && Wanted(bits[i], fallow)
    ensures |First(q, bits, fallow, room)| < room && i in q && Wanted(bits[i], fallow) ==> i in First(q, bits, fallow, room)
    ensures |First(q, bits, fallow, room)| <= Max(room, 0)
  {
    if q != [] && room > 0 {
      assert q == [q[0]] + q[1..];
      FirstExact(q[1..], bits, fallow, if Wanted(bits[q[0]], fallow) then room - 1 else room, i);
    }
  }

  /** How many blocks are looked at for that. */
  function Looked(q: seq<nat>, bits: seq<Bits>, fallow: bool, room: int): (n: nat)
    requires Within(q, |bits|)
    ensures n <= |q|
  {
    if q == [] || room <= 0 then 0 else 1 + Looked(q[1..], bits, fallow, if Wanted(bits[q[0]], fallow) then room - 1 else room)
  }

  function Upto(n: nat): seq<nat> { seq(n, i => i) }

  /** The blocks of a list that are looked at: all, or the first `scan`. */
  function Ahead(q: seq<nat>, scan: nat): seq<nat> { if 0 < scan <= |q| then q[..scan] else q }

  /** How many blocks a pass wants in the end: enough to come under the threshold of DIRTY
      blocks, or on a miss that finds nothing else to clean as many as it asks for. */
  function Want(dirty: int, thresh: int, force: nat, have: nat): int {
    if force == 0 || (dirty > 0 && dirty > thresh) then dirty - thresh
    else if dirty > 0 && have == 0 then force
    else 0
  }

  /** Only the tail of the list is looked at when a miss forces a cleaning. */
  function Scan(dirty: int, thresh: int, force: nat): nat { if dirty > 0 && dirty > thresh then 0 else force }

  /** What a pass is given: whether fallow blocks are due, the counters, and what is asked for. */
  datatype Pass = Pass(due: bool, fallow: int, dirty: int, thresh: int, force: nat, room: int)

  function MarkedAt(bits: seq<Bits>, q: seq<nat>): seq<Bits> {
    seq(|bits|, i requires 0 <= i < |bits| => if i in q then M.Marked(bits[i]) else bits[i])
  }

  function FallowFirst(bits: seq<Bits>, p: Pass): seq<nat> {
    if p.due then First(Upto(|bits|), bits, true, Min(p.room, p.fallow)) else []
  }

  /** Fallow blocks are left because the limits were reached. */
  predicate Stuck(bits: seq<Bits>, p: Pass) { p.due && |First(Upto(|bits|), bits, true, p.fallow)| > Max(p.room, 0) }

  /** How many blocks are still to be had once the fallow ones are chosen. */
  function More(bits: seq<Bits>, p: Pass): int {
    var n := |FallowFirst(bits, p)|;
    if Stuck(bits, p) then 0 else Min(p.room, Want(p.dirty, p.thresh, p.force, n)) - n
  }

  /** The blocks chosen: fallow ones first, then in reclaim order DIRTY idle ones. */
  function Selected(bits: seq<Bits>, order: seq<nat>, p: Pass): seq<nat>
    requires Within(order, |bits|)
  {
    var a := FallowFirst(bits, p);
    a + First(Ahead(order, Scan(p.dirty, p.thresh, p.force)), MarkedAt(bits, a), false, More(bits, p))
  }

  /** How many blocks of the reclaim order are looked at. */
  function Tried(bits: seq<Bits>, order: seq<nat>, p: Pass): (n: nat)
    requires Within(order, |bits|)
    ensures n <= |order|
  {
    Looked(Ahead(order, Scan(p.dirty, p.thresh, p.force)), MarkedAt(bits, FallowFirst(bits, p)), false, More(bits, p))
  }

  /** DIRTY blocks are VALID, and fallow ones DIRTY and idle. */
  ghost predicate Tidy(bits: seq<Bits>) {
    forall i {:trigger bits[i]} :: 0 <= i < |bits| ==> (bits[i].dirty ==> bits[i].valid) && (bits[i].fallow2 ==> M.IdleDirty(bits[i]))
  }

  /** What is chosen is idle and DIRTY, and the cleanings under way with it are within the limits
      unless they were beyond them before. */
  lemma SelectedFits(bits: seq<Bits>, order: seq<nat>, p: Pass, i: nat)
    requires Within(order, |bits|) && i < |bits| && Tidy(bits)
    ensures i in Selected(bits, order, p) ==> M.IdleDirty(bits[i])
    ensures |Selected(bits, order, p)| <= Max(p.room, 0)
  {
    var a := FallowFirst(bits, p);
    var q := Ahead(order, Scan(p.dirty, p.thresh, p.force));
    if p.due { FirstExact(Upto(|bits|), bits, true, Min(p.room, p.fallow), i); }
    FirstExact(q, MarkedAt(bits, a), false, More(bits, p), i);
  }

  // ----- how many are chosen, and which -----

  predicate AllFallow(bits: seq<Bits>, q: seq<nat>) { forall k {:trigger q[k]} :: 0 <= k < |q| ==> q[k] < |bits| && bits[q[k]].fallow2 }

  function Fallows(bits: seq<Bits>, q: seq<nat>): nat {
    if q == [] then 0 else Fallows(bits, q[..|q| - 1]) + if q[|q| - 1] < |bits| && bits[q[|q| - 1]].fallow2 then 1 else 0
  }

  /** What a pass that is not to be forced is for: no room is left, or the DIRTY blocks still to be
      cleaned are within the threshold, or none that is idle is left out. */
  ghost predicate Enough(bits: seq<Bits>, order: seq<nat>, dirty: int, thresh: int, room: int, chosen: seq<nat>) {
    || |chosen| >= room || dirty - |chosen| <= thresh
    || forall i: nat {:trigger i in order} :: i in order && i < |bits| && M.IdleDirty(bits[i]) ==> i in chosen
  }

  /** ... and it does no more than that, but for fallow blocks. */
  predicate NoMore(bits: seq<Bits>, dirty: int, thresh: int, chosen: seq<nat>) { |chosen| <= Max(dirty - thresh, 0) || AllFallow(bits, chosen) }

  /** What a forced pass under the threshold is for: as many blocks as asked for or as there is room
      for, or all idle DIRTY ones among the first of the order; and no others. */
  ghost predicate ForcedEnough(bits: seq<Bits>, order: seq<nat>, force: nat, room: int, chosen: seq<nat>) {
    && |chosen| <= force && (forall i {:trigger i in chosen} :: i in chosen ==> i in order[..Min(force, |order|)])
    && (|chosen| >= force || |chosen| >= room
        || forall k {:trigger order[k]} :: 0 <= k < |order| && k < force && order[k] < |bits| && M.IdleDirty(bits[order[k]]) ==> order[k] in chosen)
  }

  /** Beyond the fallow ones the blocks chosen are the first in reclaim order. */
  ghost predicate OldestFirst(bits: seq<Bits>, order: seq<nat>, chosen: seq<nat>) {
    forall u: nat, v: nat {:trigger order[u], order[v]} ::
      u < v < |order| && order[u] < |bits| && order[v] < |bits| && order[v] in chosen && !bits[order[v]].fallow2 && M.IdleDirty(bits[order[u]])
      ==> order[u] in chosen
  }

  /** When fallow blocks are due, one is left out only if the others chosen are all fallow, or as
      many fallow ones have been chosen as there are said to be. */
  ghost predicate FallowsFirst(bits: seq<Bits>, fallow: int, chosen: seq<nat>) {
    forall i: nat {:trigger bits[i]} :: i < |bits| && bits[i].fallow2 && i !in chosen ==> AllFallow(bits, chosen) || Fallows(bits, chosen) >= fallow
  }

  lemma FirstFallows(q: seq<nat>, bits: seq<Bits>, room: int)
    requires Within(q, |bits|)
    ensures AllFallow(bits, First(q, bits, true, room))
  {
    var f := First(q, bits, true, room);
    forall k | 0 <= k < |f| ensures f[k] < |bits| && bits[f[k]].fallow2 {
      FirstThere(q, bits, true, room, f[k]);
      FirstExact(q, bits, true, room, f[k]);
    }
  }

  lemma {:induction false} FallowsCounted(bits: seq<Bits>, a: seq<nat>, b: seq<nat>)
    requires AllFallow(bits, a)
    ensures Fallows(bits, a + b) >= |a|
  {
    var q := a + b;
    if b != [] {
      assert q[..|q| - 1] == a + b[..|b| - 1];
      FallowsCounted(bits, a, b[..|b| - 1]);
    } else if a != [] {
      assert q[..|q| - 1] == a[..|a| - 1] + [] && q[|q| - 1] == a[|a| - 1];
      FallowsCounted(bits, a[..|a| - 1], []);
    }
  }

  /** The laws of a pass that is not forced, or over its threshold. */
  lemma ThresholdLaw(bits: seq<Bits>, order: seq<nat>, p: Pass)
    requires Within(order, |bits|) && Tidy(bits) && (p.force == 0 || p.dirty > Max(p.thresh, 0))
    ensures Enough(bits, order, p.dirty, p.thresh, p.room, Selected(bits, order, p))
    ensures NoMore(bits, p.dirty, p.thresh, Selected(bits, order, p))
  {
    var a, chosen := FallowFirst(bits, p), Selected(bits, order, p);
    var mid := MarkedAt(bits, a);
    var b := First(order, mid, false, More(bits, p));
    assert chosen == a + b;
    if p.due { FirstFallows(Upto(|bits|), bits, Min(p.room, p.fallow)); }
    if Stuck(bits, p) {
      StuckFull(bits, p);
      assert b == [] && chosen == a;
    } else {
      forall i: nat | i in order && i < |bits| && M.IdleDirty(bits[i]) && |b| < More(bits, p) ensures i in chosen {
        FirstExact(order, mid, false, More(bits, p), i);
      }
      FirstCount(order, mid, More(bits, p));
      if b == [] { assert chosen == a; }
    }
  }

  lemma StuckFull(bits: seq<Bits>, p: Pass)
    requires Stuck(bits, p)
    ensures |FallowFirst(bits, p)| >= p.room
  {
    FirstGrows(Upto(|bits|), bits, true, p.room, p.fallow);
  }

  lemma FirstCount(q: seq<nat>, bits: seq<Bits>, room: int)
    requires Within(q, |bits|)
    ensures |First(q, bits, false, room)| <= Max(room, 0)
  {
    if q != [] && room > 0 { FirstExact(q, bits, false, room, q[0]); }
  }

  /** With less room fewer are chosen only if the room is used up. */
  lemma {:induction false} FirstGrows(q: seq<nat>, bits: seq<Bits>, fallow: bool, room: int, more: int)
    requires Within(q, |bits|) && |First(q, bits, fallow, more)| > Max(room, 0)
    ensures |First(q, bits, fallow, Min(room, more))| >= room
  {
    if q != [] && room > 0 && more > 0 {
      if Wanted(bits[q[0]], fallow) { FirstGrows(q[1..], bits, fallow, room - 1, more - 1); } else { FirstGrows(q[1..], bits, fallow, room, more); }
    }
  }

  /** ... and of one that is forced under it, with nothing fallow. */
  lemma ForcedLaw(bits: seq<Bits>, order: seq<nat>, p: Pass)
    requires Within(order, |bits|) && Tidy(bits) && p.force > 0 && 0 < p.dirty <= p.thresh
    requires forall i {:trigger bits[i]} :: 0 <= i < |bits| ==> !bits[i].fallow2
    ensures ForcedEnough(bits, order, p.force, p.room, Selected(bits, order, p))
  {
    NoneFallow(bits, p);
    var q := Ahead(order, p.force);
    assert q == order[..Min(p.force, |order|)] && MarkedAt(bits, []) == bits;
    var b := First(q, bits, false, Min(p.room, p.force));
    assert Selected(bits, order, p) == b;
    FirstCount(q, bits, Min(p.room, p.force));
    forall i | i in b ensures i in q {
      FirstThere(q, bits, false, Min(p.room, p.force), i);
      FirstExact(q, bits, false, Min(p.room, p.force), i);
    }
    forall k | 0 <= k < |order| && k < p.force && M.IdleDirty(bits[order[k]]) && |b| < Min(p.room, p.force) ensures order[k] in b {
      assert q[k] == order[k];
      FirstExact(q, bits, false, Min(p.room, p.force), order[k]);
    }
  }

  /** The blocks looked at reach exactly as far as the last one chosen, or to the end of what is to be
      looked at if that was not enough. */
  ghost predicate ReachesLast(bits: seq<Bits>, order: seq<nat>, scan: nat, chosen: seq<nat>, tried: nat) {
    && tried <= |order|
    && (forall i: nat {:trigger i in chosen} :: i in chosen && i < |bits| ==> bits[i].fallow2 || i in order[..tried])
    && (0 < tried < |Ahead(order, scan)| ==> order[tried - 1] in chosen)
  }

  lemma {:induction false} LookedLast(q: seq<nat>, bits: seq<Bits>, fallow: bool, room: int)
    requires Within(q, |bits|)
    ensures forall i: nat {:trigger i in First(q, bits, fallow, room)} :: i in First(q, bits, fallow, room) ==> i in q[..Looked(q, bits, fallow, room)]
    ensures 0 < Looked(q, bits, fallow, room) < |q| ==> q[Looked(q, bits, fallow, room) - 1] in First(q, bits, fallow, room)
  {
    if q != [] && room > 0 {
      var r := if Wanted(bits[q[0]], fallow) then room - 1 else room;
      var n := Looked(q[1..], bits, fallow, r);
      LookedLast(q[1..], bits, fallow, r);
      assert q[..n + 1] == [q[0]] + q[1..][..n];
      forall i: nat | i in First(q, bits, fallow, room) ensures i in q[..n + 1] { assert i == q[0] || i in q[1..][..n]; }
    }
  }

  lemma TriedLaw(bits: seq<Bits>, order: seq<nat>, p: Pass)
    requires Within(order, |bits|)
    ensures ReachesLast(bits, order, Scan(p.dirty, p.thresh, p.force), Selected(bits, order, p), Tried(bits, order, p))
  {
    var a := FallowFirst(bits, p);
    var q := Ahead(order, Scan(p.dirty, p.thresh, p.force));
    LookedLast(q, MarkedAt(bits, a), false, More(bits, p));
    FirstFallows(Upto(|bits|), bits, Min(p.room, p.fallow));
    assert order[..Tried(bits, order, p)] == q[..Tried(bits, order, p)];
    forall i: nat | i in a && i < |bits| ensures bits[i].fallow2 {
      var k :| 0 <= k < |a| && a[k] == i;
    }
  }

  lemma NoneFallow(bits: seq<Bits>, p: Pass)
    requires forall i {:trigger bits[i]} :: 0 <= i < |bits| ==> !bits[i].fallow2
    ensures FallowFirst(bits, p) == [] && !Stuck(bits, p)
  {
    FirstFallows(Upto(|bits|), bits, Min(p.room, p.fallow));
    FirstFallows(Upto(|bits|), bits, p.fallow);
    HeadFallow(bits, First(Upto(|bits|), bits, true, Min(p.room, p.fallow)));
    HeadFallow(bits, First(Upto(|bits|), bits, true, p.fallow));
  }

  lemma HeadFallow(bits: seq<Bits>, q: seq<nat>)
    requires AllFallow(bits, q)
    ensures q == [] || (q[0] < |bits| && bits[q[0]].fallow2)
  {
  }

  lemma {:induction false} FirstOldest(q: seq<nat>, bits: seq<Bits>, room: int, u: nat, v: nat)
    requires Within(q, |bits|) && Links.Distinct(q) && u < v < |q| && q[v] in First(q, bits, false, room) && M.IdleDirty(bits[q[u]])
    ensures q[u] in First(q, bits, false, room)
  {
    var r := if Wanted(bits[q[0]], false) then room - 1 else room;
    Links.Apart(q, 0, v);
    if u > 0 {
      Links.LessDistinct(q);
      FirstOldest(q[1..], bits, r, u - 1, v - 1);
    }
  }

  /** Fallow blocks come first, and the rest in reclaim order. */
  lemma OrderLaw(bits: seq<Bits>, order: seq<nat>, p: Pass)
    requires Within(order, |bits|) && Tidy(bits) && Links.Distinct(order)
    ensures OldestFirst(bits, order, Selected(bits, order, p)) && (p.due ==> FallowsFirst(bits, p.fallow, Selected(bits, order, p)))
  {
    var a, chosen := FallowFirst(bits, p), Selected(bits, order, p);
    var mid, q := MarkedAt(bits, a), Ahead(order, Scan(p.dirty, p.thresh, p.force));
    var b := First(q, mid, false, More(bits, p));
    if p.due { FirstFallows(Upto(|bits|), bits, Min(p.room, p.fallow)); }
    forall u: nat, v: nat | u < v < |order| && order[v] in chosen && !bits[order[v]].fallow2 && M.IdleDirty(bits[order[u]]) ensures order[u] in chosen {
      if order[u] !in a { OldestInRest(order, q, mid, a, b, More(bits, p), bits, u, v); }
    }
    if p.due { FallowLaw(bits, p, a, b); }
  }

  lemma OldestInRest(order: seq<nat>, q: seq<nat>, mid: seq<Bits>, a: seq<nat>, b: seq<nat>, most: int, bits: seq<Bits>, u: nat, v: nat)
    requires Within(order, |bits|) && q <= order && Links.Distinct(order) && mid == MarkedAt(bits, a) && b == First(q, mid, false, most) && AllFallow(bits, a)
    requires u < v < |order| && order[v] in a + b && !bits[order[v]].fallow2 && M.IdleDirty(bits[order[u]]) && order[u] !in a
    ensures order[u] in b
  {
    assert order[v] in b;
    FirstExact(q, mid, false, most, order[v]);
    var w :| 0 <= w < |q| && q[w] == order[v];
    assert order[w] == order[v];
    if w != v { Links.Apart(order, w, v); }
    PrefixDistinct(order, q);
    FirstOldest(q, mid, most, u, v);
  }

  lemma PrefixDistinct(order: seq<nat>, q: seq<nat>)
    requires q <= order && Links.Distinct(order)
    ensures Links.Distinct(q)
  {
    forall a: nat, b: nat | a < b < |q| ensures Links.Differ(q, a, b) { assert Links.Differ(order, a, b); }
  }

  lemma FallowLaw(bits: seq<Bits>, p: Pass, a: seq<nat>, b: seq<nat>)
    requires Tidy(bits) && p.due && a == FallowFirst(bits, p) && AllFallow(bits, a) && (More(bits, p) <= 0 ==> b == [])
    ensures FallowsFirst(bits, p.fallow, a + b)
  {
    FallowsCounted(bits, a, b);
    forall i: nat | i < |bits| && bits[i].fallow2 && i !in a + b ensures AllFallow(bits, a + b) || Fallows(bits, a + b) >= p.fallow {
      assert Upto(|bits|)[i] == i;
      FirstExact(Upto(|bits|), bits, true, Min(p.room, p.fallow), i);
      if |a| >= p.room { assert a + b == a; }
    }
  }

  lemma FirstDistinct(q: seq<nat>, bits: seq<Bits>, fallow: bool, room: int)
    requires Within(q, |bits|) && Links.Distinct(q)
    ensures Links.Distinct(First(q, bits, fallow, room))
  {
    if q != [] && room > 0 {
      var r := if Wanted(bits[q[0]], fallow) then room - 1 else room;
      var rest := First(q[1..], bits, fallow, r);
      Links.LessDistinct(q);
      FirstDistinct(q[1..], bits, fallow, r);
      if q[0] in rest {
        FirstThere(q[1..], bits, fallow, r, q[0]);
        FirstExact(q[1..], bits, fallow, r, q[0]);
      } else {
        Links.MoreDistinct(rest, q[0]);
      }
    }
  }

  /** No block is chosen twice. */
  lemma SelectedDistinct(bits: seq<Bits>, order: seq<nat>, p: Pass)
    requires Within(order, |bits|) && Links.Distinct(order) && Tidy(bits)
    ensures Links.Distinct(Selected(bits, order, p)) && Within(Selected(bits, order, p), |bits|)
  {
    var a, chosen := FallowFirst(bits, p), Selected(bits, order, p);
    var mid, q := MarkedAt(bits, a), Ahead(order, Scan(p.dirty, p.thresh, p.force));
    var b := First(q, mid, false, More(bits, p));
    UptoDistinct(|bits|);
    FirstDistinct(Upto(|bits|), bits, true, Min(p.room, p.fallow));
    PrefixDistinct(order, q);
    FirstDistinct(q, mid, false, More(bits, p));
    forall u: nat, v: nat | u < v < |chosen| ensures Links.Differ(chosen, u, v) {
      if v < |a| {
        assert Links.Differ(a, u, v);
      } else if u >= |a| {
        assert Links.Differ(b, u - |a|, v - |a|);
      } else {
        FirstThere(q, mid, false, More(bits, p), b[v - |a|]);
        FirstExact(q, mid, false, More(bits, p), b[v - |a|]);
      }
    }
    forall k | 0 <= k < |chosen| ensures chosen[k] < |bits| { ChosenThere(bits, order, p, chosen[k]); }
  }

  lemma UptoDistinct(n: nat)
    ensures Links.Distinct(Upto(n))
  {
    forall a: nat, b: nat | a < b < n ensures Links.Differ(Upto(n), a, b) {}
  }

  // ----- choosing them in place -----

  function Indices(list: seq<M.Pair>): seq<nat> { seq(|list|, k requires 0 <= k < |list| => list[k].index) }

  /** The blocks listed, idle and DIRTY before, are marked, and no other state word has changed. */
  ghost predicate Picking(was: X.Index, bits: seq<Bits>, list: seq<M.Pair>) {
    && M.ListOk(was, list) && bits == MarkedAt(was.bits, Indices(list))
    && forall k {:trigger list[k]} :: 0 <= k < |list| ==> M.IdleDirty(was.bits[list[k].index])
  }

  lemma Unmarked(was: X.Index)
    requires |was.bits| == |was.dbn|
    ensures Picking(was, was.bits, []) && Indices([]) == [] && MarkedAt(was.bits, []) == was.bits
  {
  }

  lemma SlotsAre(list: seq<M.Pair>, i: nat)
    ensures i in M.Slots(list) <==> i in Indices(list)
  {
    M.SlotsOf(list, i);
    if i in Indices(list) {
      var k :| 0 <= k < |Indices(list)| && Indices(list)[k] == i;
      assert list[k].index == i;
    }
    if k :| 0 <= k < |list| && list[k].index == i { assert Indices(list)[k] == i; }
  }

  lemma PickFresh(was: X.Index, bits: seq<Bits>, list: seq<M.Pair>, i: nat)
    requires Picking(was, bits, list) && i < |bits| && M.IdleDirty(bits[i])
    ensures i < |was.bits| && i !in Indices(list) && was.bits[i] == bits[i]
    ensures MarkedAt(was.bits, Indices(list) + [i]) == bits[i := M.Marked(bits[i])]
  {
  }

  lemma PickMore(was: X.Index, bits: seq<Bits>, list: seq<M.Pair>, i: nat)
    requires Picking(was, bits, list) && i < |bits| && M.IdleDirty(bits[i]) && bits[i].valid
    ensures i < |was.dbn| && Picking(was, bits[i := M.Marked(bits[i])], list + [M.Pair(was.dbn[i], i)])
    ensures Indices(list + [M.Pair(was.dbn[i], i)]) == Indices(list) + [i]
  {
    PickFresh(was, bits, list, i);
    SlotsAre(list, i);
    M.Grown(was, list, i);
    assert Indices(list + [M.Pair(was.dbn[i], i)]) == Indices(list) + [i];
  }

  /** A block is chosen: it is marked DISKWRITEINPROG and made young again. */
  method Pick(bits: array<Bits>, dbn: array<nat>, list: seq<M.Pair>, i: nat, ghost was: X.Index) returns (out: seq<M.Pair>)
    requires dbn[..] == was.dbn && Picking(was, bits[..], list) && i < bits.Length == dbn.Length && M.IdleDirty(bits[i]) && bits[i].valid
    modifies bits
    ensures Picking(was, bits[..], out) && Indices(out) == Indices(list) + [i] && bits[..] == old(bits[..])[i := M.Marked(old(bits[i]))]
  {
    PickMore(was, bits[..], list, i);
    bits[i] := M.Marked(bits[i]);
    out := list + [M.Pair(dbn[i], i)];
  }

  /** The block at hand is passed over or taken. */
  lemma FirstStep(q: seq<nat>, k: nat, bits: seq<Bits>, fallow: bool, room: int)
    requires Within(q, |bits|) && k < |q| && room > 0
    ensures Within(q[k..], |bits|) && Within(q[k + 1..], |bits|)
    ensures First(q[k..], bits, fallow, room) == if Wanted(bits[q[k]], fallow) then [q[k]] + First(q[k + 1..], bits, fallow, room - 1)
                                                 else First(q[k + 1..], bits, fallow, room)
  {
    assert q[k..][1..] == q[k + 1..];
  }

  lemma UptoStep(n: nat, i: nat, bits: seq<Bits>, room: int)
    requires n == |bits| && i < n
    ensures First(Upto(n)[i..], bits, true, room) ==
            if room <= 0 then [] else if bits[i].fallow2 then [i] + First(Upto(n)[i + 1..], bits, true, room - 1) else First(Upto(n)[i + 1..], bits, true, room)
  {
    if room > 0 { FirstStep(Upto(n), i, bits, true, room); }
  }

  lemma FirstNone(q: seq<nat>, bits: seq<Bits>, fallow: bool, room: int)
    requires Within(q, |bits|) && (q == [] || room <= 0)
    ensures First(q, bits, fallow, room) == []
  {
  }

  /** How far the loop over fallow blocks has got. */
  ghost predicate FallowSoFar(bits: seq<Bits>, i: nat, picked: seq<nat>, fallow: int, room: int)
    requires i <= |bits|
  {
    && picked + First(Upto(|bits|)[i..], bits, true, Min(room, fallow) - |picked|) == First(Upto(|bits|), bits, true, Min(room, fallow))
    && |picked| + |First(Upto(|bits|)[i..], bits, true, fallow - |picked|)| == |First(Upto(|bits|), bits, true, fallow)|
    && |picked| <= Max(room, 0)
  }

  lemma FallowOn(bits: seq<Bits>, i: nat, picked: seq<nat>, fallow: int, room: int)
    requires i < |bits| && FallowSoFar(bits, i, picked, fallow, room) && |picked| < fallow
    ensures !bits[i].fallow2 ==> FallowSoFar(bits, i + 1, picked, fallow, room)
    ensures bits[i].fallow2 && |picked| < room ==> FallowSoFar(bits, i + 1, picked + [i], fallow, room)
    ensures bits[i].fallow2 && |picked| >= room ==> |First(Upto(|bits|), bits, true, fallow)| > Max(room, 0) && picked == First(Upto(|bits|), bits, true, Min(room, fallow))
  {
    if bits[i].fallow2 && |picked| < room {
      FallowPicked(bits, i, picked, fallow, room);
    } else {
      FallowSkipped(bits, i, picked, fallow, room);
    }
  }

  lemma FallowPicked(bits: seq<Bits>, i: nat, picked: seq<nat>, fallow: int, room: int)
    requires i < |bits| && FallowSoFar(bits, i, picked, fallow, room) && |picked| < fallow && bits[i].fallow2 && |picked| < room
    ensures FallowSoFar(bits, i + 1, picked + [i], fallow, room)
  {
    UptoStep(|bits|, i, bits, Min(room, fallow) - |picked|);
    UptoStep(|bits|, i, bits, fallow - |picked|);
    var rest := First(Upto(|bits|)[i + 1..], bits, true, Min(room, fallow) - |picked| - 1);
    assert picked + ([i] + rest) == (picked + [i]) + rest;
  }

  lemma FallowSkipped(bits: seq<Bits>, i: nat, picked: seq<nat>, fallow: int, room: int)
    requires i < |bits| && FallowSoFar(bits, i, picked, fallow, room) && |picked| < fallow && (bits[i].fallow2 ==> |picked| >= room)
    ensures !bits[i].fallow2 ==> FallowSoFar(bits, i + 1, picked, fallow, room)
    ensures bits[i].fallow2 ==> |First(Upto(|bits|), bits, true, fallow)| > Max(room, 0) && picked == First(Upto(|bits|), bits, true, Min(room, fallow))
  {
    UptoStep(|bits|, i, bits, Min(room, fallow) - |picked|);
    UptoStep(|bits|, i, bits, fallow - |picked|);
    if |picked| >= room { FirstNone(Upto(|bits|)[i..], bits, true, Min(room, fallow) - |picked|); }
  }

  lemma FallowDone(bits: seq<Bits>, i: nat, picked: seq<nat>, fallow: int, room: int)
    requires i <= |bits| && FallowSoFar(bits, i, picked, fallow, room) && (i == |bits| || |picked| >= fallow)
    ensures picked == First(Upto(|bits|), bits, true, Min(room, fallow)) && |First(Upto(|bits|), bits, true, fallow)| <= Max(room, 0)
  {
    FirstNone(Upto(|bits|)[i..], bits, true, Min(room, fallow) - |picked|);
    FirstNone(Upto(|bits|)[i..], bits, true, fallow - |picked|);
  }

  predicate Below(q: seq<nat>, i: nat) { forall k {:trigger q[k]} :: 0 <= k < |q| ==> q[k] < i }

  /** One turn of the loop over fallow blocks. */
  method FallowTurn(bits: array<Bits>, dbn: array<nat>, list: seq<M.Pair>, i: nat, fallow: int, room: int, ghost was: X.Index)
      returns (out: seq<M.Pair>, full: bool)
    requires dbn[..] == was.dbn && Picking(was, bits[..], list) && i < bits.Length == dbn.Length && Below(Indices(list), i) && Tidy(was.bits)
    requires FallowSoFar(was.bits, i, Indices(list), fallow, room) && |list| < fallow
    modifies bits
    ensures Picking(was, bits[..], out)
    ensures !full ==> Below(Indices(out), i + 1) && FallowSoFar(was.bits, i + 1, Indices(out), fallow, room)
    ensures full ==> |First(Upto(|was.bits|), was.bits, true, fallow)| > Max(room, 0) && Indices(out) == First(Upto(|was.bits|), was.bits, true, Min(room, fallow))
  {
    FallowOn(was.bits, i, Indices(list), fallow, room);
    assert i !in Indices(list) && bits[..][i] == was.bits[i];
    out, full := list, false;
    if bits[i].fallow2 {
      if |list| >= room { return list, true; }
      out := Pick(bits, dbn, list, i, was);
    }
  }

  /** The first loop of flashcache_clean_set: the fallow blocks, as long as the limits let it. */
  method PickFallow(bits: array<Bits>, dbn: array<nat>, fallow: int, room: int, ghost was: X.Index) returns (list: seq<M.Pair>, full: bool)
    requires dbn[..] == was.dbn && bits[..] == was.bits && |was.bits| == |was.dbn| && Tidy(was.bits)
    modifies bits
    ensures Picking(was, bits[..], list) && Indices(list) == First(Upto(|was.bits|), was.bits, true, Min(room, fallow))
    ensures full <==> |First(Upto(|was.bits|), was.bits, true, fallow)| > Max(room, 0)
  {
    list, full := [], false;
    var i := 0;
    Unmarked(was);
    assert Upto(|was.bits|)[0..] == Upto(|was.bits|);
    while |list| < fallow && i < bits.Length
      invariant Picking(was, bits[..], list) && i <= bits.Length && Below(Indices(list), i) && !full
      invariant FallowSoFar(was.bits, i, Indices(list), fallow, room)
      decreases bits.Length - i
    {
      list, full := FallowTurn(bits, dbn, list, i, fallow, room, was);
      if full { return; }
      i := i + 1;
    }
    FallowDone(was.bits, i, Indices(list), fallow, room);
  }

  /** How far the walk in reclaim order has got. */
  ghost predicate OrderSoFar(q: seq<nat>, bits: seq<Bits>, k: nat, had: seq<nat>, picked: seq<nat>, most: int)
    requires Within(q, |bits|) && k <= |q|
  {
    && Within(q[k..], |bits|)
    && picked + First(q[k..], bits, false, most - |picked|) == had + First(q, bits, false, most - |had|)
    && k + Looked(q[k..], bits, false, most - |picked|) == Looked(q, bits, false, most - |had|)
  }

  lemma OrderStart(q: seq<nat>, bits: seq<Bits>, had: seq<nat>, most: int)
    requires Within(q, |bits|)
    ensures OrderSoFar(q, bits, 0, had, had, most)
  {
    assert q[0..] == q;
  }

  lemma OrderOn(q: seq<nat>, bits: seq<Bits>, k: nat, had: seq<nat>, picked: seq<nat>, most: int)
    requires Within(q, |bits|) && k < |q| && OrderSoFar(q, bits, k, had, picked, most) && |picked| < most
    ensures OrderSoFar(q, bits, k + 1, had, if M.IdleDirty(bits[q[k]]) then picked + [q[k]] else picked, most)
  {
    FirstStep(q, k, bits, false, most - |picked|);
    assert q[k..][1..] == q[k + 1..];
    if M.IdleDirty(bits[q[k]]) {
      assert picked + ([q[k]] + First(q[k + 1..], bits, false, most - |picked| - 1)) == (picked + [q[k]]) + First(q[k + 1..], bits, false, most - |picked + [q[k]]|);
    }
  }

  lemma OrderDone(q: seq<nat>, bits: seq<Bits>, k: nat, had: seq<nat>, picked: seq<nat>, most: int)
    requires Within(q, |bits|) && k <= |q| && OrderSoFar(q, bits, k, had, picked, most) && (k == |q| || |picked| >= most)
    ensures picked == had + First(q, bits, false, most - |had|) && k == Looked(q, bits, false, most - |had|)
  {
  }

  /** Blocks not come to yet are as they were. */
  ghost predicate Untried(q: seq<nat>, k: nat, was: seq<Bits>, now: seq<Bits>) {
    |was| == |now| && forall m {:trigger q[m]} :: k <= m < |q| && q[m] < |was| ==> now[q[m]] == was[q[m]]
  }

  method TryBlock(bits: array<Bits>, dbn: array<nat>, list: seq<M.Pair>, i: nat, ghost was: X.Index) returns (out: seq<M.Pair>)
    requires dbn[..] == was.dbn && Picking(was, bits[..], list) && Tidy(was.bits) && i < bits.Length == dbn.Length
    modifies bits
    ensures Picking(was, bits[..], out)
    ensures Indices(out) == if M.IdleDirty(old(bits[i])) then Indices(list) + [i] else Indices(list)
    ensures forall m {:trigger bits[m]} :: 0 <= m < bits.Length && m != i ==> bits[m] == old(bits[m])
  {
    out := list;
    if bits[i].dirty && !bits[i].Busy() {
      PickFresh(was, bits[..], list, i);
      out := Pick(bits, dbn, list, i, was);
    }
  }

  /** One turn of the walk. */
  method OrderTurn(bits: array<Bits>, dbn: array<nat>, list: seq<M.Pair>, order: seq<nat>, k: nat, ghost q: seq<nat>, ghost b: seq<Bits>,
                   ghost had: seq<nat>, ghost most: int, ghost was: X.Index) returns (out: seq<M.Pair>)
    requires dbn[..] == was.dbn && Picking(was, bits[..], list) && bits.Length == dbn.Length && Tidy(was.bits) && Within(order, |b|) && Links.Distinct(order)
    requires k < |q| && q <= order && Untried(order, k, b, bits[..]) && OrderSoFar(q, b, k, had, Indices(list), most) && |list| < most
    modifies bits
    ensures Picking(was, bits[..], out)
    ensures Untried(order, k + 1, b, bits[..]) && OrderSoFar(q, b, k + 1, had, Indices(out), most)
  {
    OrderOn(q, b, k, had, Indices(list), most);
    assert q[k] == order[k] && bits[..][order[k]] == b[order[k]];
    out := TryBlock(bits, dbn, list, order[k], was);
    forall m | k + 1 <= m < |order| ensures bits[order[m]] == b[order[m]] { Links.Apart(order, m, k); }
  }

  /** The walk along the reclaim order: DIRTY idle blocks, as many as wanted and as the limits let
      through; a forced cleaning looks at no more than `scan` blocks. */
  method PickInOrder(bits: array<Bits>, dbn: array<nat>, list: seq<M.Pair>, order: seq<nat>, room: int, want: int, scan: nat, ghost q: seq<nat>,
                     ghost b: seq<Bits>, ghost was: X.Index)
      returns (out: seq<M.Pair>, scanned: nat)
    requires dbn[..] == was.dbn && Picking(was, bits[..], list) && bits.Length == dbn.Length && Tidy(was.bits) && b == bits[..]
    requires Within(order, |b|) && Links.Distinct(order) && q <= order && |q| == if 0 < scan <= |order| then scan else |order|
    modifies bits
    ensures Within(q, |b|) && Picking(was, bits[..], out)
    ensures Indices(out) == Indices(list) + First(q, b, false, Min(room, want) - |list|)
    ensures scanned == Looked(q, b, false, Min(room, want) - |list|)
  {
    out, scanned := list, 0;
    OrderStart(q, b, Indices(list), Min(room, want));
    while scanned < |order| && |out| < room && |out| < want
      invariant Picking(was, bits[..], out) && scanned <= |q| && (scan > 0 ==> scanned < scan)
      invariant Untried(order, scanned, b, bits[..]) && OrderSoFar(q, b, scanned, Indices(list), Indices(out), Min(room, want))
      decreases |order| - scanned
    {
      out := OrderTurn(bits, dbn, out, order, scanned, q, b, Indices(list), Min(room, want), was);
      scanned := scanned + 1;
      if scan > 0 && scanned == scan { break; }
    }
    OrderDone(q, b, scanned, Indices(list), Indices(out), Min(room, want));
  }

  /** What flashcache_clean_set chooses after the fallow blocks. */
  method SelectMore(bits: array<Bits>, dbn: array<nat>, list: seq<M.Pair>, order: seq<nat>, p: Pass, ghost b: seq<Bits>, ghost was: X.Index)
      returns (out: seq<M.Pair>, scanned: nat)
    requires dbn[..] == was.dbn && Picking(was, bits[..], list) && bits.Length == dbn.Length && Tidy(was.bits) && b == bits[..]
    requires Within(order, |b|) && Links.Distinct(order)
    modifies bits
    ensures Picking(was, bits[..], out)
    ensures var most := Min(p.room, Want(p.dirty, p.thresh, p.force, |list|)) - |list|;
            Indices(out) == Indices(list) + First(Ahead(order, Scan(p.dirty, p.thresh, p.force)), b, false, most)
            && scanned == Looked(Ahead(order, Scan(p.dirty, p.thresh, p.force)), b, false, most)
  {
    out, scanned := list, 0;
    var want, scan := 0, p.force;
    if p.force == 0 {
      if p.dirty < p.thresh || |list| >= p.room { return; }
      want := p.dirty - p.thresh;
    } else if p.dirty > 0 {
      if p.dirty > p.thresh {
        want, scan := p.dirty - p.thresh, 0;
      } else if |list| == 0 {
        want := p.force;
      }
    }
    out, scanned := PickInOrder(bits, dbn, list, order, p.room, want, scan, Ahead(order, scan), b, was);
  }

  /** The fallow blocks, if any are due. */
  method SelectFallow(bits: array<Bits>, dbn: array<nat>, p: Pass, ghost was: X.Index) returns (list: seq<M.Pair>, full: bool)
    requires dbn[..] == was.dbn && bits[..] == was.bits && |was.bits| == |was.dbn| && Tidy(was.bits)
    modifies bits
    ensures Picking(was, bits[..], list) && Indices(list) == FallowFirst(was.bits, p) && full == Stuck(was.bits, p)
  {
    Unmarked(was);
    list, full := [], false;
    if p.due { list, full := PickFallow(bits, dbn, p.fallow, p.room, was); }
  }

  /** What a pass chooses: all of flashcache_clean_set before the merging. */
  method Select(bits: array<Bits>, dbn: array<nat>, order: seq<nat>, p: Pass, ghost was: X.Index) returns (list: seq<M.Pair>, scanned: nat)
    requires dbn[..] == was.dbn && bits[..] == was.bits && |was.bits| == |was.dbn| && Tidy(was.bits) && Within(order, |was.bits|) && Links.Distinct(order)
    modifies bits
    ensures Picking(was, bits[..], list)
    ensures Indices(list) == Selected(was.bits, order, p) && scanned == Tried(was.bits, order, p)
    ensures p.force == 0 || p.dirty > Max(p.thresh, 0) ==>
              Enough(was.bits, order, p.dirty, p.thresh, p.room, Indices(list)) && NoMore(was.bits, p.dirty, p.thresh, Indices(list))
    ensures p.force > 0 && 0 < p.dirty <= p.thresh && (forall i {:trigger was.bits[i]} :: 0 <= i < |was.bits| ==> !was.bits[i].fallow2) ==>
              ForcedEnough(was.bits, order, p.force, p.room, Indices(list))
    ensures OldestFirst(was.bits, order, Indices(list)) && (p.due ==> FallowsFirst(was.bits, p.fallow, Indices(list)))
    ensures ReachesLast(was.bits, order, Scan(p.dirty, p.thresh, p.force), Indices(list), scanned)
  {
    SelectLaws(was.bits, order, p);
    TriedLaw(was.bits, order, p);
    var full;
    list, full := SelectFallow(bits, dbn, p, was);
    scanned := 0;
    if full {
      StuckSelects(was.bits, order, p);
    } else {
      SelectedIs(was.bits, order, p, bits[..]);
      list, scanned := SelectMore(bits, dbn, list, order, p, bits[..], was);
    }
  }

  lemma SelectLaws(bits: seq<Bits>, order: seq<nat>, p: Pass)
    requires Within(order, |bits|) && Tidy(bits) && Links.Distinct(order)
    ensures var chosen := Selected(bits, order, p);
      && (p.force == 0 || p.dirty > Max(p.thresh, 0) ==> Enough(bits, order, p.dirty, p.thresh, p.room, chosen) && NoMore(bits, p.dirty, p.thresh, chosen))
      && (p.force > 0 && 0 < p.dirty <= p.thresh && (forall i {:trigger bits[i]} :: 0 <= i < |bits| ==> !bits[i].fallow2) ==>
            ForcedEnough(bits, order, p.force, p.room, chosen))
      && OldestFirst(bits, order, chosen) && (p.due ==> FallowsFirst(bits, p.fallow, chosen))
  {
    if p.force == 0 || p.dirty > Max(p.thresh, 0) { ThresholdLaw(bits, order, p); }
    if p.force > 0 && 0 < p.dirty <= p.thresh && forall i {:trigger bits[i]} :: 0 <= i < |bits| ==> !bits[i].fallow2 { ForcedLaw(bits, order, p); }
    OrderLaw(bits, order, p);
  }

  lemma SelectedIs(bits: seq<Bits>, order: seq<nat>, p: Pass, mid: seq<Bits>)
    requires Within(order, |bits|) && !Stuck(bits, p) && mid == MarkedAt(bits, FallowFirst(bits, p))
    ensures var a := FallowFirst(bits, p);
            var most := Min(p.room, Want(p.dirty, p.thresh, p.force, |a|)) - |a|;
            Selected(bits, order, p) == a + First(Ahead(order, Scan(p.dirty, p.thresh, p.force)), mid, false, most)
            && Tried(bits, order, p) == Looked(Ahead(order, Scan(p.dirty, p.thresh, p.force)), mid, false, most)
  {
  }

  lemma StuckSelects(bits: seq<Bits>, order: seq<nat>, p: Pass)
    requires Within(order, |bits|) && Stuck(bits, p)
    ensures Selected(bits, order, p) == FallowFirst(bits, p) && Tried(bits, order, p) == 0
  {
  }

  // ----- what merging adds -----

  /** Marking the chosen blocks does not change what is joined to them. */
  lemma JoinedPicked(was: X.Index, now: X.Index, list: seq<M.Pair>, size: M.BlockSize, i: nat)
    requires Picking(was, now.bits, list) && now.dbn == was.dbn
    ensures M.Joined(now, size, M.Slots(list), i) <==> M.Joined(was, size, M.Slots(list), i)
  {
    if M.Joined(now, size, M.Slots(list), i) {
      var q :| M.IsPath(now, size, M.Slots(list), q) && q[|q| - 1] == i;
      forall k: nat | k + 1 < |q| ensures M.HopAt(was, size, q, k) { assert M.HopAt(now, size, q, k); }
      assert M.IsPath(was, size, M.Slots(list), q);
    }
    if M.Joined(was, size, M.Slots(list), i) {
      var q :| M.IsPath(was, size, M.Slots(list), q) && q[|q| - 1] == i;
      StillJoined(was, now, list, size, q, |q| - 1);
    }
  }

  lemma {:induction false} StillJoined(was: X.Index, now: X.Index, list: seq<M.Pair>, size: M.BlockSize, q: seq<nat>, n: nat)
    requires Picking(was, now.bits, list) && now.dbn == was.dbn && M.IsPath(was, size, M.Slots(list), q) && n < |q|
    ensures M.Joined(now, size, M.Slots(list), q[n])
    decreases n
  {
    SlotsAre(list, q[n]);
    if q[n] in M.Slots(list) {
      M.JoinedChosen(now, size, M.Slots(list), q[n]);
    } else {
      StillJoined(was, now, list, size, q, n - 1);
      assert M.HopAt(was, size, q, n - 1) && now.bits[q[n]] == was.bits[q[n]];
      M.JoinedHop(now, size, M.Slots(list), q[n - 1], q[n], M.Beside(now, size, q[n - 1], q[n], true));
    }
  }

  /** Whatever is joined to the chosen blocks, all idle and DIRTY, is idle and DIRTY. */
  lemma {:induction false} JoinedIdle(was: X.Index, list: seq<M.Pair>, size: M.BlockSize, i: nat)
    requires M.ListOk(was, list) && (forall k {:trigger list[k]} :: 0 <= k < |list| ==> M.IdleDirty(was.bits[list[k].index]))
    requires M.Joined(was, size, M.Slots(list), i)
    ensures i < |was.bits| && M.IdleDirty(was.bits[i])
  {
    var q :| M.IsPath(was, size, M.Slots(list), q) && q[|q| - 1] == i;
    if |q| > 1 { assert M.HopAt(was, size, q, |q| - 2); } else { M.SlotsOf(list, i); }
  }

  lemma PickedSound(jhash: nat -> nat, mine: nat -> bool, was: X.Index, now: X.Index, list: seq<M.Pair>)
    requires M.Sound(jhash, mine, was, None) && Picking(was, now.bits, list) && now == was.(bits := now.bits)
    ensures M.Sound(jhash, mine, now, None)
    ensures forall i: nat {:trigger now.bits[i]} :: i < |now.bits| && i in M.Slots(list) ==> now.bits[i].Busy()
  {
    forall i: nat | i < |was.bits| ensures i in Indices(list) ==> was.bits[i].valid && i in M.Slots(list) { SlotsAre(list, i); }
    X.SameClashes(was, now);
    forall i: nat | i < |now.bits| && i in M.Slots(list) ensures now.bits[i].Busy() { SlotsAre(list, i); }
  }

  lemma MergedIs(was: X.Index, mid: X.Index, now: X.Index, size: M.BlockSize, list: seq<M.Pair>, out: seq<M.Pair>)
    requires Picking(was, mid.bits, list) && mid == was.(bits := mid.bits) && |mid.bits| == |was.bits|
    requires M.MarkedOnly(mid, now, M.Slots(list), M.Slots(out)) && M.ListOk(mid, out)
    requires forall i: nat {:trigger M.Joined(mid, size, M.Slots(list), i)} :: i in M.Slots(out) <==> M.Joined(mid, size, M.Slots(list), i)
    ensures Picking(was, now.bits, out) && now == was.(bits := now.bits)
    ensures forall i: nat {:trigger M.Joined(was, size, M.Slots(list), i)} :: i in Indices(out) <==> M.Joined(was, size, M.Slots(list), i)
  {
    forall i: nat ensures i in Indices(out) <==> M.Joined(was, size, M.Slots(list), i) {
      SlotsAre(out, i);
      JoinedPicked(was, mid, list, size, i);
    }
    forall k | 0 <= k < |out| ensures M.IdleDirty(was.bits[out[k].index]) {
      assert Indices(out)[k] == out[k].index;
      JoinedIdle(was, list, size, out[k].index);
    }
    forall i: nat | i < |was.bits| ensures now.bits[i] == if i in Indices(out) then M.Marked(was.bits[i]) else was.bits[i] {
      SlotsAre(out, i);
      SlotsAre(list, i);
      if i in M.Slots(list) { M.JoinedChosen(mid, size, M.Slots(list), i); }
      assert mid.bits[i] == if i in Indices(list) then M.Marked(was.bits[i]) else was.bits[i];
    }
    assert forall k {:trigger out[k]} :: 0 <= k < |out| ==> mid.bits[out[k].index].valid;
  }

  /** The chosen blocks, if any, are merged with what is joined to them. */
  method Merge(cs: CacheSet, list: seq<M.Pair>, size: M.BlockSize, ghost was: X.Index, ghost mine: nat -> bool) returns (out: seq<M.Pair>)
    requires cs.Valid() && M.Sound(cs.jhash, mine, was, None) && Picking(was, cs.bits[..], list) && cs.Model() == was.(bits := cs.bits[..])
    modifies cs.bits
    ensures cs.Valid() && M.Sound(cs.jhash, mine, cs.Model(), None) && Picking(was, cs.bits[..], out) && cs.Model() == was.(bits := cs.bits[..])
    ensures M.Ascending(out) && |out| <= cs.bits.Length
    ensures forall i: nat {:trigger M.Joined(was, size, M.Slots(list), i)} :: i in Indices(out) <==> M.Joined(was, size, M.Slots(list), i)
  {
    ghost var mid := cs.Model();
    PickedSound(cs.jhash, mine, was, mid, list);
    out := M.MergeWrites(cs, list, size, mine, None);
    MergedIs(was, mid, cs.Model(), size, list, out);
  }

  // ----- writing them back -----

  function Cleans(start: nat, list: seq<M.Pair>): seq<Step> { seq(|list|, n requires 0 <= n < |list| => CleanSlot(start + list[n].index)) }

  lemma OneClean(start: nat, list: seq<M.Pair>, n: nat)
    requires n < |list|
    ensures Cleans(start, list[..n + 1]) == Cleans(start, list[..n]) + [CleanSlot(start + list[n].index)]
    ensures Indices(list[..n + 1]) == Indices(list[..n]) + [list[n].index]
  {
  }

  /** A slot whose writeback has been started. */
  function Started(sl: Slot): Slot { sl.(bits := M.Marked(sl.bits), work := WriteDisk(None, false)) }

  /** The slots of the blocks listed, and no others, have their writeback started. */
  ghost predicate StartedAll(was: seq<Slot>, now: seq<Slot>, start: nat, q: seq<nat>) {
    |now| == |was| && forall i {:trigger now[i]} :: 0 <= i < |was| ==> now[i] == if i - start in q then Started(was[i]) else was[i]
  }

  /** The blocks listed are idle DIRTY slots of set j. */
  ghost predicate Startable(c: Config, s: seq<Slot>, start: nat, j: nat, list: seq<M.Pair>) {
    && |c.setOf| == |s| && c.mode == Mode.WriteBack
    && (forall n {:trigger list[n]} :: 0 <= n < |list| ==> start + list[n].index < |s| && c.setOf[start + list[n].index] == j && M.IdleDirty(s[start + list[n].index].bits))
    && (forall a: nat, b: nat {:trigger M.Twice(list, a, b)} :: a < b < |list| ==> !M.Twice(list, a, b))
  }

  lemma StartNext(c: Config, was: seq<Slot>, now: seq<Slot>, start: nat, j: nat, list: seq<M.Pair>, n: nat)
    requires Startable(c, was, start, j, list) && n < |list| && StartedAll(was, now, start, Indices(list[..n]))
    ensures start + list[n].index < |now| && c.setOf[start + list[n].index] == j
    ensures now[start + list[n].index] == was[start + list[n].index] && M.IdleDirty(now[start + list[n].index].bits)
    ensures StartedAll(was, now[start + list[n].index := Started(now[start + list[n].index])], start, Indices(list[..n + 1]))
  {
    OneClean(start, list, n);
    var i := start + list[n].index;
    if list[n].index in Indices(list[..n]) {
      var m :| 0 <= m < n && list[..n][m].index == list[n].index;
      assert M.Twice(list, m, n);
    }
  }

  method WriteOne(k: Cache, start: nat, list: seq<M.Pair>, n: nat, ghost was: seq<Slot>, ghost j: nat)
    requires k.Valid() && Startable(k.c, was, start, j, list) && n < |list| && StartedAll(was, k.slots[..], start, Indices(list[..n]))
    modifies k, k.slots
    ensures k.Valid() && StartedAll(was, k.slots[..], start, Indices(list[..n + 1])) && k.steps == old(k.steps) + [CleanSlot(start + list[n].index)]
    ensures j < |old(k.setCleaning)| && k.cleaning == old(k.cleaning) + 1 && k.setCleaning == BumpAt(old(k.setCleaning), j, 1)
  {
    StartNext(k.c, was, k.slots[..], start, j, list, n);
    k.CleanBlock(start + list[n].index);
  }

  /** The loop of flashcache_clean_set that starts the writebacks. */
  method StartAll(k: Cache, start: nat, list: seq<M.Pair>, ghost j: nat)
    requires k.Valid() && Startable(k.c, k.slots[..], start, j, list) && j < |k.setCleaning|
    modifies k, k.slots
    ensures k.Valid() && StartedAll(old(k.slots[..]), k.slots[..], start, Indices(list)) && k.steps == old(k.steps) + Cleans(start, list)
    ensures k.cleaning == old(k.cleaning) + |list| && k.setCleaning == BumpAt(old(k.setCleaning), j, |list|)
  {
    ghost var was := k.slots[..];
    for n := 0 to |list|
      invariant k.Valid() && StartedAll(was, k.slots[..], start, Indices(list[..n])) && k.steps == old(k.steps) + Cleans(start, list[..n])
      invariant k.cleaning == old(k.cleaning) + n && k.setCleaning == BumpAt(old(k.setCleaning), j, n)
    {
      WriteOne(k, start, list, n, was, j);
      OneClean(start, list, n);
    }
    assert list[..|list|] == list;
  }

  // ----- a whole pass -----

  function ToSet(q: seq<nat>): set<nat> { set i | i in q }

  lemma SlotsAll(list: seq<M.Pair>)
    ensures M.Slots(list) == ToSet(Indices(list))
  {
    forall i ensures i in M.Slots(list) <==> i in ToSet(Indices(list)) { if i >= 0 { SlotsAre(list, i); } else { M.NoNegative(list, i); } }
  }

  /** Choosing and merging, in the set's state words. */
  method Gather(cs: CacheSet, order: seq<nat>, p: Pass, size: M.BlockSize, ghost mine: nat -> bool) returns (out: seq<M.Pair>, scanned: nat)
    requires cs.Valid() && M.Sound(cs.jhash, mine, cs.Model(), None) && Tidy(cs.Model().bits) && Within(order, cs.bits.Length) && Links.Distinct(order)
    modifies cs.bits
    ensures cs.Valid() && M.Sound(cs.jhash, mine, cs.Model(), None) && Picking(old(cs.Model()), cs.bits[..], out)
    ensures cs.Model() == old(cs.Model()).(bits := cs.bits[..]) && scanned == Tried(old(cs.Model()).bits, order, p) && |out| <= cs.bits.Length
    ensures var chosen := ToSet(Selected(old(cs.Model()).bits, order, p));
            forall i: nat {:trigger M.Joined(old(cs.Model()), size, chosen, i)} :: i in Indices(out) <==> M.Joined(old(cs.Model()), size, chosen, i)
  {
    ghost var was := cs.Model();
    var list;
    list, scanned := Select(cs.bits, cs.dbn, order, p, was);
    SlotsAll(list);
    out := Merge(cs, list, size, was, mine);
  }

  lemma TidyNow(c: Config, s: State, j: nat, start: nat, jhash: nat -> nat, x: X.Index)
    requires Inv(c, s) && Indexed(c, s.slots, j, start, jhash, x, None)
    ensures Tidy(x.bits)
  {
    forall i: nat | i < |x.bits| ensures (x.bits[i].dirty ==> x.bits[i].valid) && (x.bits[i].fallow2 ==> M.IdleDirty(x.bits[i])) {
      assert SameAt(x, s.slots, start, i) && SlotOk(c, start + i, s.slots[start + i]);
    }
  }

  lemma CanStart(c: Config, s: seq<Slot>, j: nat, start: nat, jhash: nat -> nat, x: X.Index, bits: seq<Bits>, list: seq<M.Pair>)
    requires Indexed(c, s, j, start, jhash, x, None) && Picking(x, bits, list) && c.mode == Mode.WriteBack
    ensures Startable(c, s, start, j, list)
  {
    forall n | 0 <= n < |list| ensures start + list[n].index < |s| && c.setOf[start + list[n].index] == j && M.IdleDirty(s[start + list[n].index].bits) {
      assert SameAt(x, s, start, list[n].index);
    }
  }

  lemma CaughtUp(c: Config, s: seq<Slot>, t: seq<Slot>, j: nat, start: nat, jhash: nat -> nat, x: X.Index, y: X.Index, list: seq<M.Pair>)
    requires Indexed(c, s, j, start, jhash, x, None) && Picking(x, y.bits, list) && y == x.(bits := y.bits) && M.Sound(jhash, Mine(c, j), y, None)
    requires StartedAll(s, t, start, Indices(list))
    ensures Indexed(c, t, j, start, jhash, y, None)
  {
    forall i: nat | i < |y.bits| ensures SameAt(y, t, start, i) {
      assert SameAt(x, s, start, i) && t[start + i].bits == (if start + i - start in Indices(list) then M.Marked(s[start + i].bits) else s[start + i].bits);
    }
  }

  lemma TidyReached(c: Config, disk: map<nat, Data>, run: seq<State>, steps: seq<Step>, s: State, j: nat, start: nat, jhash: nat -> nat, x: X.Index)
    requires Reaches(c, disk, run, steps, s) && Indexed(c, s.slots, j, start, jhash, x, None)
    ensures Tidy(x.bits)
  {
    ReachableGood(c, disk, s);
    TidyNow(c, s, j, start, jhash, x);
  }

  /** The blocks gathered are written back. */
  method WriteOut(k: Cache, cs: CacheSet, list: seq<M.Pair>, ghost x: X.Index, ghost j: nat)
    requires k.Valid() && cs.Valid() && Indexed(k.c, k.slots[..], j, cs.start, cs.jhash, x, None) && k.c.mode == Mode.WriteBack && j < |k.setCleaning|
    requires Picking(x, cs.bits[..], list) && cs.Model() == x.(bits := cs.bits[..]) && M.Sound(cs.jhash, Mine(k.c, j), cs.Model(), None)
    modifies k, k.slots
    ensures InStep(k, cs, j, None) && StartedAll(old(k.slots[..]), k.slots[..], cs.start, Indices(list)) && k.steps == old(k.steps) + Cleans(cs.start, list)
    ensures k.cleaning == old(k.cleaning) + |list| && k.setCleaning == BumpAt(old(k.setCleaning), j, |list|)
  {
    ghost var s := k.slots[..];
    CanStart(k.c, s, j, cs.start, cs.jhash, x, cs.bits[..], list);
    StartAll(k, cs.start, list, j);
    CaughtUp(k.c, s, k.slots[..], j, cs.start, cs.jhash, x, cs.Model(), list);
  }

  ghost predicate Sectors(d: seq<nat>) { forall i {:trigger d[i]} :: 0 <= i < |d| ==> d[i] < M.SECTORS }

  /** What a pass over set j is given by the counters. */
  function PassNow(k: Cache, j: nat, due: bool, thresh: int, force: nat, lim: Limits): Pass
    reads k
    requires j < |k.setFallow| && j < |k.setDirty| && j < |k.setCleaning|
  {
    Pass(due, k.setFallow[j], k.setDirty[j], thresh, force, Room(lim, k.setCleaning[j], k.cleaning))
  }

  /** One pass: exactly the blocks joined to the chosen ones by an unbroken run of idle DIRTY
      blocks start being written back, and the cleanings under way grow by their number. */
  method Clean(k: Cache, cs: CacheSet, order: seq<nat>, due: bool, thresh: int, force: nat, lim: Limits, size: M.BlockSize, j: nat)
      returns (out: seq<M.Pair>, scanned: nat)
    requires InStep(k, cs, j, None) && k.c.mode == Mode.WriteBack && j < k.c.sets && Sectors(cs.dbn[..])
    requires |k.setFallow| == |k.setDirty| == |k.setCleaning| == k.c.sets && Within(order, cs.bits.Length) && Links.Distinct(order)
    modifies k, k.slots, cs.bits
    ensures InStep(k, cs, j, None) && |out| <= cs.bits.Length && M.ListOk(old(cs.Model()), out)
    ensures var p := old(PassNow(k, j, due, thresh, force, lim));
            var chosen := ToSet(Selected(old(cs.bits[..]), order, p));
            scanned == Tried(old(cs.bits[..]), order, p)
            && forall i: nat {:trigger M.Joined(old(cs.Model()), size, chosen, i)} :: i in Indices(out) <==> M.Joined(old(cs.Model()), size, chosen, i)
    ensures StartedAll(old(k.slots[..]), k.slots[..], cs.start, Indices(out)) && k.steps == old(k.steps) + Cleans(cs.start, out)
    ensures k.cleaning == old(k.cleaning) + |out| && k.setCleaning == BumpAt(old(k.setCleaning), j, |out|)
  {
    ghost var x := cs.Model();
    TidyReached(k.c, k.initial, k.run, k.steps, k.Now(), j, cs.start, cs.jhash, x);
    out, scanned := Gather(cs, order, PassNow(k, j, due, thresh, force, lim), size, Mine(k.c, j));
    WriteOut(k, cs, out, x, j);
  }

  // ----- the limits -----

  /** The blocks joined to the chosen ones. */
  ghost function Runs(x: X.Index, size: M.BlockSize, chosen: set<nat>): set<nat> { set i: nat | i < |x.bits| && M.Joined(x, size, chosen, i) }

  lemma {:induction false} Distinctly(x: X.Index, list: seq<M.Pair>)
    requires M.ListOk(x, list)
    ensures |ToSet(Indices(list))| == |list| <= |x.dbn|
  {
    SlotsAll(list);
    M.Pigeons(list, |x.dbn|);
  }

  /** What a pass adds to the cleanings under way is the length of the runs it has chosen from.
      So the limits hold after it iff those runs fit into the room there was: the blocks chosen
      always do, if there was any, but their neighbours need not. */
  lemma LimitsKept(x: X.Index, order: seq<nat>, p: Pass, lim: Limits, inSet: int, overall: int, size: M.BlockSize, out: seq<M.Pair>)
    requires |x.bits| == |x.dbn| && Within(order, |x.bits|) && Tidy(x.bits) && p.room == Room(lim, inSet, overall) && M.ListOk(x, out)
    requires var chosen := ToSet(Selected(x.bits, order, p));
             forall i: nat {:trigger M.Joined(x, size, chosen, i)} :: i in Indices(out) <==> M.Joined(x, size, chosen, i)
    ensures var runs := Runs(x, size, ToSet(Selected(x.bits, order, p)));
            |out| == |runs| && (inSet + |out| <= lim.perSet && overall + |out| <= lim.total <==> |runs| <= p.room)
    ensures |Selected(x.bits, order, p)| <= Max(p.room, 0)
    ensures var chosen := ToSet(Selected(x.bits, order, p)); chosen <= Runs(x, size, chosen) && |Runs(x, size, chosen)| <= |x.bits|
  {
    var chosen := ToSet(Selected(x.bits, order, p));
    Distinctly(x, out);
    forall i: nat | i in Indices(out) ensures i < |x.bits| { var k :| 0 <= k < |out| && out[k].index == i; }
    assert Runs(x, size, chosen) == ToSet(Indices(out));
    forall i | i in chosen ensures i < |x.bits| && M.Joined(x, size, chosen, i) {
      ChosenThere(x.bits, order, p, i);
      M.JoinedChosen(x, size, chosen, i);
    }
    if |x.bits| > 0 { SelectedFits(x.bits, order, p, 0); }
  }

  lemma ChosenThere(bits: seq<Bits>, order: seq<nat>, p: Pass, i: nat)
    requires Within(order, |bits|) && i in Selected(bits, order, p)
    ensures i < |bits|
  {
    FirstThere(Upto(|bits|), bits, true, Min(p.room, p.fallow), i);
    FirstThere(Ahead(order, Scan(p.dirty, p.thresh, p.force)), MarkedAt(bits, FallowFirst(bits, p)), false, More(bits, p), i);
  }

  lemma {:induction false} FirstThere(q: seq<nat>, bits: seq<Bits>, fallow: bool, room: int, i: nat)
    requires Within(q, |bits|)
    ensures i in First(q, bits, fallow, room) ==> i < |bits|
  {
    if q != [] && room > 0 { FirstThere(q[1..], bits, fallow, if Wanted(bits[q[0]], fallow) then room - 1 else room, i); }
  }

  // ----- and that they can be exceeded -----

  /** The default limits with nothing under way. */
  function Unused(): int { Room(Limits(2, 4), 0, 0) }

  /** The idle DIRTY slots of a set have six consecutive blocks, d and upwards, and slot f is the
      one of them that has gone fallow. */
  ghost predicate IsRow(x: X.Index, size: M.BlockSize, d: nat, row: seq<nat>, f: nat) {
    && |x.bits| == |x.dbn| && |row| == 6 && Within(row, |x.bits|) && d + 5 * size < M.SECTORS
    && (forall k {:trigger row[k]} :: 0 <= k < 6 ==> M.IdleDirty(x.bits[row[k]]) && x.dbn[row[k]] == d + k * size)
    && (forall i: nat {:trigger x.bits[i]} :: i < |x.bits| && M.IdleDirty(x.bits[i]) ==> i in row)
    && (forall i: nat {:trigger x.bits[i]} :: i < |x.bits| ==> (x.bits[i].fallow2 <==> i == f)) && f < |x.bits|
  }

  /** The thresholds a set can have: at least a tenth of at least 256 blocks. */
  lemma ThreshAtLeast(n: nat, pct: nat)
    requires n >= 256 && pct >= 10
    ensures n * pct / 100 >= 25
  {
    assert n * pct >= 256 * pct;
  }

  /** One block is fallow and the set is under its threshold: that block is chosen, alone. */
  lemma OneChosen(x: X.Index, order: seq<nat>, force: nat, thresh: int, size: M.BlockSize, d: nat, row: seq<nat>, f: nat)
    requires IsRow(x, size, d, row, f) && Within(order, |x.bits|) && thresh >= 6
    ensures Selected(x.bits, order, Pass(true, 1, 6, thresh, force, Unused())) == [f]
  {
    var p := Pass(true, 1, 6, thresh, force, Unused());
    var a := First(Upto(|x.bits|), x.bits, true, 1);
    assert Upto(|x.bits|)[f] == f;
    FirstExact(Upto(|x.bits|), x.bits, true, 1, f);
    forall i: nat | i in a ensures i == f {
      FirstThere(Upto(|x.bits|), x.bits, true, 1, i);
      FirstExact(Upto(|x.bits|), x.bits, true, 1, i);
    }
    assert |a| == 1 && a[0] in a && a == [f] && FallowFirst(x.bits, p) == a;
    FirstNone(Ahead(order, Scan(6, thresh, force)), MarkedAt(x.bits, a), false, More(x.bits, p));
  }

  /** From any block of the row all of it is joined. */
  lemma {:induction false} RowJoined(x: X.Index, size: M.BlockSize, d: nat, row: seq<nat>, f: nat, m: nat, k: nat)
    requires IsRow(x, size, d, row, f) && Tidy(x.bits) && m < 6 && k < 6
    ensures M.Joined(x, size, {row[m]}, row[k])
    decreases if k < m then m - k else k - m
  {
    if k == m {
      M.JoinedChosen(x, size, {row[m]}, row[m]);
    } else {
      var h := if k < m then k + 1 else k - 1;
      RowJoined(x, size, d, row, f, m, h);
      assert x.dbn[row[h]] == d + h * size && x.dbn[row[k]] == d + k * size;
      HopInRow(d, size, h, k);
      M.JoinedHop(x, size, {row[m]}, row[h], row[k], k < m);
    }
  }

  lemma HopInRow(d: nat, size: M.BlockSize, h: nat, k: nat)
    requires h < 6 && k < 6 && (k == h + 1 || h == k + 1) && d + 5 * size < M.SECTORS
    ensures d + k * size == M.Next(d + h * size, size, k < h)
  {
    if k < h { assert h * size == k * size + size; } else { assert k * size == h * size + size; }
    assert h * size <= 5 * size && k * size <= 5 * size;
  }

  lemma Higher(size: M.BlockSize, k: nat, l: nat)
    requires k < l
    ensures k * size < l * size
  {
    assert l * size == k * size + (l - k) * size && (l - k) * size > 0;
  }

  lemma {:induction false} JoinedInRow(x: X.Index, size: M.BlockSize, d: nat, row: seq<nat>, f: nat, i: nat)
    requires IsRow(x, size, d, row, f) && f in row && M.Joined(x, size, {f}, i)
    ensures i in row
  {
    var q :| M.IsPath(x, size, {f}, q) && q[|q| - 1] == i;
    if |q| > 1 { assert M.HopAt(x, size, q, |q| - 2); }
  }

  lemma RowOfSix(x: X.Index, size: M.BlockSize, d: nat, row: seq<nat>, f: nat)
    requires IsRow(x, size, d, row, f)
    ensures |ToSet(row)| == 6
  {
    forall k, l | 0 <= k < l < 6 ensures row[k] != row[l] {
      Higher(size, k, l);
      assert x.dbn[row[k]] == d + k * size && x.dbn[row[l]] == d + l * size;
    }
    assert ToSet(row) == {row[0], row[1], row[2], row[3], row[4], row[5]};
  }

  /** So in every set whose idle DIRTY blocks are six in a row, one of them fallow, a pass under
      the default limits, with nothing under way and whatever is asked for, chooses one block and
      writes back all six, beyond both limits. */
  lemma SixStart(jhash: nat -> nat, mine: nat -> bool, x: X.Index, order: seq<nat>, pct: nat, force: nat, size: M.BlockSize, d: nat, row: seq<nat>, f: nat, out: seq<M.Pair>)
    requires X.Consistent(jhash, mine, x, None) && |x.bits| >= 256 && Tidy(x.bits) && IsRow(x, size, d, row, f) && Within(order, |x.bits|) && pct >= 10
    requires M.ListOk(x, out)
    requires var chosen := ToSet(Selected(x.bits, order, Pass(true, 1, 6, |x.bits| * pct / 100, force, Unused())));
             forall i: nat {:trigger M.Joined(x, size, chosen, i)} :: i in Indices(out) <==> M.Joined(x, size, chosen, i)
    ensures Selected(x.bits, order, Pass(true, 1, 6, |x.bits| * pct / 100, force, Unused())) == [f]
    ensures |out| == 6 && ToSet(Indices(out)) == ToSet(row)
  {
    ThreshAtLeast(|x.bits|, pct);
    OneChosen(x, order, force, |x.bits| * pct / 100, size, d, row, f);
    assert ToSet([f]) == {f} && x.bits[f].fallow2 && f in row;
    var m :| 0 <= m < 6 && row[m] == f;
    forall i: nat ensures i in Indices(out) <==> i in row {
      if i in row {
        var k :| 0 <= k < 6 && row[k] == i;
        RowJoined(x, size, d, row, f, m, k);
      }
      if i in Indices(out) { JoinedInRow(x, size, d, row, f, i); }
    }
    assert ToSet(Indices(out)) == ToSet(row);
    RowOfSix(x, size, d, row, f);
    Distinctly(x, out);
  }

  const DIRTY := VALID.(dirty := true)
  const FALLOW := DIRTY.(fallow1 := true, fallow2 := true)

  function RowBits(n: nat): seq<Bits> { seq(n, i => if i == 0 then FALLOW else if i < 6 then DIRTY else INVALID) }
  function RowBlocks(n: nat, d: nat, size: nat): seq<nat> { seq<nat>(n, i requires 0 <= i => if i < 6 then d + i * size else 0) }

  lemma RowIndexable(mine: nat -> bool, n: nat, d: nat, size: M.BlockSize)
    requires 6 <= n <= Links.NULL && forall k: nat {:trigger k * size} :: k < 6 ==> mine(d + k * size)
    ensures X.Indexable(mine, RowBits(n), RowBlocks(n, d, size)) && Tidy(RowBits(n))
  {
    var bits, dbn := RowBits(n), RowBlocks(n, d, size);
    forall i, j | 0 <= i < j < |bits| && bits[i].valid && bits[j].valid ensures dbn[i] != dbn[j] { Higher(size, i, j); }
  }

  /** Every size of set can be like that, whatever six consecutive blocks of it there are. */
  lemma RowExists(jhash: nat -> nat, mine: nat -> bool, n: nat, d: nat, size: M.BlockSize) returns (x: X.Index, row: seq<nat>)
    requires 256 <= n <= Links.NULL && d + 5 * size < M.SECTORS && forall k: nat {:trigger k * size} :: k < 6 ==> mine(d + k * size)
    ensures X.Consistent(jhash, mine, x, None) && |x.bits| == n && Tidy(x.bits) && IsRow(x, size, d, row, 0)
  {
    RowIndexable(mine, n, d, size);
    X.BuiltConsistent(jhash, mine, RowBits(n), RowBlocks(n, d, size));
    x, row := X.Built(jhash, RowBits(n), RowBlocks(n, d, size), n), Upto(6);
    IsRowBits(x, n, d, size);
  }

  lemma IsRowBits(x: X.Index, n: nat, d: nat, size: M.BlockSize)
    requires n >= 6 && x.bits == RowBits(n) && x.dbn == RowBlocks(n, d, size) && d + 5 * size < M.SECTORS
    ensures IsRow(x, size, d, Upto(6), 0)
  {
    forall i: nat | i < |x.bits| && M.IdleDirty(x.bits[i]) ensures i in Upto(6) { assert i < 6 && Upto(6)[i] == i; }
  }
}
