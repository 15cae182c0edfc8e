/** Victim choice of one cache set, in place: the FIFO cursor, and the hot and warm LRU
    lists threaded through lru_prev/lru_next by indices relative to the set's first slot. */
module LruLists {
  import opened Types
  import opened Links
  import opened LruSpec

  const HOT := 0
  const WARM := 1

  function ListOf(warm: bool): nat { if warm then WARM else HOT }

  /** The tails of the two lists. */
  ghost predicate Measured(tails: seq<int>, lists: seq<seq<nat>>) {
    |lists| == |tails| == 2 && forall n {:trigger lists[n]} :: 0 <= n < 2 ==> tails[n] == Last(NULL, lists[n])
  }

  /** Each listed slot's flag names its list. */
  ghost predicate Flagged(warm: seq<bool>, home: seq<int>) {
    |warm| == |home| && forall i {:trigger home[i]} :: 0 <= i < |home| && home[i] != -1 ==> home[i] == ListOf(warm[i])
  }

  ghost predicate Kept(next: seq<int>, prev: seq<int>, warm: seq<bool>, heads: seq<int>, tails: seq<int>,
                       lists: seq<seq<nat>>, home: seq<int>) {
    Strung(NULL, next, prev, heads, lists) && Homed(lists, home) && Measured(tails, lists) && Flagged(warm, home) && |home| == |next|
  }

  lemma FlaggedPut(warm: seq<bool>, home: seq<int>, x: nat)
    requires Flagged(warm, home) && x < |home|
    ensures Flagged(warm, home[x := ListOf(warm[x])]) && Flagged(warm, home[x := -1])
  {
  }

  lemma MeasuredGrow(tails: seq<int>, lists: seq<seq<nat>>, n: nat, x: nat)
    requires Measured(tails, lists) && n < 2
    ensures Measured(tails[n := if lists[n] == [] then x else tails[n]], lists[n := [x] + lists[n]])
    ensures Measured(tails[n := x], lists[n := lists[n] + [x]])
  {
  }

  /** A slot can be put on the list its flag names. */
  lemma Empties(next: seq<int>, prev: seq<int>, heads: seq<int>, tails: seq<int>, lists: seq<seq<nat>>, home: seq<int>, n: nat, x: nat)
    requires Strung(NULL, next, prev, heads, lists) && Homed(lists, home) && Measured(tails, lists) && n < 2
    requires x < |home| == |next| && home[x] == -1
    ensures (heads[n] == NULL <==> lists[n] == []) && (tails[n] == NULL <==> lists[n] == [])
    ensures (heads[n] == NULL || 0 <= heads[n] < |next|) && (tails[n] == NULL || 0 <= tails[n] < |next|)
    ensures heads[n] != x && tails[n] != x && tails[n] == Last(NULL, lists[n])
  {
    Indices(NULL, next, prev, lists[n]);
    NoHome(lists, home, n, x);
  }

  lemma Unlisted(next: seq<int>, prev: seq<int>, lists: seq<seq<nat>>, home: seq<int>, n: nat, x: nat)
    requires Homed(lists, home) && n < |lists| && x in lists[n] && Threaded(NULL, next, prev, lists[n])
    ensures x < |next| && home[x] == n && (prev[x] == NULL || 0 <= prev[x] < |next|) && (next[x] == NULL || 0 <= next[x] < |next|)
    ensures prev[x] != x && next[x] != x
  {
    var k := Position(lists[n], x);
    LinkBounds(NULL, next, prev, lists[n], k);
    assert home[lists[n][k]] == n;
  }

  lemma MeasuredShrink(next: seq<int>, prev: seq<int>, tails: seq<int>, lists: seq<seq<nat>>, n: nat, x: nat)
    requires Measured(tails, lists) && n < 2 && x in lists[n] && Threaded(NULL, next, prev, lists[n])
    ensures x < |next| && Measured(tails[n := if next[x] == NULL then prev[x] else tails[n]], lists[n := Delete(lists[n], x)])
  {
    var k := Position(lists[n], x);
    DeleteIsWithout(lists[n], k);
    RemoveEnds(NULL, next, prev, lists[n], k);
    OneMeasured(tails, lists, n, if next[x] == NULL then prev[x] else tails[n], Delete(lists[n], x));
  }

  lemma OneMeasured(tails: seq<int>, lists: seq<seq<nat>>, n: nat, tail: int, l: seq<nat>)
    requires Measured(tails, lists) && n < 2 && tail == Last(NULL, l)
    ensures Measured(tails[n := tail], lists[n := l])
  {
  }

  function Pair(hot: int, warm: int): seq<int> { [hot, warm] }

  /** The end marks of the two lists after one of them changes. */
  function Put(hot: int, warm: int, w: bool, x: int): seq<int> { if w then Pair(hot, x) else Pair(x, warm) }

  lemma PutIs(hot: int, warm: int, w: bool, x: int)
    ensures Pair(hot, warm)[ListOf(w) := x] == Put(hot, warm, w, x)
    ensures Pair(hot, warm)[ListOf(w)] == if w then warm else hot
  {
  }

  /** Taking slot x off its list, pushing it on the LRU end of the list its flag names, and
      appending it at the MRU end. */
  lemma RemoveParts(next: seq<int>, prev: seq<int>, warm: seq<bool>, hh: int, wh: int, ht: int, wt: int,
                    lists: seq<seq<nat>>, home: seq<int>, x: nat)
    requires Kept(next, prev, warm, Pair(hh, wh), Pair(ht, wt), lists, home) && x < |home| && home[x] != -1
    ensures home[x] == ListOf(warm[x]) && x in lists[home[x]] && |next| == |prev|
    ensures (prev[x] == NULL || 0 <= prev[x] < |next|) && (next[x] == NULL || 0 <= next[x] < |next|) && prev[x] != x && next[x] != x
    ensures Kept(NextCut(NULL, next, prev, x), PrevCut(NULL, next, prev, x), warm,
                 Put(hh, wh, warm[x], if prev[x] == NULL then next[x] else if warm[x] then wh else hh),
                 Put(ht, wt, warm[x], if next[x] == NULL then prev[x] else if warm[x] then wt else ht),
                 lists[ListOf(warm[x]) := Delete(lists[ListOf(warm[x])], x)], home[x := -1])
    ensures |Delete(lists[ListOf(warm[x])], x)| == |lists[ListOf(warm[x])]| - 1
  {
    var n := home[x];
    assert Listed(lists, home, x);
    var k := Position(lists[n], x);
    Unlisted(next, prev, lists, home, n, x);
    DeleteIsWithout(lists[n], k);
    CutStrung(NULL, next, prev, Pair(hh, wh), lists, home, n, k);
    RemoveHomed(lists, home, n, k);
    MeasuredShrink(next, prev, Pair(ht, wt), lists, n, x);
    FlaggedPut(warm, home, x);
    PutIs(hh, wh, warm[x], HeadRemoved(NULL, Pair(hh, wh)[n], next, prev, x));
    PutIs(ht, wt, warm[x], if next[x] == NULL then prev[x] else Pair(ht, wt)[n]);
  }

  lemma PushParts(next: seq<int>, prev: seq<int>, warm: seq<bool>, hh: int, wh: int, ht: int, wt: int,
                  lists: seq<seq<nat>>, home: seq<int>, x: nat)
    requires Kept(next, prev, warm, Pair(hh, wh), Pair(ht, wt), lists, home) && x < |home| && home[x] == -1
    ensures var head := if warm[x] then wh else hh;
      && |next| == |prev| && (head == NULL || 0 <= head < |next|)
      && Kept(NextPushed(next, head, x), PrevPushed(NULL, prev, head, x), warm, Put(hh, wh, warm[x], x),
              Put(ht, wt, warm[x], if head == NULL then x else if warm[x] then wt else ht),
              lists[ListOf(warm[x]) := [x] + lists[ListOf(warm[x])]], home[x := ListOf(warm[x])])
  {
    var n := ListOf(warm[x]);
    Empties(next, prev, Pair(hh, wh), Pair(ht, wt), lists, home, n, x);
    PushStrung(NULL, next, prev, Pair(hh, wh), lists, home, n, x);
    PushHomed(lists, home, n, x, [x] + lists[n]);
    MeasuredGrow(Pair(ht, wt), lists, n, x);
    FlaggedPut(warm, home, x);
    PutIs(hh, wh, warm[x], x);
    PutIs(ht, wt, warm[x], if lists[n] == [] then x else Pair(ht, wt)[n]);
  }

  lemma AppendParts(next: seq<int>, prev: seq<int>, warm: seq<bool>, hh: int, wh: int, ht: int, wt: int,
                    lists: seq<seq<nat>>, home: seq<int>, x: nat)
    requires Kept(next, prev, warm, Pair(hh, wh), Pair(ht, wt), lists, home) && x < |home| && home[x] == -1
    ensures var tail := if warm[x] then wt else ht;
      && |next| == |prev| && (tail == NULL || 0 <= tail < |next|)
      && Kept(NextAppended(NULL, next, tail, x), PrevAppended(prev, tail, x), warm,
              Put(hh, wh, warm[x], if tail == NULL then x else if warm[x] then wh else hh), Put(ht, wt, warm[x], x),
              lists[ListOf(warm[x]) := lists[ListOf(warm[x])] + [x]], home[x := ListOf(warm[x])])
  {
    var n := ListOf(warm[x]);
    Empties(next, prev, Pair(hh, wh), Pair(ht, wt), lists, home, n, x);
    AppendStrung(NULL, next, prev, Pair(hh, wh), lists, home, n, x);
    PushHomed(lists, home, n, x, lists[n] + [x]);
    MeasuredGrow(Pair(ht, wt), lists, n, x);
    FlaggedPut(warm, home, x);
    PutIs(hh, wh, warm[x], if lists[n] == [] then x else Pair(hh, wh)[n]);
    PutIs(ht, wt, warm[x], x);
  }

  class ReclaimSet {
    const start: nat            // global index of slot 0
    const bits: array<Bits>
    const lruPrev: array<int>
    const lruNext: array<int>
    const isWarm: array<bool>   // lru_state, LRU_WARM or LRU_HOT
    const useCnt: array<nat>
    var hotHead: int
    var hotTail: int
    var warmHead: int
    var warmTail: int
    var hotBlocks: int
    var warmBlocks: int
    var hotPct: nat
    var fifoNext: nat
    ghost var lists: seq<seq<nat>>
    ghost var home: seq<int>

    ghost predicate Valid()
      reads this, lruPrev, lruNext, isWarm, useCnt
    {
      && lruPrev != lruNext && bits.Length == lruPrev.Length == lruNext.Length == isWarm.Length == useCnt.Length == |home|
      && Kept(lruNext[..], lruPrev[..], isWarm[..], Pair(hotHead, warmHead), Pair(hotTail, warmTail), lists, home)
      && hotBlocks == |lists[HOT]| && warmBlocks == |lists[WARM]|
    }

    ghost function Model(): Lru
      reads this, useCnt
      requires |lists| == 2
    {
      Lru(lists[HOT], lists[WARM], useCnt[..])
    }

    /** On top of the links: each slot is on exactly one list. */
    ghost predicate Balanced()
      reads this, lruPrev, lruNext, isWarm, useCnt
    {
      Valid() && Split(Model(), bits.Length)
    }

    /** A set whose slots have just been zeroed: on no list yet. */
    constructor (start: nat, bits: array<Bits>, hotPct: nat)
      requires bits.Length <= NULL && hotPct <= 100
      ensures Valid() && lists == [[], []] && home == seq(bits.Length, k => -1) && useCnt[..] == seq(bits.Length, k => 0)
      ensures this.start == start && this.bits == bits && this.hotPct == hotPct && fifoNext == 0
      ensures fresh(lruPrev) && fresh(lruNext) && fresh(isWarm) && fresh(useCnt)
    {
      this.start, this.bits, this.hotPct, fifoNext := start, bits, hotPct, 0;
      lruPrev := new int[bits.Length](k => NULL);
      lruNext := new int[bits.Length](k => NULL);
      isWarm := new bool[bits.Length](k => false);
      useCnt := new nat[bits.Length](k => 0);
      hotHead, hotTail, warmHead, warmTail, hotBlocks, warmBlocks := NULL, NULL, NULL, NULL, 0, 0;
      lists, home := [[], []], seq(bits.Length, k => -1);
    }

    /** flashcache_reclaim_init_lru_lists, for one set */
    method InitLruLists()
      requires Valid() && lists == [[], []] && home == seq(bits.Length, k => -1) && useCnt[..] == seq(bits.Length, k => 0) && hotPct <= 100
      modifies lruPrev, lruNext, isWarm, `hotHead, `hotTail, `warmHead, `warmTail, `hotBlocks, `warmBlocks, `lists, `home
      ensures Balanced() && Model() == Initial(bits.Length, hotPct)
    {
      var hotShare := bits.Length * hotPct / 100;
      ShareFits(bits.Length, hotPct);
      InitialSplit(bits.Length, hotPct);
      FillHot(hotShare);
      FillWarm(hotShare);
    }

    method FillHot(count: nat)
      requires Valid() && lists == [[], []] && count <= bits.Length && forall k {:trigger home[k]} :: 0 <= k < bits.Length ==> home[k] == -1
      modifies lruPrev, lruNext, isWarm, `hotHead, `hotTail, `warmHead, `warmTail, `hotBlocks, `warmBlocks, `lists, `home
      ensures Valid() && lists[HOT] == Downward(0, count) && lists[WARM] == []
      ensures forall k {:trigger home[k]} :: count <= k < bits.Length ==> home[k] == -1
    {
      var j := 0;
      while j < count
        invariant 0 <= j <= count && Valid() && lists[HOT] == Downward(0, j) && lists[WARM] == []
        invariant forall k {:trigger home[k]} :: j <= k < bits.Length ==> home[k] == -1
      {
        Mark(j, false);
        AddLruHot(j);
        j := j + 1;
      }
    }

    method FillWarm(from: nat)
      requires Valid() && lists[WARM] == [] && from <= bits.Length && forall k {:trigger home[k]} :: from <= k < bits.Length ==> home[k] == -1
      modifies lruPrev, lruNext, isWarm, `hotHead, `hotTail, `warmHead, `warmTail, `hotBlocks, `warmBlocks, `lists, `home
      ensures Valid() && lists[HOT] == old(lists)[HOT] && lists[WARM] == Downward(from, bits.Length)
    {
      var j := from;
      while j < bits.Length
        invariant from <= j <= bits.Length && Valid() && lists[HOT] == old(lists)[HOT] && lists[WARM] == Downward(from, j)
        invariant forall k {:trigger home[k]} :: j <= k < bits.Length ==> home[k] == -1
      {
        Mark(j, true);
        AddLruWarm(j);
        j := j + 1;
      }
    }

    method Mark(ix: nat, warm: bool)
      requires Valid() && ix < bits.Length && home[ix] == -1
      modifies isWarm
      ensures Valid() && isWarm[..] == old(isWarm[..])[ix := warm]
    {
      isWarm[ix] := warm;
      assert Flagged(isWarm[..], home);
    }

    // ----- the link updates, and the list operations made of them -----

    method Unlink(ix: nat)
      requires lruPrev != lruNext && ix < lruPrev.Length == lruNext.Length
      requires (lruPrev[ix] == NULL || 0 <= lruPrev[ix] < lruNext.Length) && (lruNext[ix] == NULL || 0 <= lruNext[ix] < lruNext.Length)
      requires lruPrev[ix] != ix && lruNext[ix] != ix
      modifies lruPrev, lruNext
      ensures lruNext[..] == NextCut(NULL, old(lruNext[..]), old(lruPrev[..]), ix) && lruPrev[..] == PrevCut(NULL, old(lruNext[..]), old(lruPrev[..]), ix)
    {
      if lruPrev[ix] != NULL { lruNext[lruPrev[ix]] := lruNext[ix]; }
      if lruNext[ix] != NULL { lruPrev[lruNext[ix]] := lruPrev[ix]; }
    }

    method LinkAfter(ix: nat, tail: int)
      requires lruPrev != lruNext && ix < lruPrev.Length == lruNext.Length && (tail == NULL || 0 <= tail < lruNext.Length)
      modifies lruPrev, lruNext
      ensures lruNext[..] == NextAppended(NULL, old(lruNext[..]), tail, ix) && lruPrev[..] == PrevAppended(old(lruPrev[..]), tail, ix)
    {
      lruNext[ix] := NULL;
      lruPrev[ix] := tail;
      if tail != NULL { lruNext[tail] := ix; }
    }

    method LinkBefore(ix: nat, head: int)
      requires lruPrev != lruNext && ix < lruPrev.Length == lruNext.Length && (head == NULL || 0 <= head < lruNext.Length)
      modifies lruPrev, lruNext
      ensures lruNext[..] == NextPushed(old(lruNext[..]), head, ix) && lruPrev[..] == PrevPushed(NULL, old(lruPrev[..]), head, ix)
    {
      lruPrev[ix] := NULL;
      lruNext[ix] := head;
      if head != NULL { lruPrev[head] := ix; }
    }

    method RemoveWarm(ix: nat)
      requires Valid() && ix < bits.Length && isWarm[ix] && home[ix] != -1
      modifies lruPrev, lruNext, `hotHead, `hotTail, `warmHead, `warmTail, `hotBlocks, `warmBlocks, `lists, `home
      ensures old(home)[ix] == WARM && ix in old(lists)[WARM]
      ensures Valid() && home == old(home)[ix := -1] && lists == old(lists)[WARM := Delete(old(lists)[WARM], ix)]
    {
      RemoveParts(lruNext[..], lruPrev[..], isWarm[..], hotHead, warmHead, hotTail, warmTail, lists, home, ix);
      var before, after := lruPrev[ix], lruNext[ix];
      Unlink(ix);
      warmHead := if before == NULL then after else warmHead;
      warmTail := if after == NULL then before else warmTail;
      warmBlocks := warmBlocks - 1;
      lists, home := lists[WARM := Delete(lists[WARM], ix)], home[ix := -1];
      assert warmBlocks == |lists[WARM]| && hotBlocks == |lists[HOT]|;
      assert Kept(lruNext[..], lruPrev[..], isWarm[..], Pair(hotHead, warmHead), Pair(hotTail, warmTail), lists, home);
    }

    method RemoveHot(ix: nat)
      requires Valid() && ix < bits.Length && !isWarm[ix] && home[ix] != -1
      modifies lruPrev, lruNext, `hotHead, `hotTail, `warmHead, `warmTail, `hotBlocks, `warmBlocks, `lists, `home
      ensures old(home)[ix] == HOT && ix in old(lists)[HOT]
      ensures Valid() && home == old(home)[ix := -1] && lists == old(lists)[HOT := Delete(old(lists)[HOT], ix)]
    {
      RemoveParts(lruNext[..], lruPrev[..], isWarm[..], hotHead, warmHead, hotTail, warmTail, lists, home, ix);
      var before, after := lruPrev[ix], lruNext[ix];
      Unlink(ix);
      hotHead := if before == NULL then after else hotHead;
      hotTail := if after == NULL then before else hotTail;
      hotBlocks := hotBlocks - 1;
      lists, home := lists[HOT := Delete(lists[HOT], ix)], home[ix := -1];
      assert warmBlocks == |lists[WARM]| && hotBlocks == |lists[HOT]|;
      assert Kept(lruNext[..], lruPrev[..], isWarm[..], Pair(hotHead, warmHead), Pair(hotTail, warmTail), lists, home);
    }

    method AddMruWarm(ix: nat)
      requires Valid() && ix < bits.Length && isWarm[ix] && home[ix] == -1
      modifies lruPrev, lruNext, `hotHead, `hotTail, `warmHead, `warmTail, `hotBlocks, `warmBlocks, `lists, `home
      ensures Valid() && home == old(home)[ix := WARM] && lists == old(lists)[WARM := old(lists)[WARM] + [ix]]
    {
      AppendParts(lruNext[..], lruPrev[..], isWarm[..], hotHead, warmHead, hotTail, warmTail, lists, home, ix);
      LinkAfter(ix, warmTail);
      if warmTail == NULL { warmHead := ix; }
      warmTail := ix;
      warmBlocks := warmBlocks + 1;
      lists, home := lists[WARM := lists[WARM] + [ix]], home[ix := WARM];
      assert warmBlocks == |lists[WARM]| && hotBlocks == |lists[HOT]|;
      assert Kept(lruNext[..], lruPrev[..], isWarm[..], Pair(hotHead, warmHead), Pair(hotTail, warmTail), lists, home);
    }

    method AddMruHot(ix: nat)
      requires Valid() && ix < bits.Length && !isWarm[ix] && home[ix] == -1
      modifies lruPrev, lruNext, `hotHead, `hotTail, `warmHead, `warmTail, `hotBlocks, `warmBlocks, `lists, `home
      ensures Valid() && home == old(home)[ix := HOT] && lists == old(lists)[HOT := old(lists)[HOT] + [ix]]
    {
      AppendParts(lruNext[..], lruPrev[..], isWarm[..], hotHead, warmHead, hotTail, warmTail, lists, home, ix);
      LinkAfter(ix, hotTail);
      if hotTail == NULL { hotHead := ix; }
      hotTail := ix;
      hotBlocks := hotBlocks + 1;
      lists, home := lists[HOT := lists[HOT] + [ix]], home[ix := HOT];
      assert warmBlocks == |lists[WARM]| && hotBlocks == |lists[HOT]|;
      assert Kept(lruNext[..], lruPrev[..], isWarm[..], Pair(hotHead, warmHead), Pair(hotTail, warmTail), lists, home);
    }

    method AddLruWarm(ix: nat)
      requires Valid() && ix < bits.Length && isWarm[ix] && home[ix] == -1
      modifies lruPrev, lruNext, `hotHead, `hotTail, `warmHead, `warmTail, `hotBlocks, `warmBlocks, `lists, `home
      ensures Valid() && home == old(home)[ix := WARM] && lists == old(lists)[WARM := [ix] + old(lists)[WARM]]
    {
      PushParts(lruNext[..], lruPrev[..], isWarm[..], hotHead, warmHead, hotTail, warmTail, lists, home, ix);
      LinkBefore(ix, warmHead);
      if warmHead == NULL { warmTail := ix; }
      warmHead := ix;
      warmBlocks := warmBlocks + 1;
      lists, home := lists[WARM := [ix] + lists[WARM]], home[ix := WARM];
      assert warmBlocks == |lists[WARM]| && hotBlocks == |lists[HOT]|;
      assert Kept(lruNext[..], lruPrev[..], isWarm[..], Pair(hotHead, warmHead), Pair(hotTail, warmTail), lists, home);
    }

    method AddLruHot(ix: nat)
      requires Valid() && ix < bits.Length && !isWarm[ix] && home[ix] == -1
      modifies lruPrev, lruNext, `hotHead, `hotTail, `warmHead, `warmTail, `hotBlocks, `warmBlocks, `lists, `home
      ensures Valid() && home == old(home)[ix := HOT] && lists == old(lists)[HOT := [ix] + old(lists)[HOT]]
    {
      PushParts(lruNext[..], lruPrev[..], isWarm[..], hotHead, warmHead, hotTail, warmTail, lists, home, ix);
      LinkBefore(ix, hotHead);
      if hotHead == NULL { hotTail := ix; }
      hotHead := ix;
      hotBlocks := hotBlocks + 1;
      lists, home := lists[HOT := [ix] + lists[HOT]], home[ix := HOT];
      assert warmBlocks == |lists[WARM]| && hotBlocks == |lists[HOT]|;
      assert Kept(lruNext[..], lruPrev[..], isWarm[..], Pair(hotHead, warmHead), Pair(hotTail, warmTail), lists, home);
    }

    /** flashcache_reclaim_remove_block_from_list */
    method Remove(ix: nat)
      requires Valid() && ix < bits.Length && home[ix] != -1
      modifies lruPrev, lruNext, `hotHead, `hotTail, `warmHead, `warmTail, `hotBlocks, `warmBlocks, `lists, `home
      ensures old(home)[ix] == ListOf(isWarm[ix]) && ix in old(lists)[ListOf(isWarm[ix])]
      ensures Valid() && home == old(home)[ix := -1] && lists == old(lists)[ListOf(isWarm[ix]) := Delete(old(lists)[ListOf(isWarm[ix])], ix)]
    {
      if isWarm[ix] { RemoveWarm(ix); } else { RemoveHot(ix); }
    }

    /** flashcache_reclaim_add_block_to_list_mru */
    method AddMru(ix: nat)
      requires Valid() && ix < bits.Length && home[ix] == -1
      modifies lruPrev, lruNext, `hotHead, `hotTail, `warmHead, `warmTail, `hotBlocks, `warmBlocks, `lists, `home
      ensures Valid() && home == old(home)[ix := ListOf(isWarm[ix])] && lists == old(lists)[ListOf(isWarm[ix]) := old(lists)[ListOf(isWarm[ix])] + [ix]]
    {
      if isWarm[ix] { AddMruWarm(ix); } else { AddMruHot(ix); }
    }

    /** flashcache_reclaim_add_block_to_list_lru */
    method AddLru(ix: nat)
      requires Valid() && ix < bits.Length && home[ix] == -1
      modifies lruPrev, lruNext, `hotHead, `hotTail, `warmHead, `warmTail, `hotBlocks, `warmBlocks, `lists, `home
      ensures Valid() && home == old(home)[ix := ListOf(isWarm[ix])] && lists == old(lists)[ListOf(isWarm[ix]) := [ix] + old(lists)[ListOf(isWarm[ix])]]
    {
      if isWarm[ix] { AddLruWarm(ix); } else { AddLruHot(ix); }
    }

    /** flashcache_reclaim_move_to_mru */
    method MoveToMru(ix: nat)
      requires Balanced() && ix < bits.Length
      modifies lruPrev, lruNext, `hotHead, `hotTail, `warmHead, `warmTail, `hotBlocks, `warmBlocks, `lists, `home
      ensures Balanced() && Model() == LruSpec.MoveToMru(old(Model()), ix)
    {
      Whereabouts(ix);
      MoveToMruKeeps(Model(), bits.Length, ix);
      Remove(ix);
      AddMru(ix);
    }

    /** A slot on a list is where its flag says. */
    lemma Whereabouts(ix: nat)
      requires Balanced() && ix < bits.Length
      ensures home[ix] == ListOf(isWarm[ix]) && (ix in lists[WARM] <==> isWarm[ix]) && (ix in lists[HOT] <==> !isWarm[ix])
    {
      OnList(Model(), bits.Length, ix);
      if ix in lists[WARM] { assert home[lists[WARM][Position(lists[WARM], ix)]] == WARM; }
      if ix in lists[HOT] { assert home[lists[HOT][Position(lists[HOT], ix)]] == HOT; }
    }

    /** An unlisted slot changes lists. */
    method Switch(ix: nat, warm: bool)
      requires Valid() && ix < bits.Length && home[ix] == -1
      modifies isWarm, useCnt
      ensures Valid() && isWarm[..] == old(isWarm[..])[ix := warm] && useCnt[..] == old(useCnt[..])[ix := 0]
    {
      Mark(ix, warm);
      useCnt[ix] := 0;
    }

    /** The hot slot h goes to the MRU end of the warm list, the warm slot w to the LRU end
        of the hot one. */
    method Swap(h: nat, w: nat)
      requires Valid() && h < bits.Length && w < bits.Length && home[h] == HOT && home[w] == WARM
      modifies lruPrev, lruNext, isWarm, useCnt, `hotHead, `hotTail, `warmHead, `warmTail, `hotBlocks, `warmBlocks, `lists, `home
      ensures h in old(lists)[HOT] && w in old(lists)[WARM]
      ensures Valid() && lists == [[w] + Delete(old(lists)[HOT], h), Delete(old(lists)[WARM], w) + [h]]
      ensures useCnt[..] == old(useCnt[..])[h := 0][w := 0]
    {
      RemoveHot(h);
      RemoveWarm(w);
      Switch(h, true);
      AddMruWarm(h);
      Switch(w, false);
      AddLruHot(w);
    }

    /** flashcache_reclaim_promote_block */
    method PromoteBlock(ix: nat) returns (done: bool)
      requires Balanced() && ix < bits.Length && isWarm[ix]
      modifies lruPrev, lruNext, isWarm, useCnt, `hotHead, `hotTail, `warmHead, `warmTail, `hotBlocks, `warmBlocks, `lists, `home
      ensures Balanced() && done == (old(lists)[HOT] != []) && ix in old(lists)[WARM]
      ensures done ==> old(lists)[HOT][0] < bits.Length && Model() == Promote(old(Model()), ix)
      ensures !done ==> Model() == old(Model()) && isWarm[..] == old(isWarm[..])
    {
      Whereabouts(ix);
      Indices(NULL, lruNext[..], lruPrev[..], lists[HOT]);
      if hotHead == NULL { return false; }
      var hotBlock := hotHead;
      Whereabouts(hotBlock);
      PromoteKeeps(Model(), bits.Length, ix);
      Swap(hotBlock, ix);
      assert useCnt[..] == old(useCnt[..])[ix := 0][hotBlock := 0];
      assert Model() == Promote(old(Model()), ix);
      return true;
    }

    /** flashcache_reclaim_demote_block */
    method DemoteBlock(ix: nat) returns (done: bool)
      requires Balanced() && ix < bits.Length && !isWarm[ix]
      modifies lruPrev, lruNext, isWarm, useCnt, `hotHead, `hotTail, `warmHead, `warmTail, `hotBlocks, `warmBlocks, `lists, `home
      ensures Balanced() && done == (old(lists)[WARM] != []) && ix in old(lists)[HOT]
      ensures done ==> old(lists)[WARM][|old(lists)[WARM]| - 1] < bits.Length && Model() == Demote(old(Model()), ix)
      ensures !done ==> Model() == old(Model()) && isWarm[..] == old(isWarm[..])
    {
      Whereabouts(ix);
      Indices(NULL, lruNext[..], lruPrev[..], lists[WARM]);
      if warmTail == NULL { return false; }
      var warmBlock := warmTail;
      Whereabouts(warmBlock);
      DemoteKeeps(Model(), bits.Length, ix);
      Swap(ix, warmBlock);
      assert Model() == Demote(old(Model()), ix);
      return true;
    }

    /** flashcache_lru_accessed */
    method Accessed(ix: nat, threshold: int)
      requires Balanced() && ix < bits.Length
      modifies lruPrev, lruNext, isWarm, useCnt, `hotHead, `hotTail, `warmHead, `warmTail, `hotBlocks, `warmBlocks, `lists, `home
      ensures old(lists)[HOT] != [] ==> old(lists)[HOT][0] < bits.Length
      ensures Balanced() && Model() == LruSpec.Accessed(old(Model()), ix, bits[ix], threshold)
    {
      Whereabouts(ix);
      Indices(NULL, lruNext[..], lruPrev[..], lists[HOT]);
      if !isWarm[ix] || bits[ix] == INVALID {
        MoveToMru(ix);
      } else {
        AccessWarm(ix, threshold);
      }
    }

    method AccessWarm(ix: nat, threshold: int)
      requires Balanced() && ix < bits.Length && isWarm[ix] && ix in lists[WARM] && ix !in lists[HOT]
      requires bits[ix] != INVALID && (lists[HOT] != [] ==> lists[HOT][0] < bits.Length)
      modifies lruPrev, lruNext, isWarm, useCnt, `hotHead, `hotTail, `warmHead, `warmTail, `hotBlocks, `warmBlocks, `lists, `home
      ensures Balanced() && Model() == LruSpec.Accessed(old(Model()), ix, bits[ix], threshold)
    {
      CountUse(ix);
      if useCnt[ix] < threshold { MoveToMru(ix); } else { PromoteOrMove(ix); }
    }

    method PromoteOrMove(ix: nat)
      requires Balanced() && ix < bits.Length && isWarm[ix]
      modifies lruPrev, lruNext, isWarm, useCnt, `hotHead, `hotTail, `warmHead, `warmTail, `hotBlocks, `warmBlocks, `lists, `home
      ensures ix in old(lists)[WARM] && (old(lists)[HOT] != [] ==> old(lists)[HOT][0] < bits.Length)
      ensures Balanced() && Model() == if old(lists)[HOT] == [] then LruSpec.MoveToMru(old(Model()), ix) else Promote(old(Model()), ix)
    {
      var done := PromoteBlock(ix);
      if !done { MoveToMru(ix); }
    }

    method CountUse(ix: nat)
      requires Balanced() && ix < bits.Length && ix in lists[WARM] && ix !in lists[HOT]
      modifies useCnt
      ensures Balanced() && Model() == Counted(old(Model()), ix)
    {
      ghost var was := Model();
      useCnt[ix] := (useCnt[ix] + 1) % 256;
      SameMembers(was, Model(), bits.Length);
    }

    /** flashcache_reclaim_lru_get_old_block: the global index of the victim, or -1. */
    method LruGetOldBlock() returns (index: int)
      requires Balanced()
      modifies lruPrev, lruNext, isWarm, useCnt, `hotHead, `hotTail, `warmHead, `warmTail, `hotBlocks, `warmBlocks, `lists, `home
      ensures Balanced() && Model() == Reclaimed(old(Model()), bits[..])
      ensures index == match Victim(old(Model()), bits[..]) case Some(i) => start + i case None => -1
    {
      VictimExact(Model(), bits[..]);
      var ix := FirstIn(WARM, warmHead);
      if ix != -1 {
        Whereabouts(ix);
        ClearUse(ix);
        MoveToMru(ix);
        return start + ix;
      }
      ix := FirstIn(HOT, hotHead);
      if ix == -1 { return -1; }
      Whereabouts(ix);
      DemoteOrMove(ix);
      return start + ix;
    }

    method DemoteOrMove(ix: nat)
      requires Balanced() && ix < bits.Length && !isWarm[ix]
      modifies lruPrev, lruNext, isWarm, useCnt, `hotHead, `hotTail, `warmHead, `warmTail, `hotBlocks, `warmBlocks, `lists, `home
      ensures ix in old(lists)[HOT] && (old(lists)[WARM] != [] ==> old(lists)[WARM][|old(lists)[WARM]| - 1] < bits.Length)
      ensures Balanced() && Model() == if old(lists)[WARM] == [] then LruSpec.MoveToMru(old(Model()), ix) else Demote(old(Model()), ix)
    {
      var done := DemoteBlock(ix);
      if !done { MoveToMru(ix); }
    }

    method ClearUse(ix: nat)
      requires Balanced() && ix < bits.Length
      modifies useCnt
      ensures Balanced() && useCnt[..] == old(useCnt[..])[ix := 0]
    {
      ghost var was := Model();
      useCnt[ix] := 0;
      SameMembers(was, Model(), bits.Length);
    }

    /** The walk of one list for a slot whose state is exactly VALID. */
    method FirstIn(ghost n: nat, head: int) returns (ix: int)
      requires Balanced() && n < 2 && head == First(NULL, lists[n])
      ensures match FirstValid(lists[n], bits[..]) case Some(i) => ix == i && i in lists[n] case None => ix == -1
    {
      ghost var l, k := lists[n], 0;
      Indices(NULL, lruNext[..], lruPrev[..], l);
      ix := head;
      while ix != NULL
        invariant k <= |l| && ix == (if k < |l| then l[k] else NULL)
        invariant FirstValid(l[k..], bits[..]) == FirstValid(l, bits[..])
        decreases |l| - k
      {
        assert LinkAt(NULL, lruNext[..], lruPrev[..], l, k);
        if bits[ix] == VALID { return; }
        assert l[k..][1..] == l[k + 1..];
        ix := lruNext[ix];
        k := k + 1;
      }
      assert l[k..] == [];
      return -1;
    }

    /** The slots in the order cleaning looks at them: the warm list, then the hot one. */
    method InOrder() returns (order: seq<nat>)
      requires Balanced()
      ensures order == lists[WARM] + lists[HOT]
    {
      var warm := Walk(WARM, warmHead);
      var hot := Walk(HOT, hotHead);
      order := warm + hot;
    }

    method Walk(ghost n: nat, head: int) returns (l: seq<nat>)
      requires Balanced() && n < 2 && head == First(NULL, lists[n])
      ensures l == lists[n]
    {
      Indices(NULL, lruNext[..], lruPrev[..], lists[n]);
      l := [];
      var ix := head;
      while ix != NULL
        invariant |l| <= |lists[n]| && l == lists[n][..|l|] && ix == (if |l| < |lists[n]| then lists[n][|l|] else NULL)
        decreases |lists[n]| - |l|
      {
        assert LinkAt(NULL, lruNext[..], lruPrev[..], lists[n], |l|);
        l := l + [ix];
        ix := lruNext[ix];
      }
    }

    /** The part of flashcache_reclaim_rebalance_lru for one set. */
    method Rebalance(newPct: int)
      requires Balanced() && hotPct <= 100 && |lists[HOT]| == HotShare(bits.Length, hotPct)
      modifies lruPrev, lruNext, isWarm, useCnt, `hotHead, `hotTail, `warmHead, `warmTail, `hotBlocks, `warmBlocks, `hotPct, `lists, `home
      ensures Balanced() && hotPct <= 100 && |lists[HOT]| == HotShare(bits.Length, hotPct)
      ensures Model() == Rebalanced(old(Model()), bits.Length, old(hotPct), newPct)
      ensures hotPct == if 0 <= newPct <= 100 then newPct else old(hotPct)
    {
      RebalancedKeeps(Model(), bits.Length, hotPct, newPct);
      if newPct > 100 || newPct < 0 { return; }
      var newHot := bits.Length * newPct / 100;
      var oldHot := bits.Length * hotPct / 100;
      if newHot > oldHot { Warm(newHot - oldHot); } else { Cool(oldHot - newHot); }
      hotPct := newPct;
    }

    method Warm(count: nat)
      requires Balanced()
      modifies lruPrev, lruNext, isWarm, useCnt, `hotHead, `hotTail, `warmHead, `warmTail, `hotBlocks, `warmBlocks, `lists, `home
      ensures Balanced() && Model() == Warmed(old(Model()), count)
    {
      var moved := 0;
      NoneLeft();
      while warmHead != NULL && moved < count
        invariant Balanced() && moved <= count && (warmHead == NULL <==> lists[WARM] == [])
        invariant Warmed(Model(), count - moved) == Warmed(old(Model()), count)
        decreases count - moved
      {
        WarmOne();
        NoneLeft();
        moved := moved + 1;
      }
    }

    method Cool(count: nat)
      requires Balanced()
      modifies lruPrev, lruNext, isWarm, useCnt, `hotHead, `hotTail, `warmHead, `warmTail, `hotBlocks, `warmBlocks, `lists, `home
      ensures Balanced() && Model() == Cooled(old(Model()), count)
    {
      var moved := 0;
      NoneLeft();
      while hotHead != NULL && moved < count
        invariant Balanced() && moved <= count && (hotHead == NULL <==> lists[HOT] == [])
        invariant Cooled(Model(), count - moved) == Cooled(old(Model()), count)
        decreases count - moved
      {
        CoolOne();
        NoneLeft();
        moved := moved + 1;
      }
    }

    lemma NoneLeft()
      requires Valid()
      ensures (warmHead == NULL <==> lists[WARM] == []) && (hotHead == NULL <==> lists[HOT] == [])
    {
      Indices(NULL, lruNext[..], lruPrev[..], lists[WARM]);
      Indices(NULL, lruNext[..], lruPrev[..], lists[HOT]);
    }

    method WarmOne()
      requires Balanced() && lists[WARM] != []
      modifies lruPrev, lruNext, isWarm, useCnt, `hotHead, `hotTail, `warmHead, `warmTail, `hotBlocks, `warmBlocks, `lists, `home
      ensures old(lists)[WARM][0] < bits.Length && Balanced()
      ensures Model() == Lru([old(lists)[WARM][0]] + old(lists)[HOT], old(lists)[WARM][1..], old(useCnt[..])[old(lists)[WARM][0] := 0])
    {
      var ix := warmHead;
      ghost var was, hot, warm := Model(), lists[HOT], lists[WARM];
      Indices(NULL, lruNext[..], lruPrev[..], warm);
      Whereabouts(ix);
      WarmSplit(was, Lru([ix] + hot, warm[1..], was.use[ix := 0]), bits.Length);
      RemoveWarm(ix);
      assert lists[WARM] == warm[1..] && lists[HOT] == hot;
      Switch(ix, false);
      AddLruHot(ix);
      assert Model() == Lru([ix] + hot, warm[1..], was.use[ix := 0]);
    }

    method CoolOne()
      requires Balanced() && lists[HOT] != []
      modifies lruPrev, lruNext, isWarm, useCnt, `hotHead, `hotTail, `warmHead, `warmTail, `hotBlocks, `warmBlocks, `lists, `home
      ensures old(lists)[HOT][0] < bits.Length && Balanced()
      ensures Model() == Lru(old(lists)[HOT][1..], [old(lists)[HOT][0]] + old(lists)[WARM], old(useCnt[..])[old(lists)[HOT][0] := 0])
    {
      var ix := hotHead;
      ghost var was, hot, warm := Model(), lists[HOT], lists[WARM];
      Indices(NULL, lruNext[..], lruPrev[..], hot);
      Whereabouts(ix);
      CoolSplit(was, Lru(hot[1..], [ix] + warm, was.use[ix := 0]), bits.Length);
      RemoveHot(ix);
      assert lists[HOT] == hot[1..] && lists[WARM] == warm;
      Switch(ix, true);
      AddLruWarm(ix);
      assert Model() == Lru(hot[1..], [ix] + warm, was.use[ix := 0]);
    }

    /** flashcache_reclaim_fifo_get_old_block: the global index of the first VALID slot from
        the cursor on, or -1; the cursor moves past it, or past where the search began. */
    method FifoGetOldBlock() returns (index: int)
      requires fifoNext < bits.Length
      modifies `fifoNext
      ensures index == -1 <==> FifoDistance(bits[..], old(fifoNext), 0).None?
      ensures index != -1 ==> FifoDistance(bits[..], old(fifoNext), 0).value < bits.Length && index == start + Around(bits.Length, old(fifoNext), FifoDistance(bits[..], old(fifoNext), 0).value)
      ensures fifoNext == Around(bits.Length, if index == -1 then old(fifoNext) else index - start, 1)
    {
      var searched, i := 0, fifoNext;
      index := -1;
      while searched < bits.Length
        invariant searched <= bits.Length && i == Around(bits.Length, fifoNext, searched) && index == -1
        invariant FifoDistance(bits[..], fifoNext, searched) == FifoDistance(bits[..], fifoNext, 0)
      {
        if bits[i] == VALID {
          index := start + i;
          break;
        }
        searched := searched + 1;
        i := i + 1;
        if i == bits.Length { i := 0; }
      }
      i := i + 1;
      if i == bits.Length { i := 0; }
      fifoNext := i;
    }
  }

  // ----- FIFO order -----

  /** Slot k places after i, around a set of n. */
  function Around(n: nat, i: nat, k: nat): (j: nat)
    requires i < n && k <= n
    ensures j < n && (j == i + k || j == i + k - n)
  {
    if i + k < n then i + k else i + k - n
  }

  /** The least k >= from such that the slot k places after the cursor is exactly VALID. */
  function FifoDistance(bits: seq<Bits>, cursor: nat, from: nat): Option<nat>
    requires cursor < |bits| && from <= |bits|
    decreases |bits| - from
  {
    if from == |bits| then None
    else if bits[Around(|bits|, cursor, from)] == VALID then Some(from)
    else FifoDistance(bits, cursor, from + 1)
  }

  /** The cyclic search is complete and finds the first: some slot is exactly VALID iff it
      finds one, and none it passed on the way is. */
  lemma {:induction false} FifoExact(bits: seq<Bits>, cursor: nat, from: nat)
    requires cursor < |bits| && from <= |bits|
    ensures FifoDistance(bits, cursor, from).Some? ==>
      var k := FifoDistance(bits, cursor, from).value;
      from <= k < |bits| && bits[Around(|bits|, cursor, k)] == VALID
      && forall j :: from <= j < k ==> bits[Around(|bits|, cursor, j)] != VALID
    ensures FifoDistance(bits, cursor, from).None? ==> forall j :: from <= j < |bits| ==> bits[Around(|bits|, cursor, j)] != VALID
    decreases |bits| - from
  {
    if from < |bits| && bits[Around(|bits|, cursor, from)] != VALID { FifoExact(bits, cursor, from + 1); }
  }

  lemma FifoComplete(bits: seq<Bits>, cursor: nat)
    requires cursor < |bits|
    ensures FifoDistance(bits, cursor, 0).Some? <==> exists i {:trigger bits[i]} :: 0 <= i < |bits| && bits[i] == VALID
  {
    FifoExact(bits, cursor, 0);
    if i :| 0 <= i < |bits| && bits[i] == VALID {
      assert Around(|bits|, cursor, if i >= cursor then i - cursor else i - cursor + |bits|) == i;
    }
  }
}
