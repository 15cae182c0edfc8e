/** The prefetch cache's slot table, updated in place: each method is one or more of the steps
    of PfdCache, run by a thread that is not interleaved. */
module PfdPrefetch {
  import opened PfdDetector
  import opened PfdGenerator
  import opened PfdForesight
  import opened PfdCache

  // ----- a whole prefetch -----

  /** Claim one block's slot if it may be claimed, and send its fetch off. */
  function ClaimOne(c: Cache, dbn: nat, sent: bool): (d: Cache)
    requires Shaped(c)
    ensures Shaped(d) && d.size == c.size
  {
    if Claimable(c.slots[Home(c, dbn)], dbn) then
      var d := Apply(c, Claim(dbn));
      Apply(d, Dispatch(c.started, sent))
    else c
  }

  /** The same for a list of blocks, in order; sent[k] tells whether the k-th request is accepted. */
  function ClaimAll(c: Cache, dbns: seq<nat>, sent: seq<bool>): (d: Cache)
    requires Shaped(c) && |sent| == |dbns|
    ensures Shaped(d) && d.size == c.size
    decreases |dbns|
  {
    if dbns == [] then c
    else
      var n := |dbns| - 1;
      ClaimOne(ClaimAll(c, dbns[..n], sent[..n]), dbns[n], sent[n])
  }

  lemma ClaimNext(c: Cache, dbns: seq<nat>, sent: seq<bool>, k: nat)
    requires Shaped(c) && |sent| == |dbns| && k < |dbns|
    ensures ClaimAll(c, dbns[..k + 1], sent[..k + 1]) == ClaimOne(ClaimAll(c, dbns[..k], sent[..k]), dbns[k], sent[k])
  {
    assert dbns[..k + 1][..k] == dbns[..k] && sent[..k + 1][..k] == sent[..k];
  }

  /** What a prefetch leaves in the slot of one of its blocks. */
  predicate Fetched(was: Slot, now: Slot, dbn: nat, sent: bool) {
    if Claimable(was, dbn) then now.dbn == dbn && now.status == (if sent then Prepare else Empty)
    else now == was
  }

  /** A claim touches no slot but the block's. */
  lemma ClaimOneLocal(c: Cache, dbn: nat, sent: bool)
    requires Shaped(c)
    ensures forall i :: 0 <= i < |c.slots| && i != Home(c, dbn) ==> ClaimOne(c, dbn, sent).slots[i] == c.slots[i]
    ensures Fetched(c.slots[Home(c, dbn)], ClaimOne(c, dbn, sent).slots[Home(c, dbn)], dbn, sent)
  {
  }

  lemma ClaimOneKeeps(c: Cache, dbn: nat, sent: bool)
    requires Inv(c)
    ensures Inv(ClaimOne(c, dbn, sent))
  {
    if Claimable(c.slots[Home(c, dbn)], dbn) {
      StepKeeps(c, Claim(dbn));
      StepKeeps(Apply(c, Claim(dbn)), Dispatch(c.started, sent));
    }
  }

  lemma {:induction false} ClaimAllKeeps(c: Cache, dbns: seq<nat>, sent: seq<bool>)
    requires Inv(c) && |sent| == |dbns|
    ensures Inv(ClaimAll(c, dbns, sent))
    decreases |dbns|
  {
    if dbns != [] {
      var n := |dbns| - 1;
      ClaimAllKeeps(c, dbns[..n], sent[..n]);
      ClaimOneKeeps(ClaimAll(c, dbns[..n], sent[..n]), dbns[n], sent[n]);
    }
  }

  predicate SlotsApart(dbns: seq<nat>, size: nat)
    requires size > 0
  {
    forall i, j :: 0 <= i < j < |dbns| ==> SlotOf(dbns[i], size) != SlotOf(dbns[j], size)
  }

  /** No block of a list whose blocks have slots of their own is displaced by another: each ends
      up being fetched into its slot, unless it was there already or the slot was in use. Slots
      of no block of the list stay as they were. */
  lemma {:induction false} BatchIsFetched(c: Cache, dbns: seq<nat>, sent: seq<bool>)
    requires Shaped(c) && |sent| == |dbns| && SlotsApart(dbns, c.size)
    ensures var d := ClaimAll(c, dbns, sent);
            && (forall k {:trigger dbns[k]} :: 0 <= k < |dbns| ==> Fetched(c.slots[Home(c, dbns[k])], d.slots[Home(c, dbns[k])], dbns[k], sent[k]))
            && (forall i {:trigger d.slots[i]} :: 0 <= i < |d.slots| && d.slots[i] != c.slots[i] ==> exists k :: 0 <= k < |dbns| && Home(c, dbns[k]) == i)
    decreases |dbns|
  {
    if dbns != [] {
      var n := |dbns| - 1;
      var e := ClaimAll(c, dbns[..n], sent[..n]);
      BatchIsFetched(c, dbns[..n], sent[..n]);
      var d := ClaimAll(c, dbns, sent);
      var h := Home(c, dbns[n]);
      ClaimOneLocal(e, dbns[n], sent[n]);
      assert e.slots[h] == c.slots[h];
      forall k | 0 <= k < |dbns| ensures Fetched(c.slots[Home(c, dbns[k])], d.slots[Home(c, dbns[k])], dbns[k], sent[k]) {
        if k < n { assert dbns[..n][k] == dbns[k] && Home(c, dbns[k]) != h; }
      }
      forall i | 0 <= i < |d.slots| && d.slots[i] != c.slots[i] ensures exists k :: 0 <= k < |dbns| && Home(c, dbns[k]) == i {
        if i == h { assert Home(c, dbns[n]) == i; }
        else {
          assert d.slots[i] == e.slots[i];
          var k :| 0 <= k < n && Home(c, dbns[..n][k]) == i;
          assert Home(c, dbns[k]) == i;
        }
      }
    }
  }

  /** The list as it is walked: backwards from its end. */
  function InOrder(l: seq<int>, count: int): (o: seq<nat>)
    requires forall k :: 0 <= k < |l| ==> l[k] >= 0
    ensures |o| == |l| && forall k :: 0 <= k < |l| ==> o[k] == l[if count < 0 then |l| - 1 - k else k]
  {
    seq(|l|, k requires 0 <= k < |l| => l[if count < 0 then |l| - 1 - k else k] as nat)
  }

  /** A list that does not evict itself is one whose blocks have slots of their own. */
  lemma ListIsApart(info: Info, size: nat, l: seq<int>, count: int)
    requires size > 0 && (info.stride < 0 ==> info.seqTotal > 0) && AllApart(info, size, |l|)
    requires forall k :: 0 <= k < |l| ==> l[k] >= 0 && l[k] == Entry(info, size, k)
    ensures SlotsApart(InOrder(l, count), size)
  {
    var o := InOrder(l, count);
    forall i, j | 0 <= i < j < |o| ensures SlotOf(o[i], size) != SlotOf(o[j], size) {
      var a, b := if count < 0 then |l| - 1 - j else i, if count < 0 then |l| - 1 - i else j;
      assert SlotOf(Entry(info, size, a), size) != SlotOf(Entry(info, size, b), size);
    }
  }

  function Nth(start: int, down: bool, k: int): int { if down then start - k else start + k }

  predicate PlaceAt(l: seq<int>, start: int, down: bool, order: seq<nat>, k: nat)
    requires k < |order|
  {
    0 <= Nth(start, down, k) < |l| && l[Nth(start, down, k)] == order[k]
  }

  /** From start on, one way or the other, l has the elements of order. */
  ghost predicate Places(l: seq<int>, start: int, down: bool, order: seq<nat>) {
    forall k: nat {:trigger PlaceAt(l, start, down, order, k)} :: k < |order| ==> PlaceAt(l, start, down, order, k)
  }

  lemma OrderPlaces(l: seq<int>, count: int)
    requires Abs(count) <= |l| && forall k :: 0 <= k < Abs(count) ==> l[k] >= 0
    ensures Places(l, if count < 0 then -count - 1 else 0, count < 0, InOrder(l[..Abs(count)], count))
  {
    var part := l[..Abs(count)];
    var order := InOrder(part, count);
    var start, down := if count < 0 then -count - 1 else 0, count < 0;
    forall k: nat | k < |order| ensures PlaceAt(l, start, down, order, k) {
      assert order[k] == part[if count < 0 then |part| - 1 - k else k];
    }
  }

  lemma HoldsNotNegative(c: Cache, i: nat)
    requires Inv(c) && i < |c.slots|
    ensures c.slots[i].holds >= 0
  {
    assert SlotFilled(c, i);
  }

  /** The first n slots emptied. */
  function Emptied(s: seq<Slot>, n: int): seq<Slot>
    requires 0 <= n <= |s|
  {
    seq(|s|, j requires 0 <= j < |s| => if j < n then s[j].(status := Empty) else s[j])
  }

  // ----- in place -----

  class SlotTable {
    const metas: array<Slot>
    ghost var cache: Cache

    ghost predicate Valid()
      reads this, metas
    {
      Inv(cache) && cache.slots == metas[..]
    }

    /** init_pfd_cache */
    constructor (blockSize: nat, buffer: seq<Tag>)
      requires blockSize > 0
      ensures Valid() && Fresh(cache) && cache.size == blockSize && fresh(metas)
    {
      metas := new Slot[BLOCK_COUNT](i => Slot(Empty, 0, 0, 0, buffer));
      cache := Cache(blockSize, seq(BLOCK_COUNT, i => Slot(Empty, 0, 0, 0, buffer)), map[], map[], 0);
      new;
      FreshInv(cache);
    }

    /** Put one slot in place, as the step does. */
    method Set(i: nat, s: Slot, ghost step: Step)
      requires Valid() && Enabled(cache, step) && i < metas.Length
      requires Apply(cache, step).slots == cache.slots[i := s]
      modifies this, metas
      ensures Valid() && cache == Apply(old(cache), step)
      ensures metas[..] == old(metas[..])[i := s]
    {
      StepKeeps(cache, step);
      metas[i] := s;
      cache := Apply(cache, step);
    }

    /** A step that changes no slot. */
    ghost method Note(step: Step)
      requires Valid() && Enabled(cache, step) && Apply(cache, step).slots == cache.slots
      modifies this`cache
      ensures Valid() && cache == Apply(old(cache), step)
    {
      StepKeeps(cache, step);
      cache := Apply(cache, step);
    }

    /** pfd_cache_handle_bio up to the wait: hold the slot if it is the block's. */
    method BeginRead(size: nat, r: nat, dbn: nat, want: nat) returns (held: bool, wait: bool)
      requires Valid() && size == cache.size && r !in cache.readers && want <= |metas[SlotOf(dbn, size)].buffer|
      modifies this, metas
      ensures Valid() && held == Enabled(old(cache), Lookup(r, dbn, want))
      ensures cache == if held then Apply(Apply(old(cache), Lookup(r, dbn, want)), Test(r)) else old(cache)
      ensures held ==> cache.readers[r].phase == if wait then Waiting else Ready
    {
      var index := SlotOf(dbn, size);
      held := metas[index].status != Empty && metas[index].dbn == dbn;
      wait := false;
      if held {
        Set(index, metas[index].(holds := metas[index].holds + 1), Lookup(r, dbn, want));
        wait := metas[index].status == Prepare;
        Note(Test(r));
      }
    }

    /** The wait over, or cut short by a signal: either way the semaphore is raised again. */
    method EndWait(size: nat, r: nat, dbn: nat, want: nat, interrupted: bool)
      requires Valid() && size == cache.size && r in cache.readers && cache.readers[r] == Reader(dbn, want, Waiting)
      requires !interrupted ==> metas[SlotOf(dbn, size)].permits > 0
      modifies this, metas
      ensures Valid() && cache == Apply(Apply(old(cache), if interrupted then Interrupted(r) else Down(r)), Up(r))
    {
      var index := SlotOf(dbn, size);
      if interrupted { Note(Interrupted(r)); }
      else { Set(index, metas[index].(permits := metas[index].permits - 1), Down(r)); }
      Set(index, metas[index].(permits := metas[index].permits + 1), Up(r));
    }

    /** The rest of pfd_cache_handle_bio: copy what is asked for piece by piece and let go. */
    method EndRead(size: nat, r: nat, dbn: nat, want: nat) returns (hit: bool, copy: seq<Tag>)
      requires Valid() && size == cache.size && r in cache.readers && cache.readers[r] == Reader(dbn, want, Ready)
      modifies this, metas
      ensures Valid() && hit == (old(metas[SlotOf(dbn, size)]).status == Status.Valid)
      ensures metas[..] == old(metas[..])[SlotOf(dbn, size) := old(metas[SlotOf(dbn, size)]).(holds := old(metas[SlotOf(dbn, size)]).holds - 1)]
      ensures cache.readers == if hit then old(cache).readers[r := Reader(dbn, want, Served(copy))] else old(cache).readers - {r}
      ensures cache.fetches == old(cache).fetches && cache.size == size
      ensures want <= |old(metas[SlotOf(dbn, size)]).buffer|
      ensures hit ==> copy == old(metas[SlotOf(dbn, size)]).buffer[..want] && exists g {:trigger Tag(dbn, g)} :: Whole(copy, Tag(dbn, g))
    {
      copy := [];
      var index := SlotOf(dbn, size);
      assert ReaderSafe(cache, r);
      if metas[index].status != Status.Valid {
        Set(index, metas[index].(holds := metas[index].holds - 1), Decide(r));
        return false, [];
      }
      Note(Decide(r));
      var k := 0;
      while k < want
        invariant Valid() && k <= want <= |metas[index].buffer| && k == |copy| && metas[..] == old(metas[..])
        invariant r in cache.readers && cache.readers == old(cache).readers[r := Reader(dbn, want, Copying(copy))]
        invariant cache.fetches == old(cache).fetches && cache.size == size
      {
        copy := copy + [metas[index].buffer[k]];
        Note(Copy(r));
        k := k + 1;
      }
      HitIsBuffer(cache, r);
      Set(index, metas[index].(holds := metas[index].holds - 1), Finish(r));
      assert ReaderSafe(cache, r);
      hit := true;
    }

    /** The claiming section of pfd_cache_prefetch for one block, and the dispatch. */
    method PrefetchOne(size: nat, dbn: nat, sent: bool)
      requires Valid() && size == cache.size
      modifies this, metas
      ensures Valid() && cache == ClaimOne(old(cache), dbn, sent)
    {
      var index := SlotOf(dbn, size);
      if metas[index].status != Empty && metas[index].dbn == dbn { return; }
      if metas[index].status == Prepare || metas[index].holds > 0 { return; }
      HoldsNotNegative(cache, index);
      ghost var f := cache.started;
      Set(index, metas[index].(status := Prepare, dbn := dbn, permits := 0), Claim(dbn));
      if sent {
        Note(Dispatch(f, true));
      } else {
        Set(index, metas[index].(status := Empty, permits := metas[index].permits + 1), Dispatch(f, false));
      }
    }

    /** pfd_cache_prefetch: forwards the list is fetched from its start, backwards from its end. */
    method Prefetch(size: nat, dbns: seq<int>, count: int, sent: seq<bool>)
      requires Valid() && size == cache.size && Abs(count) <= |dbns| && |sent| == Abs(count)
      requires forall k :: 0 <= k < Abs(count) ==> dbns[k] >= 0
      modifies this, metas
      ensures Valid() && cache == ClaimAll(old(cache), InOrder(dbns[..Abs(count)], count), sent)
    {
      var start, end := if count < 0 then -count - 1 else 0, if count < 0 then -1 else count;
      ghost var order := InOrder(dbns[..Abs(count)], count);
      OrderPlaces(dbns, count);
      Walk(size, dbns, start, end, count < 0, sent, order);
    }

    /** The loop, from index start to index end, up or down. */
    method Walk(size: nat, dbns: seq<int>, start: int, end: int, down: bool, sent: seq<bool>, ghost order: seq<nat>)
      requires Valid() && size == cache.size && |sent| == |order| && end == Nth(start, down, |order|)
      requires Places(dbns, start, down, order)
      modifies this, metas
      ensures Valid() && cache == ClaimAll(old(cache), order, sent)
    {
      var i := start;
      ghost var k := 0;
      while i != end
        invariant 0 <= k <= |order| && i == Nth(start, down, k)
        invariant Valid() && cache.size == size && cache == ClaimAll(old(cache), order[..k], sent[..k])
        decreases |order| - k
      {
        ClaimNext(old(cache), order, sent, k);
        assert PlaceAt(dbns, start, down, order, k);
        PrefetchOne(size, dbns[i], sent[if down then start - i else i - start]);
        i := if down then i - 1 else i + 1;
        k := k + 1;
      }
      assert order[..k] == order && sent[..k] == sent;
    }

    /** pfd_cache_reset: empties the slots one by one, and gives up at the first in use. */
    method Reset() returns (ok: bool)
      requires Valid()
      modifies this, metas
      ensures Valid() && cache == old(cache).(slots := metas[..])
      ensures ok <==> forall j :: 0 <= j < metas.Length ==> old(metas[j]).status != Prepare && old(metas[j]).holds == 0
      ensures exists n {:trigger Emptied(old(metas[..]), n)} ::
                0 <= n <= metas.Length && metas[..] == Emptied(old(metas[..]), n) && (n == metas.Length <==> ok)
                && (n < metas.Length ==> old(metas[n]).status == Prepare || old(metas[n]).holds > 0)
    {
      var j := 0;
      while j < metas.Length
        invariant 0 <= j <= metas.Length && Valid() && cache == old(cache).(slots := metas[..])
        invariant metas[..] == Emptied(old(metas[..]), j)
        invariant forall m :: 0 <= m < j ==> old(metas[m]).status != Prepare && old(metas[m]).holds == 0
      {
        assert metas[j] == old(metas[j]);
        if metas[j].status == Prepare || metas[j].holds > 0 { return false; }
        HoldsNotNegative(cache, j);
        Set(j, metas[j].(status := Empty), ResetSlot(j));
        j := j + 1;
      }
      ok := true;
    }
  }

  // ----- from a trace to the slots -----

  /** The list as the generator left it: k entries of the pattern, all on the disk. */
  ghost predicate Listed(info: Info, size: nat, disk: nat, arr: seq<int>, k: nat)
    requires info.stride < 0 ==> info.seqTotal > 0
  {
    k <= |arr| && IsCount(info, size, disk, MaxStep(info), k)
    && forall i: nat {:trigger Right(info, size, disk, i, arr[i])} :: i < k ==> Right(info, size, disk, i, arr[i])
  }

  lemma ListedApart(info: Info, size: nat, disk: nat, arr: seq<int>, count: int)
    requires size > 0 && Legal(info, size, disk) && Aligned(info, size) && Listed(info, size, disk, arr, Abs(count))
    ensures forall k :: 0 <= k < Abs(count) ==> arr[..Abs(count)][k] >= 0
    ensures !EvictsItself(info, size, Abs(count)) ==> SlotsApart(InOrder(arr[..Abs(count)], count), size)
  {
    var l := arr[..Abs(count)];
    forall k: nat | k < |l| ensures 0 <= l[k] < disk && l[k] == Entry(info, size, k) { assert Right(info, size, disk, k, arr[k]); }
    if !EvictsItself(info, size, Abs(count)) {
      NoSelfEviction(info, size, disk, |l|);
      ListIsApart(info, size, l, count);
    }
  }

  /** The slot of each block fetched has been claimed for it, unless it was not to be claimed. */
  ghost predicate AllFetched(was: seq<Slot>, now: seq<Slot>, size: nat, dbns: seq<nat>, sent: seq<bool>)
    requires size > 0 && |sent| >= |dbns| && |was| == |now| == BLOCK_COUNT
  {
    && (forall k {:trigger dbns[k]} :: 0 <= k < |dbns| ==> Fetched(was[SlotOf(dbns[k], size)], now[SlotOf(dbns[k], size)], dbns[k], sent[k]))
    && (forall i {:trigger now[i]} :: 0 <= i < |now| && now[i] != was[i] ==> exists k :: 0 <= k < |dbns| && SlotOf(dbns[k], size) == i)
  }

  /** What a read sets off: the requests its reader's history foretells are listed, and each block
      listed is being fetched into its own slot afterwards, unless it was there or the slot was in
      use; no other slot has changed. With blocks of two sectors or more that is so whatever has
      been read. */
  method PrefetchAhead(table: SlotTable, size: nat, disk: nat, info: Info, sent: seq<bool>, ghost h: seq<nat>) returns (arr: array<int>, count: int)
    requires table.Valid() && size == table.cache.size && |sent| == MAX_STEP
    requires h != [] && AlignedTrace(size, disk, h) && info == Report(Watched(size, h), h[|h| - 1])
    modifies table, table.metas
    ensures table.Valid() && fresh(arr) && (info.stride < 0 ==> info.seqTotal > 0) && Listed(info, size, disk, arr[..], Abs(count)) && Abs(count) <= MAX_STEP
    ensures info.last < disk && Lasts(info, size, disk, Covered(Watched(size, h)), Abs(count))
    ensures forall k :: 0 <= k < Abs(count) ==> arr[..Abs(count)][k] >= 0
    ensures var dbns := InOrder(arr[..Abs(count)], count);
            size >= 2 || !EvictsItself(info, size, Abs(count)) ==> SlotsApart(dbns, size) && AllFetched(old(table.metas[..]), table.metas[..], size, dbns, sent)
  {
    PrefetchOfTrace(size, disk, h, 0);
    arr := new int[MAX_STEP](i => 0);
    count := GetPrefetchDbns(info, size, disk, arr);
    ListedApart(info, size, disk, arr[..], count);
    if size >= 2 { PrefetchOfTrace(size, disk, h, Abs(count)); }
    FetchList(table, size, arr[..], count, sent);
  }

  /** A list fetched: if its blocks have slots of their own, each is. */
  method FetchList(table: SlotTable, size: nat, list: seq<int>, count: int, sent: seq<bool>)
    requires table.Valid() && size == table.cache.size && Abs(count) <= |list| && Abs(count) <= |sent|
    requires forall k :: 0 <= k < Abs(count) ==> list[..Abs(count)][k] >= 0
    modifies table, table.metas
    ensures table.Valid()
    ensures var dbns := InOrder(list[..Abs(count)], count);
            SlotsApart(dbns, size) ==> AllFetched(old(table.metas[..]), table.metas[..], size, dbns, sent)
  {
    ghost var was := table.cache;
    forall k | 0 <= k < Abs(count) ensures list[k] >= 0 { assert list[..Abs(count)][k] >= 0; }
    table.Prefetch(size, list, count, sent[..Abs(count)]);
    FetchedAll(was, InOrder(list[..Abs(count)], count), sent);
  }

  lemma FetchedAll(c: Cache, dbns: seq<nat>, sent: seq<bool>)
    requires Shaped(c) && |sent| >= |dbns|
    ensures SlotsApart(dbns, c.size) ==> AllFetched(c.slots, ClaimAll(c, dbns, sent[..|dbns|]).slots, c.size, dbns, sent)
  {
    if SlotsApart(dbns, c.size) {
      var d := ClaimAll(c, dbns, sent[..|dbns|]);
      BatchIsFetched(c, dbns, sent[..|dbns|]);
      forall k | 0 <= k < |dbns| ensures Fetched(c.slots[SlotOf(dbns[k], c.size)], d.slots[SlotOf(dbns[k], c.size)], dbns[k], sent[k]) {
        assert Fetched(c.slots[Home(c, dbns[k])], d.slots[Home(c, dbns[k])], dbns[k], sent[..|dbns|][k]);
      }
      forall i | 0 <= i < |d.slots| && d.slots[i] != c.slots[i] ensures exists k :: 0 <= k < |dbns| && SlotOf(dbns[k], c.size) == i {
        var k :| 0 <= k < |dbns| && Home(c, dbns[k]) == i;
      }
    }
  }
}
