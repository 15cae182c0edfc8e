/** The hash chains and the invalid list of one cache set, in place. All share the links
    hash_prev and hash_next; indices are relative to the set's first slot. */
module HashIndex {
  import opened Types
  import opened Links
  import opened IndexSpec

  /** Slot ix leaves list n, on which it is. */
  lemma DeleteLinked(next: seq<int>, prev: seq<int>, heads: seq<int>, lists: seq<seq<nat>>, home: seq<int>, n: nat, ix: nat)
    requires Linked(NULL, next, prev, heads, lists, home) && n < |lists| && ix < |home| && home[ix] == n
    ensures ix in lists[n] && ix < |next| == |prev| && prev[ix] != ix && next[ix] != ix
    ensures (prev[ix] == NULL || 0 <= prev[ix] < |next|) && (next[ix] == NULL || 0 <= next[ix] < |next|)
    ensures Linked(NULL, NextRemoved(NULL, next, prev, ix), PrevRemoved(NULL, next, prev, ix),
                   heads[n := HeadRemoved(NULL, heads[n], next, prev, ix)], lists[n := Delete(lists[n], ix)], home[ix := -1])
  {
    assert Listed(lists, home, ix);
    var k := Position(lists[n], ix);
    DeleteIsWithout(lists[n], k);
    RemoveLinked(NULL, next, prev, heads, lists, home, n, k);
    LinkBounds(NULL, next, prev, lists[n], k);
  }

  class CacheSet {
    const start: nat          // global index of slot 0
    const jhash: nat -> nat
    const bits: array<Bits>
    const dbn: array<nat>
    const hashPrev: array<int>
    const hashNext: array<int>
    const buckets: array<int>
    var invalidHead: int
    ghost var lists: seq<seq<nat>>
    ghost var home: seq<int>

    /** The links spell the lists. */
    ghost predicate Valid()
      reads this, bits, dbn, hashPrev, hashNext, buckets
    {
      && hashPrev != hashNext && hashPrev != buckets && hashNext != buckets
      && bits.Length == dbn.Length == hashPrev.Length == hashNext.Length && buckets.Length == BUCKETS && |lists| == BUCKETS + 1
      && Linked(NULL, hashNext[..], hashPrev[..], Heads(), lists, home)
    }

    ghost function Heads(): seq<int>
      reads this, buckets
    {
      buckets[..] + [invalidHead]
    }

    ghost function Model(): Index
      reads this, bits, dbn
    {
      Index(bits[..], dbn[..], lists, home)
    }

    /** flashcache_hash_init, on slots whose links are NULL. */
    constructor (start: nat, jhash: nat -> nat, bits: array<Bits>, dbn: array<nat>)
      requires bits.Length == dbn.Length <= NULL
      ensures Valid() && this.bits == bits && this.dbn == dbn && this.jhash == jhash && this.start == start
      ensures fresh(hashPrev) && fresh(hashNext) && fresh(buckets)
      ensures lists == seq(BUCKETS + 1, k => []) && home == seq(bits.Length, k => -1)
    {
      this.start, this.jhash, this.bits, this.dbn := start, jhash, bits, dbn;
      hashPrev := new int[bits.Length](k => NULL);
      hashNext := new int[bits.Length](k => NULL);
      buckets := new int[BUCKETS](k => NULL);
      invalidHead := NULL;
      lists, home := seq(BUCKETS + 1, k => []), seq(bits.Length, k => -1);
    }

    /** flashcache_invalid_insert */
    method InvalidInsert(ix: nat)
      requires Valid() && ix < bits.Length && bits[ix] == INVALID && home[ix] == -1
      modifies hashPrev, hashNext, `invalidHead, `lists, `home
      ensures Valid() && Model() == Pushed(old(Model()), INVALIDS, ix)
    {
      ghost var next, prev, heads := hashNext[..], hashPrev[..], Heads();
      PushLinked(NULL, next, prev, heads, lists, home, INVALIDS, ix);
      assert hashPrev[ix] == NULL && hashNext[ix] == NULL;
      hashNext[ix] := invalidHead;
      if invalidHead != NULL { hashPrev[invalidHead] := ix; }
      invalidHead := ix;
      lists, home := lists[INVALIDS := [ix] + lists[INVALIDS]], home[ix := INVALIDS];
      assert hashNext[..] == NextPushed(next, heads[INVALIDS], ix);
      assert hashPrev[..] == PrevPushed(NULL, prev, heads[INVALIDS], ix);
      assert Heads() == heads[INVALIDS := ix];
    }

    /** The links of slot ix and its neighbours when it leaves its list. */
    method Unlink(ix: nat)
      requires hashPrev != hashNext && ix < hashPrev.Length == hashNext.Length
      requires (hashPrev[ix] == NULL || 0 <= hashPrev[ix] < hashNext.Length) && (hashNext[ix] == NULL || 0 <= hashNext[ix] < hashNext.Length)
      requires hashPrev[ix] != ix && hashNext[ix] != ix
      modifies hashPrev, hashNext
      ensures hashNext[..] == NextRemoved(NULL, old(hashNext[..]), old(hashPrev[..]), ix)
      ensures hashPrev[..] == PrevRemoved(NULL, old(hashNext[..]), old(hashPrev[..]), ix)
    {
      if hashPrev[ix] != NULL { hashNext[hashPrev[ix]] := hashNext[ix]; }
      if hashNext[ix] != NULL { hashPrev[hashNext[ix]] := hashPrev[ix]; }
      hashPrev[ix] := NULL;
      hashNext[ix] := NULL;
    }

    /** flashcache_invalid_remove */
    method InvalidRemove(ix: nat)
      requires Valid() && ix < bits.Length && bits[ix] == INVALID && home[ix] == INVALIDS
      modifies hashPrev, hashNext, `invalidHead, `lists, `home
      ensures ix in old(lists)[INVALIDS]
      ensures Valid() && Model() == Removed(old(Model()), INVALIDS, ix)
      ensures hashPrev[ix] == NULL && hashNext[ix] == NULL
    {
      ghost var next, prev, heads := hashNext[..], hashPrev[..], Heads();
      DeleteLinked(next, prev, heads, lists, home, INVALIDS, ix);
      if hashPrev[ix] == NULL { invalidHead := hashNext[ix]; }
      Unlink(ix);
      lists, home := lists[INVALIDS := Delete(lists[INVALIDS], ix)], home[ix := -1];
      assert Heads() == heads[INVALIDS := HeadRemoved(NULL, heads[INVALIDS], next, prev, ix)];
    }

    /** flashcache_invalid_get: the global index of an INVALID slot taken off the list, or -1. */
    method InvalidGet() returns (index: int)
      requires Valid() && forall i {:trigger home[i]} :: 0 <= i < |home| && home[i] == INVALIDS ==> bits[i] == INVALID
      modifies hashPrev, hashNext, `invalidHead, `lists, `home
      ensures Valid()
      ensures old(lists)[INVALIDS] == [] ==> index == -1 && Model() == old(Model())
      ensures old(lists)[INVALIDS] != [] ==>
        index == start + old(lists)[INVALIDS][0] && Model() == Removed(old(Model()), INVALIDS, old(lists)[INVALIDS][0])
    {
      Indices(NULL, hashNext[..], hashPrev[..], lists[INVALIDS]);
      if invalidHead == NULL { return -1; }
      assert home[lists[INVALIDS][0]] == INVALIDS;
      index := start + invalidHead;
      InvalidRemove(invalidHead);
    }

    /** flashcache_hash_insert */
    method HashInsert(ix: nat)
      requires Valid() && ix < bits.Length && bits[ix].valid && home[ix] == -1
      modifies hashPrev, hashNext, buckets, `lists, `home
      ensures Valid() && Model() == Pushed(old(Model()), Bucket(jhash, dbn[ix]), ix)
    {
      var b := Bucket(jhash, dbn[ix]);
      ghost var next, prev, heads := hashNext[..], hashPrev[..], Heads();
      PushLinked(NULL, next, prev, heads, lists, home, b, ix);
      hashPrev[ix] := NULL;
      hashNext[ix] := buckets[b];
      if buckets[b] != NULL { hashPrev[buckets[b]] := ix; }
      buckets[b] := ix;
      lists, home := lists[b := [ix] + lists[b]], home[ix := b];
      assert hashNext[..] == NextPushed(next, heads[b], ix);
      assert hashPrev[..] == PrevPushed(NULL, prev, heads[b], ix);
      assert Heads() == heads[b := ix];
    }

    /** flashcache_hash_remove */
    method HashRemove(ix: nat)
      requires Valid() && ix < bits.Length && bits[ix].valid && home[ix] == Bucket(jhash, dbn[ix])
      modifies hashPrev, hashNext, buckets, `lists, `home
      ensures ix in old(lists)[Bucket(jhash, dbn[ix])]
      ensures Valid() && Model() == Removed(old(Model()), Bucket(jhash, dbn[ix]), ix)
    {
      var b := Bucket(jhash, dbn[ix]);
      ghost var next, prev, heads := hashNext[..], hashPrev[..], Heads();
      DeleteLinked(next, prev, heads, lists, home, b, ix);
      assert buckets[b] == heads[b];
      if hashPrev[ix] == NULL { buckets[b] := hashNext[ix]; }
      assert buckets[..] == old(buckets[..])[b := HeadRemoved(NULL, heads[b], next, prev, ix)];
      Unlink(ix);
      lists, home := lists[b := Delete(lists[b], ix)], home[ix := -1];
      assert Heads() == heads[b := HeadRemoved(NULL, heads[b], next, prev, ix)];
    }

    /** flashcache_hash_lookup: the global index of the VALID slot of block d, or -1. */
    method HashLookup(d: nat, ghost mine: nat -> bool, ghost held: Option<nat>) returns (index: int)
      requires Valid() && Consistent(jhash, mine, Model(), held)
      ensures index == -1 <==> Scan(Model(), 0, d).None?
      ensures Scan(Model(), 0, d).Some? ==> index == start + Scan(Model(), 0, d).value
    {
      LookupIsScan(jhash, mine, Model(), held, d);
      ghost var l := lists[Bucket(jhash, d)];
      var ix := buckets[Bucket(jhash, d)];
      ghost var k := 0;
      Indices(NULL, hashNext[..], hashPrev[..], l);
      while ix != NULL
        invariant k <= |l| && ix == (if k < |l| then l[k] else NULL)
        invariant Walk(Model(), l[k..], d) == Scan(Model(), 0, d)
        decreases |l| - k
      {
        assert l[k] < bits.Length && home[l[k]] == Bucket(jhash, d);
        assert bits[ix].valid && !bits[ix].invalid;
        if dbn[ix] == d { return start + ix; }
        assert l[k..][1..] == l[k + 1..] && LinkAt(NULL, hashNext[..], hashPrev[..], l, k);
        ix := hashNext[ix];
        k := k + 1;
      }
      assert l[k..] == [];
      return -1;
    }

    // ----- the critical sections that move slots between the lists -----

    /** A missing block takes slot ix (main.c:1557-1569 and 1907-1919). */
    method Claim(ix: nat, d: nat, b: Bits, ghost mine: nat -> bool, ghost held: Option<nat>)
      requires Valid() && Consistent(jhash, mine, Model(), held) && Allowed(mine, Model(), held, Op.Claim(ix, d, b))
      modifies bits, dbn, hashPrev, hashNext, buckets, `lists, `home
      ensures Valid() && Model() == Apply(jhash, mine, old(Model()), held, Op.Claim(ix, d, b))
    {
      assert home[ix] == if bits[ix].valid then Bucket(jhash, dbn[ix]) else -1;
      if bits[ix].valid { HashRemove(ix); }
      bits[ix] := b;
      dbn[ix] := d;
      HashInsert(ix);
    }

    /** An idle clean slot is invalidated (main.c:1764-1771). */
    method Drop(ix: nat, ghost mine: nat -> bool, ghost held: Option<nat>)
      requires Valid() && Consistent(jhash, mine, Model(), held) && Allowed(mine, Model(), held, Op.Drop(ix))
      modifies bits, hashPrev, hashNext, buckets, `invalidHead, `lists, `home
      ensures Valid() && Model() == Apply(jhash, mine, old(Model()), held, Op.Drop(ix))
    {
      assert home[ix] == Bucket(jhash, dbn[ix]);
      HashRemove(ix);
      bits[ix] := INVALID;
      InvalidInsert(ix);
    }

    /** A busy slot goes into limbo before its queue is drained (main.c:514-516). */
    method EnterLimbo(ix: nat, ghost mine: nat -> bool, ghost held: Option<nat>)
      requires Valid() && Consistent(jhash, mine, Model(), held) && Allowed(mine, Model(), held, Limbo(ix))
      modifies bits, hashPrev, hashNext, buckets, `lists, `home
      ensures Valid() && Model() == Apply(jhash, mine, old(Model()), held, Limbo(ix))
    {
      assert home[ix] == Bucket(jhash, dbn[ix]);
      HashRemove(ix);
      bits[ix] := bits[ix].(valid := false, invalid := true);
    }

    /** ... and is freed after (main.c:558-559). */
    method LeaveLimbo(ix: nat, ghost mine: nat -> bool, ghost held: Option<nat>)
      requires Valid() && Consistent(jhash, mine, Model(), held) && Allowed(mine, Model(), held, Settle(ix))
      modifies bits, hashPrev, hashNext, `invalidHead, `lists, `home
      ensures Valid() && Model() == Apply(jhash, mine, old(Model()), held, Settle(ix))
    {
      assert home[ix] == -1;
      bits[ix] := bits[ix].Idle();
      InvalidInsert(ix);
    }

    /** The other bits of a VALID slot change: I/O starts or ends on it, it becomes DIRTY or clean. */
    method Remark(ix: nat, b: Bits, ghost mine: nat -> bool, ghost held: Option<nat>)
      requires Valid() && Consistent(jhash, mine, Model(), held) && Allowed(mine, Model(), held, Mark(ix, b))
      modifies bits
      ensures Valid() && Model() == Apply(jhash, mine, old(Model()), held, Mark(ix, b))
    {
      bits[ix] := b;
    }

    /** The slot-indexing loop of flashcache_ctr, on the slots a load or a create left. */
    method BuildIndex(ghost mine: nat -> bool)
      requires Valid() && lists == seq(BUCKETS + 1, k => []) && home == seq(bits.Length, k => -1) && Indexable(mine, bits[..], dbn[..])
      modifies hashPrev, hashNext, buckets, `invalidHead, `lists, `home
      ensures Valid() && Consistent(jhash, mine, Model(), None) && Model() == Built(jhash, bits[..], dbn[..], bits.Length)
    {
      var i := 0;
      while i < bits.Length
        invariant 0 <= i <= bits.Length && Valid() && Model() == Built(jhash, bits[..], dbn[..], i)
      {
        BuiltShaped(jhash, bits[..], dbn[..], i);
        assert bits[i] == bits[..][i] && home[i] == -1;
        if bits[i].valid { HashInsert(i); }
        if bits[i].invalid { InvalidInsert(i); }
        i := i + 1;
      }
      BuiltConsistent(jhash, mine, bits[..], dbn[..]);
    }
  }
}
