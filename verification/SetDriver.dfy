/** The critical sections of one cache set together with its index and its reclaim lists, all in
    place. The lookups and victims the protocol takes as given are computed here, and whatever
    happens to the set's slots the index follows by the list operations of the original. */
module SetDriver {
  import opened Types
  import opened Protocol
  import opened Invariant
  import opened Steps
  import opened SlotIndex
  import opened SetView
  import opened Driver
  import opened HashIndex
  import opened LruLists
  import opened Theorems
  import X = IndexSpec
  import L = LruSpec
  import LruLaws
  import Links

  /** The index of set j has the state words and blocks the cache has; `held` is an INVALID
      slot taken off its list for the request being served. */
  ghost predicate InStep(k: Cache, cs: CacheSet, j: nat, held: Option<nat>)
    reads k, k.slots, cs, cs.bits, cs.dbn, cs.hashPrev, cs.hashNext, cs.buckets
  {
    k.Valid() && cs.Valid() && Indexed(k.c, k.slots[..], j, cs.start, cs.jhash, cs.Model(), held)
  }

  /** The reclaim lists are of the same slots, in arrays of their own. */
  ghost predicate Reclaims(cs: CacheSet, rs: ReclaimSet)
    reads rs, rs.lruPrev, rs.lruNext, rs.isWarm, rs.useCnt
  {
    && rs.Balanced() && rs.bits == cs.bits && rs.start == cs.start && rs.fifoNext < cs.bits.Length && rs.useCnt != cs.dbn
    && rs.lruPrev != cs.hashPrev && rs.lruPrev != cs.hashNext && rs.lruPrev != cs.buckets
    && rs.lruNext != cs.hashPrev && rs.lruNext != cs.hashNext && rs.lruNext != cs.buckets
  }

  /** What a step just taken has done to state words and blocks. */
  lemma Stepped(c: Config, disk: map<nat, Data>, run: seq<State>, steps: seq<Step>, s: State, t: State, step: Step)
    requires Reaches(c, disk, run, steps, s) && Reaches(c, disk, run + [t], steps + [step], t) && !step.PowerLoss? && !step.CleanRestart?
    ensures Enabled(c, s, step)
    ensures After(s.slots, t.slots, StepTouch(c, s, step)) && LegalTouch(c, s.slots, StepTouch(c, s, step))
  {
    ReachableGood(c, disk, s);
    assert Follows(c, run + [t], steps + [step], |steps|);
    assert (run + [t])[|steps|] == s && (run + [t])[|steps| + 1] == t && (steps + [step])[|steps|] == step;
    StepTouches(c, s, step);
    StepLegal(c, s, step);
  }

  /** A request, with what its lookup found and the slot it may take. */
  method Serve(k: Cache, bio: Bio, h: Found, v: Found, skip: bool)
    requires k.Valid() && IsLookup(k.c, k.Now(), bio.dbn, h) && (v.Some? ==> Claimable(k.c, k.Now(), bio.dbn, v.value))
    modifies k, k.slots
    ensures k.Valid() && k.steps == old(k.steps) + [Step.Map(bio, h, v, skip)] && k.run == old(k.run) + [k.Now()]
    ensures var w := MapTouch(k.c, old(k.slots[..]), bio, h, v, skip); After(old(k.slots[..]), k.slots[..], w) && LegalTouch(k.c, old(k.slots[..]), w)
  {
    ghost var s, run, steps := k.Now(), k.run, k.steps;
    k.Map(bio, h, v, skip);
    Stepped(k.c, k.initial, run, steps, s, k.Now(), Step.Map(bio, h, v, skip));
  }

  // ----- the index follows -----

  /** The list operation, if any, that goes with slot ix getting state word b and block d. */
  method Update(cs: CacheSet, ix: nat, b: Bits, d: nat, ghost w: Touch, ghost mine: nat -> bool, ghost held: Option<nat>)
    requires cs.Valid() && X.Consistent(cs.jhash, mine, cs.Model(), held) && ix < cs.bits.Length && w.Touched? && w.bits == b && w.dbn == d
    requires var op := OpOf(cs.bits[ix], cs.dbn[ix], w, ix); op.Some? ==> X.Allowed(mine, cs.Model(), held, op.value)
    modifies cs, cs.bits, cs.dbn, cs.hashPrev, cs.hashNext, cs.buckets
    ensures cs.Valid()
    ensures cs.Model() == Updated(cs.jhash, mine, old(cs.Model()), held, OpOf(old(cs.bits[ix]), old(cs.dbn[ix]), w, ix))
  {
    if b == cs.bits[ix] && d == cs.dbn[ix] { return; }
    if cs.bits[ix].valid && b.valid && d == cs.dbn[ix] {
      cs.Remark(ix, b, mine, held);
    } else if b.valid {
      cs.Claim(ix, d, b, mine, held);
    } else if cs.bits[ix] == VALID {
      cs.Drop(ix, mine, held);
    } else if cs.bits[ix].valid {
      cs.EnterLimbo(ix, mine, held);
    } else {
      cs.LeaveLimbo(ix, mine, held);
    }
  }

  /** The slots went from s to t by a change of slot ix of the set. */
  method Follow(cs: CacheSet, ix: nat, b: Bits, d: nat, ghost c: Config, ghost j: nat, ghost s: seq<Slot>, ghost t: seq<Slot>, ghost held: Option<nat>)
    requires cs.Valid() && Indexed(c, s, j, cs.start, cs.jhash, cs.Model(), held) && ix < cs.bits.Length
    requires LegalTouch(c, s, Touched(cs.start + ix, b, d)) && After(s, t, Touched(cs.start + ix, b, d))
    requires held == if TakesInvalid(s, Touched(cs.start + ix, b, d)) then Some(ix) else None
    modifies cs, cs.bits, cs.dbn, cs.hashPrev, cs.hashNext, cs.buckets
    ensures cs.Valid() && Indexed(c, t, j, cs.start, cs.jhash, cs.Model(), None)
  {
    ghost var w := Touched(cs.start + ix, b, d);
    TouchInside(c, s, t, j, cs.start, cs.jhash, cs.Model(), held, w, ix);
    Update(cs, ix, b, d, w, Mine(c, j), held);
  }

  /** From s to t only slot i has changed, if any, as the index allows, and it was not given out. */
  ghost predicate MovesAt(c: Config, s: seq<Slot>, t: seq<Slot>, i: nat) {
    i < |s| == |t| && var w := Touched(i, t[i].bits, t[i].dbn); After(s, t, w) && LegalTouch(c, s, w) && !TakesInvalid(s, w)
  }

  lemma AfterAt(c: Config, s: seq<Slot>, t: seq<Slot>, w: Touch, i: nat)
    requires After(s, t, w) && LegalTouch(c, s, w) && i < |s| && (w.Touched? ==> w.i == i && (s[i].bits != INVALID || !w.bits.valid))
    ensures MovesAt(c, s, t, i)
  {
  }

  /** The cache's slots have changed from s, if at all then at slot i of the set. */
  method Catch(k: Cache, cs: CacheSet, i: nat, ghost j: nat, ghost s: seq<Slot>)
    requires cs.Valid() && Indexed(k.c, s, j, cs.start, cs.jhash, cs.Model(), None) && cs.start <= i < cs.start + cs.bits.Length
    requires MovesAt(k.c, s, k.slots[..], i)
    modifies cs, cs.bits, cs.dbn, cs.hashPrev, cs.hashNext, cs.buckets
    ensures cs.Valid() && Indexed(k.c, k.slots[..], j, cs.start, cs.jhash, cs.Model(), None)
  {
    Follow(cs, i - cs.start, k.slots[i].bits, k.slots[i].dbn, k.c, j, s, k.slots[..], None);
  }

  /** ... or not at all, if there is no such slot. */
  method CatchMaybe(k: Cache, cs: CacheSet, h: Found, ghost j: nat, ghost s: seq<Slot>)
    requires cs.Valid() && Indexed(k.c, s, j, cs.start, cs.jhash, cs.Model(), None)
    requires match h case None => After(s, k.slots[..], Untouched)
             case Some(i) => cs.start <= i < cs.start + cs.bits.Length && MovesAt(k.c, s, k.slots[..], i)
    modifies cs, cs.bits, cs.dbn, cs.hashPrev, cs.hashNext, cs.buckets
    ensures cs.Valid() && Indexed(k.c, k.slots[..], j, cs.start, cs.jhash, cs.Model(), None)
  {
    if h.Some? {
      Catch(k, cs, h.value, j, s);
    } else {
      Still(k.c, s, k.slots[..], j, cs.start, cs.jhash, cs.Model(), None);
    }
  }

  lemma Still(c: Config, s: seq<Slot>, t: seq<Slot>, j: nat, start: nat, jhash: nat -> nat, x: X.Index, held: Option<nat>)
    requires Indexed(c, s, j, start, jhash, x, held) && After(s, t, Untouched)
    ensures Indexed(c, t, j, start, jhash, x, held)
  {
    forall i: nat | i < |x.bits| ensures SameAt(x, t, start, i) { assert SameAt(x, s, start, i); }
  }

  // ----- looking up -----

  /** flashcache_hash_lookup, as the protocol asks for it. */
  method Find(cs: CacheSet, d: nat, ghost c: Config, ghost s: State, ghost j: nat, ghost held: Option<nat>) returns (h: Found)
    requires cs.Valid() && Indexed(c, s.slots, j, cs.start, cs.jhash, cs.Model(), held) && c.hashBlock(d) == j
    ensures h == Global(cs.start, X.Scan(cs.Model(), 0, d)) && IsLookup(c, s, d, h)
    ensures h.Some? ==> cs.start <= h.value < cs.start + cs.bits.Length && cs.bits[h.value - cs.start].valid
  {
    var index := cs.HashLookup(d, Mine(c, j), held);
    h := if index == -1 then None else Some(index);
    X.ScanFinds(cs.Model(), 0, d);
    ScanIsLookup(c, s, j, cs.start, cs.jhash, cs.Model(), held, d);
  }

  /** What a lookup that misses is offered: the first INVALID slot, else the victim of reclaim. */
  ghost function Offered(x: X.Index, l: L.Lru, cursor: nat, lru: bool): Option<nat>
    requires |x.lists| == X.BUCKETS + 1 && cursor < |x.bits| && L.Split(l, |x.bits|)
  {
    if x.lists[X.INVALIDS] != [] then Some(x.lists[X.INVALIDS][0])
    else if lru then L.Victim(l, x.bits)
    else match FifoDistance(x.bits, cursor, 0)
      case None => None
      case Some(d) => if d < |x.bits| then Some(Around(|x.bits|, cursor, d)) else None
  }

  /** It may be claimed for any block of the set. */
  lemma OfferedClaimable(c: Config, s: State, j: nat, start: nat, jhash: nat -> nat, x: X.Index, l: L.Lru, cursor: nat, lru: bool, b: nat)
    requires Indexed(c, s.slots, j, start, jhash, x, None) && c.hashBlock(b) == j && cursor < |x.bits| && L.Split(l, |x.bits|)
    ensures var o := Offered(x, l, cursor, lru);
            o.Some? ==> o.value < |x.bits| && Claimable(c, s, b, start + o.value) && x.bits[o.value] == if x.lists[X.INVALIDS] != [] then INVALID else VALID
  {
    if x.lists[X.INVALIDS] != [] {
      InvalidIsClaimable(c, s, j, start, jhash, x, b);
    } else if lru {
      if L.Victim(l, x.bits).Some? { L.VictimExact(l, x.bits); LruIsClaimable(c, s, j, start, jhash, x, l, b); }
    } else {
      FifoExact(x.bits, cursor, 0);
      if FifoDistance(x.bits, cursor, 0).Some? { FifoIsClaimable(c, s, j, start, jhash, x, cursor, b); }
    }
  }

  /** What an access leaves of the reclaim lists. */
  ghost function Used(l: L.Lru, ix: nat, b: Bits, threshold: int): L.Lru
    requires L.Split(l, |l.use|) && ix < |l.use|
  {
    assert l.hot != [] ==> l.hot[0] < |l.use|;
    L.Accessed(l, ix, b, threshold)
  }

  function Local(start: nat, h: Found): Option<nat> {
    match h case None => None case Some(i) => if i < start then None else Some(i - start)
  }

  /** The set has slot h, not INVALID, or else offers slot v, which LRU reclaim has found unless it is INVALID. */
  ghost predicate Answers(l: L.Lru, bits: seq<Bits>, h: Option<nat>, v: Option<nat>, lru: bool) {
    && L.Split(l, |bits|) && (h.Some? ==> h.value < |bits| && bits[h.value] != INVALID) && (v.Some? ==> v.value < |bits|)
    && (lru && h.None? && !(v.Some? && bits[v.value] == INVALID) ==> v == L.Victim(l, bits))
  }

  /** What a lookup leaves of them: whatever it finds or offers, the lists show it. */
  ghost function Left(l: L.Lru, bits: seq<Bits>, h: Option<nat>, v: Option<nat>, lru: bool, threshold: int): (r: L.Lru)
    requires Answers(l, bits, h, v, lru)
    ensures LruLaws.Attends(l, r, bits, h, v, lru, threshold)
  {
    if !lru then l
    else if h.Some? then LruLaws.UseAttends(l, bits, h.value, threshold); if bits[h.value].Busy() then l else Used(l, h.value, bits[h.value], threshold)
    else if v.None? then l
    else if bits[v.value] == INVALID then LruLaws.UseAttends(l, bits, v.value, threshold); Used(l, v.value, INVALID, threshold)
    else LruLaws.ReclaimUses(l, bits); L.Reclaimed(l, bits)
  }

  /** The FIFO cursor moves only when it is asked for a victim, which is then the last slot it
      comes back to. */
  function CursorLeft(bits: seq<Bits>, cursor: nat, h: Option<nat>, v: Option<nat>, lru: bool): (to: nat)
    requires cursor < |bits| && (v.Some? ==> v.value < |bits|)
    ensures to < |bits| && (!lru && h.None? && v.Some? && bits[v.value] != INVALID ==> Around(|bits|, to, |bits| - 1) == v.value)
  {
    if lru || h.Some? || (v.Some? && bits[v.value] == INVALID) then cursor else Around(|bits|, if v.Some? then v.value else cursor, 1)
  }

  /** An INVALID slot is taken before any other, and one is offered whenever one is idle and clean. */
  ghost predicate InvalidFirst(bits: seq<Bits>, v: Option<nat>) {
    match v
    case Some(i) => i < |bits| && (bits[i] == INVALID || (bits[i] == VALID && forall k {:trigger bits[k]} :: 0 <= k < |bits| ==> bits[k] != INVALID))
    case None => forall k {:trigger bits[k]} :: 0 <= k < |bits| ==> bits[k] != INVALID && bits[k] != VALID
  }

  lemma OffersFirst(start: nat, jhash: nat -> nat, mine: nat -> bool, x: X.Index, l: L.Lru, cursor: nat, lru: bool)
    requires X.Consistent(jhash, mine, x, None) && cursor < |x.bits| && L.Split(l, |x.bits|)
    ensures InvalidFirst(x.bits, Local(start, Global(start, Offered(x, l, cursor, lru))))
    ensures x.lists[X.INVALIDS] == [] ==> forall k {:trigger x.bits[k]} :: 0 <= k < |x.bits| ==> x.bits[k] != INVALID
  {
    if x.lists[X.INVALIDS] != [] {
      assert x.home[x.lists[X.INVALIDS][0]] == X.INVALIDS;
    } else {
      forall k | 0 <= k < |x.bits| ensures x.bits[k] != INVALID { assert Links.Listed(x.lists, x.home, k); }
      L.VictimExact(l, x.bits);
      FifoExact(x.bits, cursor, 0);
      FifoComplete(x.bits, cursor);
    }
  }

  method Use(cs: CacheSet, rs: ReclaimSet, ix: nat, threshold: int)
    requires Reclaims(cs, rs) && ix < cs.bits.Length
    modifies rs, rs.lruPrev, rs.lruNext, rs.isWarm, rs.useCnt
    ensures Reclaims(cs, rs) && rs.Model() == Used(old(rs.Model()), ix, cs.bits[ix], threshold) && rs.fifoNext == old(rs.fifoNext)
  {
    rs.Accessed(ix, threshold);
  }

  /** A VALID slot was found: an idle one counts as used. */
  method Touch(cs: CacheSet, rs: ReclaimSet, h: Found, lru: bool, threshold: int)
    requires Reclaims(cs, rs) && h.Some? && cs.start <= h.value < cs.start + cs.bits.Length && cs.bits[h.value - cs.start].valid
    modifies rs, rs.lruPrev, rs.lruNext, rs.isWarm, rs.useCnt
    ensures Reclaims(cs, rs)
    ensures Answers(old(rs.Model()), cs.bits[..], Local(cs.start, h), None, lru)
    ensures rs.Model() == Left(old(rs.Model()), cs.bits[..], Local(cs.start, h), None, lru, threshold)
    ensures rs.fifoNext == CursorLeft(cs.bits[..], old(rs.fifoNext), Local(cs.start, h), None, lru)
  {
    if lru && !cs.bits[h.value - cs.start].Busy() { Use(cs, rs, h.value - cs.start, threshold); }
  }

  method GetInvalid(cs: CacheSet, ghost mine: nat -> bool) returns (index: int)
    requires cs.Valid() && X.Consistent(cs.jhash, mine, cs.Model(), None)
    modifies cs, cs.hashPrev, cs.hashNext
    ensures cs.Valid() && cs.Model() == X.Apply(cs.jhash, mine, old(cs.Model()), None, X.Get)
    ensures index == if old(cs.lists)[X.INVALIDS] == [] then -1 else cs.start + old(cs.lists)[X.INVALIDS][0]
    ensures index != -1 ==> index - cs.start < cs.bits.Length
  {
    if cs.lists[X.INVALIDS] != [] { assert cs.home[cs.lists[X.INVALIDS][0]] == X.INVALIDS; }
    index := cs.InvalidGet();
  }

  method Reclaim(cs: CacheSet, rs: ReclaimSet, lru: bool) returns (index: int)
    requires Reclaims(cs, rs)
    modifies rs, rs.lruPrev, rs.lruNext, rs.isWarm, rs.useCnt
    ensures Reclaims(cs, rs) && (index == -1 || cs.start <= index < cs.start + cs.bits.Length)
    ensures Given(cs.start, cs.bits[..], old(rs.Model()), rs.Model(), old(rs.fifoNext), rs.fifoNext, lru, index)
  {
    if lru {
      L.VictimExact(rs.Model(), cs.bits[..]);
      index := rs.LruGetOldBlock();
    } else {
      index := rs.FifoGetOldBlock();
    }
  }

  /** Asked for a victim, the lists gave out slot index, or -1. */
  ghost predicate Given(start: nat, bits: seq<Bits>, l: L.Lru, r: L.Lru, from: nat, to: nat, lru: bool, index: int) {
    && L.Split(l, |bits|) && from < |bits| && (index == -1 || start <= index < start + |bits|)
    && if lru then r == L.Reclaimed(l, bits) && to == from && index == match L.Victim(l, bits) case Some(i) => start + i case None => -1
       else r == l && to == Around(|bits|, if index == -1 then from else index - start, 1)
            && index == match FifoDistance(bits, from, 0)
                        case None => -1
                        case Some(d) => if d < |bits| then start + Around(|bits|, from, d) else -1
  }

  /** The INVALID slot got is counted as used. */
  method TakeInvalid(cs: CacheSet, rs: ReclaimSet, v: Found, lru: bool, threshold: int)
    requires Reclaims(cs, rs) && v.Some? && cs.start <= v.value < cs.start + cs.bits.Length && cs.bits[v.value - cs.start] == INVALID
    modifies rs, rs.lruPrev, rs.lruNext, rs.isWarm, rs.useCnt
    ensures Reclaims(cs, rs) && Answers(old(rs.Model()), cs.bits[..], None, Local(cs.start, v), lru)
    ensures rs.Model() == Left(old(rs.Model()), cs.bits[..], None, Local(cs.start, v), lru, threshold)
    ensures rs.fifoNext == CursorLeft(cs.bits[..], old(rs.fifoNext), None, Local(cs.start, v), lru)
  {
    ghost var ix := v.value - cs.start;
    LeftInvalid(rs.Model(), cs.bits[..], ix, lru, threshold);
    assert Local(cs.start, v) == Some(ix);
    if lru { Use(cs, rs, v.value - cs.start, threshold); }
  }

  lemma LeftInvalid(l: L.Lru, bits: seq<Bits>, ix: nat, lru: bool, threshold: int)
    requires L.Split(l, |bits|) && ix < |bits| && bits[ix] == INVALID
    ensures Answers(l, bits, None, Some(ix), lru) && Left(l, bits, None, Some(ix), lru, threshold) == if lru then Used(l, ix, INVALID, threshold) else l
  {
  }

  method TakeVictim(cs: CacheSet, rs: ReclaimSet, lru: bool, threshold: int, ghost x: X.Index) returns (v: Found)
    requires Reclaims(cs, rs) && x.bits == cs.bits[..] && |x.lists| == X.BUCKETS + 1 && x.lists[X.INVALIDS] == []
    requires forall k {:trigger x.bits[k]} :: 0 <= k < |x.bits| ==> x.bits[k] != INVALID
    modifies rs, rs.lruPrev, rs.lruNext, rs.isWarm, rs.useCnt
    ensures Reclaims(cs, rs) && v == Global(cs.start, Offered(x, old(rs.Model()), old(rs.fifoNext), lru))
    ensures Answers(old(rs.Model()), cs.bits[..], None, Local(cs.start, v), lru)
    ensures rs.Model() == Left(old(rs.Model()), cs.bits[..], None, Local(cs.start, v), lru, threshold)
    ensures rs.fifoNext == CursorLeft(cs.bits[..], old(rs.fifoNext), None, Local(cs.start, v), lru)
  {
    ghost var l, cursor := rs.Model(), rs.fifoNext;
    var index := Reclaim(cs, rs, lru);
    v := if index == -1 then None else Some(index);
    GivenLeaves(cs.start, x, l, rs.Model(), cursor, rs.fifoNext, lru, index, threshold);
  }

  lemma GivenLeaves(start: nat, x: X.Index, l: L.Lru, r: L.Lru, from: nat, to: nat, lru: bool, index: int, threshold: int)
    requires Given(start, x.bits, l, r, from, to, lru, index) && |x.lists| == X.BUCKETS + 1 && x.lists[X.INVALIDS] == []
    requires forall k {:trigger x.bits[k]} :: 0 <= k < |x.bits| ==> x.bits[k] != INVALID
    ensures var v: Found := if index == -1 then None else Some(index);
      v == Global(start, Offered(x, l, from, lru)) && Answers(l, x.bits, None, Local(start, v), lru)
      && r == Left(l, x.bits, None, Local(start, v), lru, threshold) && to == CursorLeft(x.bits, from, None, Local(start, v), lru)
  {
    L.VictimExact(l, x.bits);
    FifoExact(x.bits, from, 0);
  }

  /** find_invalid_dbn, and find_reclaim_dbn if that finds nothing. */
  method Take(cs: CacheSet, rs: ReclaimSet, lru: bool, threshold: int, ghost mine: nat -> bool) returns (v: Found)
    requires cs.Valid() && X.Consistent(cs.jhash, mine, cs.Model(), None) && Reclaims(cs, rs)
    modifies cs, cs.hashPrev, cs.hashNext, rs, rs.lruPrev, rs.lruNext, rs.isWarm, rs.useCnt
    ensures cs.Valid() && Reclaims(cs, rs) && cs.Model() == X.Apply(cs.jhash, mine, old(cs.Model()), None, X.Get)
    ensures v == Global(cs.start, Offered(old(cs.Model()), old(rs.Model()), old(rs.fifoNext), lru)) && InvalidFirst(cs.bits[..], Local(cs.start, v))
    ensures Answers(old(rs.Model()), cs.bits[..], None, Local(cs.start, v), lru)
    ensures rs.Model() == Left(old(rs.Model()), cs.bits[..], None, Local(cs.start, v), lru, threshold)
    ensures rs.fifoNext == CursorLeft(cs.bits[..], old(rs.fifoNext), None, Local(cs.start, v), lru)
  {
    ghost var x := cs.Model();
    OffersFirst(cs.start, cs.jhash, mine, x, rs.Model(), rs.fifoNext, lru);
    var got := GetInvalid(cs, mine);
    if got != -1 {
      v := Some(got);
      TakeInvalid(cs, rs, v, lru, threshold);
    } else {
      v := TakeVictim(cs, rs, lru, threshold, x);
    }
  }

  /** What is off the invalid list after a lookup. */
  ghost function Off(x: X.Index, missed: bool): Option<nat>
    requires |x.lists| == X.BUCKETS + 1
  {
    if missed && x.lists[X.INVALIDS] != [] then Some(x.lists[X.INVALIDS][0]) else None
  }

  /** flashcache_lookup: the VALID slot of the block, or else the slot it may take. */
  method Lookup(cs: CacheSet, rs: ReclaimSet, d: nat, lru: bool, threshold: int, ghost c: Config, ghost s: State, ghost j: nat) returns (h: Found, v: Found)
    requires cs.Valid() && Indexed(c, s.slots, j, cs.start, cs.jhash, cs.Model(), None) && Reclaims(cs, rs) && c.hashBlock(d) == j
    modifies cs, cs.hashPrev, cs.hashNext, rs, rs.lruPrev, rs.lruNext, rs.isWarm, rs.useCnt
    ensures cs.Valid() && Indexed(c, s.slots, j, cs.start, cs.jhash, cs.Model(), Off(old(cs.Model()), h.None?)) && Reclaims(cs, rs)
    ensures h == Global(cs.start, X.Scan(old(cs.Model()), 0, d)) && IsLookup(c, s, d, h)
    ensures v == if h.Some? then None else Global(cs.start, Offered(old(cs.Model()), old(rs.Model()), old(rs.fifoNext), lru))
    ensures h.Some? ==> cs.start <= h.value < cs.start + cs.bits.Length
    ensures Offers(c, s, d, cs.start, cs.bits[..], v, Off(old(cs.Model()), h.None?))
    ensures h.None? ==> InvalidFirst(cs.bits[..], Local(cs.start, v))
    ensures Answers(old(rs.Model()), cs.bits[..], Local(cs.start, h), Local(cs.start, v), lru)
    ensures rs.Model() == Left(old(rs.Model()), cs.bits[..], Local(cs.start, h), Local(cs.start, v), lru, threshold)
    ensures rs.fifoNext == CursorLeft(cs.bits[..], old(rs.fifoNext), Local(cs.start, h), Local(cs.start, v), lru)
  {
    h := Find(cs, d, c, s, j, None);
    if h.Some? {
      Touch(cs, rs, h, lru, threshold);
      v := None;
    } else {
      v := Missed(cs, rs, d, lru, threshold, c, s, j);
    }
  }

  /** Slot v of the set, if any, may take block d, and is off the invalid list if INVALID. */
  predicate Offers(c: Config, s: State, d: nat, start: nat, bits: seq<Bits>, v: Found, held: Option<nat>) {
    match v
    case None => held.None?
    case Some(i) => start <= i < start + |bits| && Claimable(c, s, d, i) && held == if bits[i - start] == INVALID then Some(i - start) else None
  }

  lemma MissFacts(c: Config, s: State, j: nat, start: nat, jhash: nat -> nat, x: X.Index, l: L.Lru, cursor: nat, lru: bool, d: nat, v: Found)
    requires Indexed(c, s.slots, j, start, jhash, x, None) && c.hashBlock(d) == j && cursor < |x.bits| && L.Split(l, |x.bits|)
    requires v == Global(start, Offered(x, l, cursor, lru))
    ensures Indexed(c, s.slots, j, start, jhash, X.Apply(jhash, Mine(c, j), x, None, X.Get), Off(x, true))
    ensures Offers(c, s, d, start, x.bits, v, Off(x, true))
  {
    OfferedClaimable(c, s, j, start, jhash, x, l, cursor, lru, d);
    if x.lists[X.INVALIDS] != [] { GetIndexed(c, s.slots, j, start, jhash, x); }
  }

  method Missed(cs: CacheSet, rs: ReclaimSet, d: nat, lru: bool, threshold: int, ghost c: Config, ghost s: State, ghost j: nat) returns (v: Found)
    requires cs.Valid() && Indexed(c, s.slots, j, cs.start, cs.jhash, cs.Model(), None) && Reclaims(cs, rs) && c.hashBlock(d) == j
    modifies cs, cs.hashPrev, cs.hashNext, rs, rs.lruPrev, rs.lruNext, rs.isWarm, rs.useCnt
    ensures cs.Valid() && Indexed(c, s.slots, j, cs.start, cs.jhash, cs.Model(), Off(old(cs.Model()), true)) && Reclaims(cs, rs)
    ensures v == Global(cs.start, Offered(old(cs.Model()), old(rs.Model()), old(rs.fifoNext), lru))
    ensures Offers(c, s, d, cs.start, cs.bits[..], v, Off(old(cs.Model()), true))
    ensures InvalidFirst(cs.bits[..], Local(cs.start, v))
    ensures Answers(old(rs.Model()), cs.bits[..], None, Local(cs.start, v), lru)
    ensures rs.Model() == Left(old(rs.Model()), cs.bits[..], None, Local(cs.start, v), lru, threshold)
    ensures rs.fifoNext == CursorLeft(cs.bits[..], old(rs.fifoNext), None, Local(cs.start, v), lru)
  {
    ghost var x, l, cursor := cs.Model(), rs.Model(), rs.fifoNext;
    v := Take(cs, rs, lru, threshold, Mine(c, j));
    MissFacts(c, s, j, cs.start, cs.jhash, x, l, cursor, lru, d, v);
    OffersFirst(cs.start, cs.jhash, Mine(c, j), x, l, cursor, lru);
  }

  // ----- whole requests -----

  /** A request goes past the cache or has its block there. */
  method Known(k: Cache, cs: CacheSet, bio: Bio, h: Found, skip: bool, ghost j: nat)
    requires InStep(k, cs, j, None) && IsLookup(k.c, k.Now(), bio.dbn, h) && (h.Some? ==> cs.start <= h.value < cs.start + cs.bits.Length)
    requires Bypasses(k.c, bio, skip) || h.Some?
    modifies k, k.slots, cs, cs.bits, cs.dbn, cs.hashPrev, cs.hashNext, cs.buckets
    ensures InStep(k, cs, j, None) && k.steps == old(k.steps) + [Step.Map(bio, h, None, skip)] && k.run == old(k.run) + [k.Now()]
  {
    ghost var s := k.slots[..];
    Serve(k, bio, h, None, skip);
    if h.Some? { AfterAt(k.c, s, k.slots[..], MapTouch(k.c, s, bio, h, None, skip), h.value); }
    CatchMaybe(k, cs, h, j, s);
  }

  /** A request misses: its block takes slot v, or that goes back on the invalid list if it came from there. */
  method Fill(k: Cache, cs: CacheSet, bio: Bio, v: Found, skip: bool, ghost j: nat, ghost held: Option<nat>)
    requires InStep(k, cs, j, held) && IsLookup(k.c, k.Now(), bio.dbn, None) && !Bypasses(k.c, bio, skip)
    requires Offers(k.c, k.Now(), bio.dbn, cs.start, cs.bits[..], v, held)
    modifies k, k.slots, cs, cs.bits, cs.dbn, cs.hashPrev, cs.hashNext, cs.buckets
    ensures InStep(k, cs, j, None) && k.steps == old(k.steps) + [Step.Map(bio, None, v, skip)] && k.run == old(k.run) + [k.Now()]
  {
    ghost var s := k.slots[..];
    Serve(k, bio, None, v, skip);
    if v.Some? && (bio.write || !skip) {
      assert SameAt(cs.Model(), s, cs.start, v.value - cs.start);
      Follow(cs, v.value - cs.start, k.slots[v.value].bits, k.slots[v.value].dbn, k.c, j, s, k.slots[..], held);
    } else {
      Still(k.c, s, k.slots[..], j, cs.start, cs.jhash, cs.Model(), held);
      if v.Some? { PutBack(cs, v.value - cs.start, k.c, k.slots[..], j, held); }
    }
  }

  /** A slot not wanted after all. */
  method PutBack(cs: CacheSet, ix: nat, ghost c: Config, ghost s: seq<Slot>, ghost j: nat, ghost held: Option<nat>)
    requires cs.Valid() && Indexed(c, s, j, cs.start, cs.jhash, cs.Model(), held) && ix < cs.bits.Length
    requires held == if cs.bits[ix] == INVALID then Some(ix) else None
    modifies cs, cs.hashPrev, cs.hashNext
    ensures cs.Valid() && Indexed(c, s, j, cs.start, cs.jhash, cs.Model(), None)
  {
    if cs.bits[ix] == INVALID {
      ghost var x := cs.Model();
      X.ApplyConsistent(cs.jhash, Mine(c, j), x, held, X.Put(ix));
      cs.InvalidInsert(ix);
      forall i: nat | i < cs.bits.Length ensures SameAt(cs.Model(), s, cs.start, i) { assert SameAt(x, s, cs.start, i); }
    }
  }

  /** A request whose block has been looked up. */
  method Answer(k: Cache, cs: CacheSet, rs: ReclaimSet, bio: Bio, h: Found, v: Found, skip: bool, ghost j: nat, ghost held: Option<nat>)
    requires InStep(k, cs, j, held) && Reclaims(cs, rs) && IsLookup(k.c, k.Now(), bio.dbn, h)
    requires h.Some? ==> cs.start <= h.value < cs.start + cs.bits.Length
    requires Offers(k.c, k.Now(), bio.dbn, cs.start, cs.bits[..], v, held) && (v.Some? ==> h.None? && !Bypasses(k.c, bio, skip))
    modifies k, k.slots, cs, cs.bits, cs.dbn, cs.hashPrev, cs.hashNext, cs.buckets
    ensures InStep(k, cs, j, None) && Reclaims(cs, rs) && k.steps == old(k.steps) + [Step.Map(bio, h, v, skip)] && k.run == old(k.run) + [k.Now()]
    ensures rs.Model() == old(rs.Model()) && rs.fifoNext == old(rs.fifoNext)
  {
    Answered(k, cs, bio, h, v, skip, j, held);
  }

  method Answered(k: Cache, cs: CacheSet, bio: Bio, h: Found, v: Found, skip: bool, ghost j: nat, ghost held: Option<nat>)
    requires InStep(k, cs, j, held) && IsLookup(k.c, k.Now(), bio.dbn, h)
    requires h.Some? ==> cs.start <= h.value < cs.start + cs.bits.Length
    requires Offers(k.c, k.Now(), bio.dbn, cs.start, cs.bits[..], v, held) && (v.Some? ==> h.None? && !Bypasses(k.c, bio, skip))
    modifies k, k.slots, cs, cs.bits, cs.dbn, cs.hashPrev, cs.hashNext, cs.buckets
    ensures InStep(k, cs, j, None) && k.steps == old(k.steps) + [Step.Map(bio, h, v, skip)] && k.run == old(k.run) + [k.Now()]
  {
    if Bypasses(k.c, bio, skip) || h.Some? {
      Known(k, cs, bio, h, skip, j);
    } else {
      Fill(k, cs, bio, v, skip, j, held);
    }
  }

  /** What a request of the set finds; one that goes past the cache only looks its block up. */
  method Resolve(cs: CacheSet, rs: ReclaimSet, bio: Bio, skip: bool, lru: bool, threshold: int, c: Config, ghost s: State, ghost j: nat)
      returns (h: Found, v: Found, ghost held: Option<nat>)
    requires cs.Valid() && Indexed(c, s.slots, j, cs.start, cs.jhash, cs.Model(), None) && Reclaims(cs, rs) && c.hashBlock(bio.dbn) == j
    modifies cs, cs.hashPrev, cs.hashNext, rs, rs.lruPrev, rs.lruNext, rs.isWarm, rs.useCnt
    ensures cs.Valid() && Indexed(c, s.slots, j, cs.start, cs.jhash, cs.Model(), held) && Reclaims(cs, rs)
    ensures h == Global(cs.start, X.Scan(old(cs.Model()), 0, bio.dbn)) && IsLookup(c, s, bio.dbn, h)
    ensures v == if Bypasses(c, bio, skip) || h.Some? then None
                 else Global(cs.start, Offered(old(cs.Model()), old(rs.Model()), old(rs.fifoNext), lru))
    ensures h.Some? ==> cs.start <= h.value < cs.start + cs.bits.Length
    ensures Offers(c, s, bio.dbn, cs.start, cs.bits[..], v, held)
    ensures Bypasses(c, bio, skip) ==> rs.Model() == old(rs.Model()) && rs.fifoNext == old(rs.fifoNext)
    ensures !Bypasses(c, bio, skip) ==> Answers(old(rs.Model()), cs.bits[..], Local(cs.start, h), Local(cs.start, v), lru)
    ensures !Bypasses(c, bio, skip) && h.None? ==> InvalidFirst(cs.bits[..], Local(cs.start, v))
    ensures !Bypasses(c, bio, skip) ==> rs.Model() == Left(old(rs.Model()), cs.bits[..], Local(cs.start, h), Local(cs.start, v), lru, threshold)
    ensures !Bypasses(c, bio, skip) ==> rs.fifoNext == CursorLeft(cs.bits[..], old(rs.fifoNext), Local(cs.start, h), Local(cs.start, v), lru)
  {
    ghost var x := cs.Model();
    if Bypasses(c, bio, skip) {
      h := Find(cs, bio.dbn, c, s, j, None);
      v, held := None, None;
    } else {
      h, v := Lookup(cs, rs, bio.dbn, lru, threshold, c, s, j);
      held := Off(x, h.None?);
    }
  }

  /** flashcache_map: a request of the set, with the lookup and the victim computed from the
      set's index and lists, is one step of the protocol. */
  method Map(k: Cache, cs: CacheSet, rs: ReclaimSet, bio: Bio, skip: bool, lru: bool, threshold: int, ghost j: nat) returns (h: Found, v: Found)
    requires InStep(k, cs, j, None) && Reclaims(cs, rs) && k.c.hashBlock(bio.dbn) == j
    modifies k, k.slots, cs, cs.bits, cs.dbn, cs.hashPrev, cs.hashNext, cs.buckets, rs, rs.lruPrev, rs.lruNext, rs.isWarm, rs.useCnt
    ensures InStep(k, cs, j, None) && Reclaims(cs, rs) && k.steps == old(k.steps) + [Step.Map(bio, h, v, skip)] && k.run == old(k.run) + [k.Now()]
    ensures h == Global(cs.start, X.Scan(old(cs.Model()), 0, bio.dbn))
    ensures v == if Bypasses(k.c, bio, skip) || h.Some? then None
                 else Global(cs.start, Offered(old(cs.Model()), old(rs.Model()), old(rs.fifoNext), lru))
    ensures Bypasses(k.c, bio, skip) ==> rs.Model() == old(rs.Model()) && rs.fifoNext == old(rs.fifoNext)
    ensures !Bypasses(k.c, bio, skip) ==> Answers(old(rs.Model()), old(cs.bits[..]), Local(cs.start, h), Local(cs.start, v), lru)
    ensures !Bypasses(k.c, bio, skip) && h.None? ==> InvalidFirst(old(cs.bits[..]), Local(cs.start, v))
    ensures !Bypasses(k.c, bio, skip) ==> rs.Model() == Left(old(rs.Model()), old(cs.bits[..]), Local(cs.start, h), Local(cs.start, v), lru, threshold)
    ensures !Bypasses(k.c, bio, skip) ==> rs.fifoNext == CursorLeft(old(cs.bits[..]), old(rs.fifoNext), Local(cs.start, h), Local(cs.start, v), lru)
  {
    ghost var held, bits := None, cs.bits[..];
    h, v, held := Resolve(cs, rs, bio, skip, lru, threshold, k.c, k.Now(), j);
    assert cs.bits[..] == bits;
    Answer(k, cs, rs, bio, h, v, skip, j, held);
  }

  /** What becomes of the slot a lookup found when a request for its block invalidates it. */
  ghost predicate Invalidates(c: Config, s: seq<Slot>, t: seq<Slot>, h: Found) {
    match h case None => After(s, t, Untouched) case Some(i) => MovesAt(c, s, t, i)
  }

  lemma InvalMoves(c: Config, s: State, t: State, b: nat, h: Found, w: Touch)
    requires IsLookup(c, s, b, h) && After(s.slots, t.slots, w) && LegalTouch(c, s.slots, w) && (w == Untouched || w == InvalTouch(c, s.slots, h))
    ensures Invalidates(c, s.slots, t.slots, h)
  {
    if h.Some? { AfterAt(c, s.slots, t.slots, w, h.value); }
  }

  method EndUncached(k: Cache, x: nat, h: Found)
    requires k.Valid() && x in k.bios && k.bios[x].place == Uncached && k.bios[x].ran && IsLookup(k.c, k.Now(), k.bios[x].bio.dbn, h)
    modifies k, k.slots
    ensures k.Valid() && k.steps == old(k.steps) + [UncachedDone(x, h)] && k.run == old(k.run) + [k.Now()] && Invalidates(k.c, old(k.slots[..]), k.slots[..], h)
  {
    ghost var s, run, steps := k.Now(), k.run, k.steps;
    k.UncachedIoComplete(x, h);
    Stepped(k.c, k.initial, run, steps, s, k.Now(), UncachedDone(x, h));
    InvalMoves(k.c, s, k.Now(), s.bios[x].bio.dbn, h, StepTouch(k.c, s, UncachedDone(x, h)));
  }

  /** flashcache_uncached_io_complete: the block is looked up and invalidated once more. */
  method UncachedIoComplete(k: Cache, cs: CacheSet, x: nat, ghost j: nat) returns (h: Found)
    requires InStep(k, cs, j, None) && x in k.bios && k.bios[x].place == Uncached && k.bios[x].ran && k.c.hashBlock(k.bios[x].bio.dbn) == j
    modifies k, k.slots, cs, cs.bits, cs.dbn, cs.hashPrev, cs.hashNext, cs.buckets
    ensures InStep(k, cs, j, None) && k.steps == old(k.steps) + [UncachedDone(x, h)] && k.run == old(k.run) + [k.Now()]
    ensures h == Global(cs.start, X.Scan(old(cs.Model()), 0, old(k.bios)[x].bio.dbn))
  {
    ghost var s := k.slots[..];
    h := Find(cs, k.bios[x].bio.dbn, k.c, k.Now(), j, None);
    EndUncached(k, x, h);
    CatchMaybe(k, cs, h, j, s);
  }

  // ----- draining a slot -----

  method Begin(k: Cache, i: nat)
    requires k.Valid() && Enabled(k.c, k.Now(), Pending(i))
    modifies k, k.slots
    ensures k.Valid() && k.steps == old(k.steps) + [Pending(i)] && MovesAt(k.c, old(k.slots[..]), k.slots[..], i)
    ensures old(k.slots[i]).bits.valid && k.c.setOf[i] == k.c.hashBlock(k.slots[i].dbn)
    ensures !old(k.slots[i]).bits.dirty ==> k.slots[i] == old(k.slots[i]).(bits := k.slots[i].bits, work := Limbo)
  {
    ghost var s, run, steps := k.Now(), k.run, k.steps;
    FinishIsValid(k.c, k.initial, s, i) by { assert Reachable(k.c, k.initial, s); }
    k.BeginPending(i);
    Stepped(k.c, k.initial, run, steps, s, k.Now(), Pending(i));
    AfterAt(k.c, s.slots, k.slots[..], StepTouch(k.c, s, Pending(i)), i);
  }

  lemma FinishIsValid(c: Config, disk: map<nat, Data>, s: State, i: nat)
    requires WellFormed(c) && Reachable(c, disk, s) && i < |s.slots| && s.slots[i].work.Finish?
    ensures s.slots[i].bits.valid && i < |c.setOf| && c.setOf[i] == c.hashBlock(s.slots[i].dbn)
  {
    ReachableGood(c, disk, s);
    assert SlotOk(c, i, s.slots[i]);
  }

  method Detach(k: Cache, i: nat)
    requires k.Valid() && i < k.slots.Length && k.slots[i].work.Limbo?
    modifies k, k.slots
    ensures k.Valid() && k.steps == old(k.steps) + [Step.Detach(i)] && After(old(k.slots[..]), k.slots[..], Untouched)
    ensures k.slots[i].work == Drain(old(k.slots[i]).pend)
  {
    ghost var s, run, steps := k.Now(), k.run, k.steps;
    k.LimboIdx(i);
    k.DeqPending(i);
    Stepped(k.c, k.initial, run, steps, s, k.Now(), Step.Detach(i));
  }

  method ReplayOne(k: Cache, i: nat, h: Found)
    requires k.Valid() && i < k.slots.Length && k.slots[i].work.Drain? && k.slots[i].work.rest != [] && IsLookup(k.c, k.Now(), k.slots[i].dbn, h)
    modifies k, k.slots
    ensures k.Valid() && k.steps == old(k.steps) + [Replay(i, h)] && k.run == old(k.run) + [k.Now()] && Invalidates(k.c, old(k.slots[..]), k.slots[..], h)
    ensures k.slots[i].work == Drain(old(k.slots[i]).work.rest[1..]) && k.slots[i].dbn == old(k.slots[i]).dbn
  {
    ghost var s, run, steps := k.Now(), k.run, k.steps;
    k.LimboIdx(i);
    k.DrainInfo(i, h);
    k.ReplayNext(i, h);
    Stepped(k.c, k.initial, run, steps, s, k.Now(), Replay(i, h));
    InvalMoves(k.c, s, k.Now(), s.slots[i].dbn, h, StepTouch(k.c, s, Replay(i, h)));
  }

  method Finished(k: Cache, i: nat)
    requires k.Valid() && i < k.slots.Length && k.slots[i].work == Drain([])
    modifies k, k.slots
    ensures k.Valid() && k.steps == old(k.steps) + [DrainDone(i)] && MovesAt(k.c, old(k.slots[..]), k.slots[..], i)
  {
    ghost var s, run, steps := k.Now(), k.run, k.steps;
    k.LimboIdx(i);
    k.EndDrain(i);
    Stepped(k.c, k.initial, run, steps, s, k.Now(), DrainDone(i));
    AfterAt(k.c, s.slots, k.slots[..], StepTouch(k.c, s, DrainDone(i)), i);
  }

  /** One turn of the loop: the entry's block is looked up anew. */
  method ReplayNext(k: Cache, cs: CacheSet, i: nat, ghost j: nat) returns (h: Found)
    requires InStep(k, cs, j, None) && i < k.slots.Length && k.slots[i].work.Drain? && k.slots[i].work.rest != [] && k.c.hashBlock(k.slots[i].dbn) == j
    modifies k, k.slots, cs, cs.bits, cs.dbn, cs.hashPrev, cs.hashNext, cs.buckets
    ensures InStep(k, cs, j, None) && k.steps == old(k.steps) + [Replay(i, h)] && k.run == old(k.run) + [k.Now()]
    ensures h == Global(cs.start, X.Scan(old(cs.Model()), 0, old(k.slots[i]).dbn))
    ensures k.slots[i].work == Drain(old(k.slots[i]).work.rest[1..]) && k.slots[i].dbn == old(k.slots[i]).dbn
  {
    ghost var s := k.slots[..];
    h := Find(cs, k.slots[i].dbn, k.c, k.Now(), j, None);
    ReplayOne(k, i, h);
    CatchMaybe(k, cs, h, j, s);
  }

  method DetachAll(k: Cache, cs: CacheSet, i: nat, ghost j: nat)
    requires InStep(k, cs, j, None) && i < k.slots.Length && k.slots[i].work.Limbo?
    modifies k, k.slots
    ensures InStep(k, cs, j, None) && k.steps == old(k.steps) + [Step.Detach(i)]
    ensures k.slots[i].work == Drain(old(k.slots[i]).pend) && k.slots[i].dbn == old(k.slots[i]).dbn
  {
    ghost var s := k.slots[..];
    Detach(k, i);
    Still(k.c, s, k.slots[..], j, cs.start, cs.jhash, cs.Model(), None);
  }

  /** The requests taken off the table are replayed to disk, in the order they came. */
  method ReplayAll(k: Cache, cs: CacheSet, i: nat, ghost j: nat) returns (ghost hits: seq<Found>)
    requires InStep(k, cs, j, None) && i < k.slots.Length && k.slots[i].work.Drain? && k.c.hashBlock(k.slots[i].dbn) == j
    modifies k, k.slots, cs, cs.bits, cs.dbn, cs.hashPrev, cs.hashNext, cs.buckets
    ensures InStep(k, cs, j, None) && k.slots[i].work == Drain([]) && |hits| == |old(k.slots[i]).work.rest|
    ensures k.steps == old(k.steps) + Replays(i, hits)
  {
    hits := [];
    while k.slots[i].work.rest != []
      invariant InStep(k, cs, j, None) && k.slots[i].work.Drain? && k.c.hashBlock(k.slots[i].dbn) == j
      invariant |hits| + |k.slots[i].work.rest| == |old(k.slots[i]).work.rest| && k.steps == old(k.steps) + Replays(i, hits)
      decreases |k.slots[i].work.rest|
    {
      var h := ReplayNext(k, cs, i, j);
      OneReplay(i, hits, h);
      hits := hits + [h];
    }
  }

  method BeginPending(k: Cache, cs: CacheSet, i: nat, ghost j: nat) returns (clean: bool)
    requires InStep(k, cs, j, None) && Enabled(k.c, k.Now(), Pending(i)) && cs.start <= i < cs.start + cs.bits.Length
    modifies k, k.slots, cs, cs.bits, cs.dbn, cs.hashPrev, cs.hashNext, cs.buckets
    ensures InStep(k, cs, j, None) && k.steps == old(k.steps) + [Pending(i)] && clean == old(k.slots[i]).bits.dirty
    ensures !clean ==> k.slots[i].work.Limbo? && k.slots[i].pend == old(k.slots[i]).pend && k.c.hashBlock(k.slots[i].dbn) == j
  {
    ghost var s := k.slots[..];
    clean := k.slots[i].bits.dirty;
    Begin(k, i);
    Catch(k, cs, i, j, s);
  }

  method EndPending(k: Cache, cs: CacheSet, i: nat, ghost j: nat)
    requires InStep(k, cs, j, None) && k.slots.Length > i && k.slots[i].work == Drain([]) && cs.start <= i < cs.start + cs.bits.Length
    modifies k, k.slots, cs, cs.bits, cs.dbn, cs.hashPrev, cs.hashNext, cs.buckets
    ensures InStep(k, cs, j, None) && k.steps == old(k.steps) + [DrainDone(i)]
  {
    ghost var s := k.slots[..];
    Finished(k, i);
    Catch(k, cs, i, j, s);
  }

  /** flashcache_do_pending_noerror: a DIRTY slot is cleaned first; else it goes into limbo, the
      requests waiting for it are replayed, and it is freed. */
  method DoPending(k: Cache, cs: CacheSet, i: nat, ghost j: nat) returns (ghost hits: seq<Found>)
    requires InStep(k, cs, j, None) && Enabled(k.c, k.Now(), Pending(i)) && cs.start <= i < cs.start + cs.bits.Length
    modifies k, k.slots, cs, cs.bits, cs.dbn, cs.hashPrev, cs.hashNext, cs.buckets
    ensures InStep(k, cs, j, None)
    ensures old(k.slots[i]).bits.dirty ==> k.steps == old(k.steps) + [Pending(i)]
    ensures !old(k.slots[i]).bits.dirty ==>
              |hits| == |old(k.slots[i]).pend| && k.steps == old(k.steps) + [Pending(i), Step.Detach(i)] + Replays(i, hits) + [DrainDone(i)]
  {
    hits := [];
    var clean := BeginPending(k, cs, i, j);
    if !clean {
      DetachAll(k, cs, i, j);
      hits := ReplayAll(k, cs, i, j);
      EndPending(k, cs, i, j);
    }
  }
}
