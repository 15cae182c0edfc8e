/** The index and the reclaim lists of a cache set as the protocol sees them: whatever they
    answer satisfies what the protocol assumes of a lookup and of a victim, and every step of
    the protocol is a sequence of updates the index allows. */
module SetView {
  import opened Types
  import opened Protocol
  import opened Invariant
  import opened Steps
  import opened SlotIndex
  import X = IndexSpec
  import L = LruSpec
  import F = LruLists

  /** Set k is the n slots from `start` on. */
  ghost predicate SetAt(c: Config, k: nat, start: nat, n: nat) {
    start + n <= |c.setOf| && forall i {:trigger c.setOf[i]} :: 0 <= i < |c.setOf| ==> (c.setOf[i] == k <==> start <= i < start + n)
  }

  predicate SameAt(x: X.Index, s: seq<Slot>, start: nat, j: nat)
    requires j < |x.bits| == |x.dbn| && start + j < |s|
  {
    x.bits[j] == s[start + j].bits && x.dbn[j] == s[start + j].dbn
  }

  /** The index has the state words and blocks of those slots. */
  ghost predicate Mirrors(x: X.Index, s: seq<Slot>, start: nat) {
    && |x.bits| == |x.dbn| && start + |x.bits| <= |s|
    && forall j: nat {:trigger SameAt(x, s, start, j)} {:trigger x.bits[j]} {:trigger x.dbn[j]} :: j < |x.bits| ==> SameAt(x, s, start, j)
  }

  /** The blocks of set k. */
  function Mine(c: Config, k: nat): nat -> bool { (d: nat) => c.hashBlock(d) == k }

  ghost predicate Indexed(c: Config, s: seq<Slot>, k: nat, start: nat, jhash: nat -> nat, x: X.Index, held: Option<nat>) {
    |s| == |c.setOf| && SetAt(c, k, start, |x.bits|) && Mirrors(x, s, start) && X.Consistent(jhash, Mine(c, k), x, held)
  }

  function Global(start: nat, j: Option<nat>): Option<nat> {
    match j case None => None case Some(i) => Some(start + i)
  }

  // ----- what the structures answer is what the protocol assumes -----

  /** What a scan of the set finds, and so a walk of the hash chain, is a lookup's answer. */
  lemma ScanIsLookup(c: Config, s: State, k: nat, start: nat, jhash: nat -> nat, x: X.Index, held: Option<nat>, b: nat)
    requires Indexed(c, s.slots, k, start, jhash, x, held) && c.hashBlock(b) == k
    ensures IsLookup(c, s, b, Global(start, X.Scan(x, 0, b)))
  {
    X.ScanFinds(x, 0, b);
    match X.Scan(x, 0, b)
    case Some(j) => assert SameAt(x, s.slots, start, j);
    case None =>
      forall i | start <= i < start + |x.bits| ensures !(s.slots[i].bits.valid && s.slots[i].dbn == b) { assert SameAt(x, s.slots, start, i - start); }
  }

  lemma WalkIsLookup(c: Config, s: State, k: nat, start: nat, jhash: nat -> nat, x: X.Index, held: Option<nat>, b: nat)
    requires Indexed(c, s.slots, k, start, jhash, x, held) && c.hashBlock(b) == k
    ensures forall j {:trigger x.lists[X.Bucket(jhash, b)][j]} :: 0 <= j < |x.lists[X.Bucket(jhash, b)]| ==> x.lists[X.Bucket(jhash, b)][j] < |x.dbn|
    ensures IsLookup(c, s, b, Global(start, X.Walk(x, x.lists[X.Bucket(jhash, b)], b)))
  {
    X.LookupIsScan(jhash, Mine(c, k), x, held, b);
    ScanIsLookup(c, s, k, start, jhash, x, held, b);
  }

  /** A slot whose state word is exactly INVALID or exactly VALID may be claimed. */
  lemma ExactIsClaimable(c: Config, s: State, k: nat, start: nat, jhash: nat -> nat, x: X.Index, held: Option<nat>, b: nat, j: nat)
    requires Indexed(c, s.slots, k, start, jhash, x, held) && c.hashBlock(b) == k && j < |x.bits| && (x.bits[j] == VALID || x.bits[j] == INVALID)
    ensures Claimable(c, s, b, start + j)
  {
    assert SameAt(x, s.slots, start, j) && c.setOf[start + j] == k;
  }

  /** The head of the invalid list may be claimed ... */
  lemma InvalidIsClaimable(c: Config, s: State, k: nat, start: nat, jhash: nat -> nat, x: X.Index, b: nat)
    requires Indexed(c, s.slots, k, start, jhash, x, None) && c.hashBlock(b) == k && x.lists[X.INVALIDS] != []
    ensures x.lists[X.INVALIDS][0] < |x.bits| && x.bits[x.lists[X.INVALIDS][0]] == INVALID
    ensures Claimable(c, s, b, start + x.lists[X.INVALIDS][0])
  {
    assert x.home[x.lists[X.INVALIDS][0]] == X.INVALIDS;
    ExactIsClaimable(c, s, k, start, jhash, x, None, b, x.lists[X.INVALIDS][0]);
  }

  /** ... and so may the LRU victim ... */
  lemma LruIsClaimable(c: Config, s: State, k: nat, start: nat, jhash: nat -> nat, x: X.Index, l: L.Lru, b: nat)
    requires Indexed(c, s.slots, k, start, jhash, x, None) && c.hashBlock(b) == k && L.Split(l, |x.bits|) && L.Victim(l, x.bits).Some?
    ensures Claimable(c, s, b, start + L.Victim(l, x.bits).value)
  {
    L.VictimExact(l, x.bits);
    ExactIsClaimable(c, s, k, start, jhash, x, None, b, L.Victim(l, x.bits).value);
  }

  /** ... and the FIFO victim. */
  lemma FifoIsClaimable(c: Config, s: State, k: nat, start: nat, jhash: nat -> nat, x: X.Index, cursor: nat, b: nat)
    requires Indexed(c, s.slots, k, start, jhash, x, None) && c.hashBlock(b) == k && cursor < |x.bits| && F.FifoDistance(x.bits, cursor, 0).Some?
    ensures F.FifoDistance(x.bits, cursor, 0).value < |x.bits|
    ensures Claimable(c, s, b, start + F.Around(|x.bits|, cursor, F.FifoDistance(x.bits, cursor, 0).value))
  {
    F.FifoExact(x.bits, cursor, 0);
    ExactIsClaimable(c, s, k, start, jhash, x, None, b, F.Around(|x.bits|, cursor, F.FifoDistance(x.bits, cursor, 0).value));
  }

  // ----- every step is a sequence of updates the index allows -----

  /** The update of the index that goes with a touch of slot j. */
  function OpOf(was: Bits, wasDbn: nat, w: Touch, j: nat): Option<X.Op>
    requires w.Touched?
  {
    if w.bits == was && w.dbn == wasDbn then None
    else if was.valid && w.bits.valid && w.dbn == wasDbn then Some(X.Mark(j, w.bits))
    else if w.bits.valid then Some(X.Op.Claim(j, w.dbn, w.bits))
    else if was == VALID then Some(X.Drop(j))
    else if was.valid then Some(X.Limbo(j))
    else Some(X.Settle(j))
  }

  predicate Inside(w: Touch, start: nat, n: nat) { w.Touched? && start <= w.i < start + n }

  /** Whether a touch claims a slot that was INVALID: the index must have given it out. */
  predicate TakesInvalid(s: seq<Slot>, w: Touch) { w.Touched? && w.i < |s| && s[w.i].bits == INVALID && w.bits.valid }

  lemma TouchAllowed(c: Config, s: seq<Slot>, k: nat, start: nat, jhash: nat -> nat, x: X.Index, held: Option<nat>, w: Touch)
    requires Indexed(c, s, k, start, jhash, x, held) && LegalTouch(c, s, w) && Inside(w, start, |x.bits|)
    requires held == if TakesInvalid(s, w) then Some(w.i - start) else None
    ensures var op := OpOf(x.bits[w.i - start], x.dbn[w.i - start], w, w.i - start);
            op.Some? ==> X.Allowed(Mine(c, k), x, held, op.value) && X.Holding(x, held, op.value) == None
  {
    var j: nat := w.i - start;
    assert SameAt(x, s, start, j);
    if Claims(c, s, w) {
      forall i: nat {:trigger x.bits[i]} | i < |x.bits| && x.bits[i].valid ensures x.dbn[i] != w.dbn { assert SameAt(x, s, start, i) && s[start + i].bits.valid; }
      assert c.setOf[w.i] == k;
    }
  }

  lemma OpMirrors(c: Config, s: seq<Slot>, t: seq<Slot>, k: nat, start: nat, jhash: nat -> nat, x: X.Index, held: Option<nat>, w: Touch)
    requires Indexed(c, s, k, start, jhash, x, held) && LegalTouch(c, s, w) && Inside(w, start, |x.bits|) && After(s, t, w)
    requires held == if TakesInvalid(s, w) then Some(w.i - start) else None
    requires OpOf(x.bits[w.i - start], x.dbn[w.i - start], w, w.i - start).Some?
    requires X.Allowed(Mine(c, k), x, held, OpOf(x.bits[w.i - start], x.dbn[w.i - start], w, w.i - start).value)
    ensures Mirrors(X.Apply(jhash, Mine(c, k), x, held, OpOf(x.bits[w.i - start], x.dbn[w.i - start], w, w.i - start).value), t, start)
  {
    var j: nat := w.i - start;
    var y := X.Apply(jhash, Mine(c, k), x, held, OpOf(x.bits[j], x.dbn[j], w, j).value);
    assert SameAt(x, s, start, j);
    assert y.bits == x.bits[j := w.bits] && y.dbn == x.dbn[j := w.dbn];
    forall i: nat | i < |y.bits| ensures SameAt(y, t, start, i) { assert SameAt(x, s, start, i); }
  }

  /** The index after the update that is asked for, if any. */
  ghost function Updated(jhash: nat -> nat, mine: nat -> bool, x: X.Index, held: Option<nat>, op: Option<X.Op>): X.Index {
    if op.Some? && X.Consistent(jhash, mine, x, held) && X.Allowed(mine, x, held, op.value) then X.Apply(jhash, mine, x, held, op.value) else x
  }

  /** The index after a touch, if it is of this set. */
  ghost function Touched1(c: Config, k: nat, start: nat, jhash: nat -> nat, x: X.Index, held: Option<nat>, w: Touch): X.Index
    requires |x.bits| == |x.dbn|
  {
    if Inside(w, start, |x.bits|) then Updated(jhash, Mine(c, k), x, held, OpOf(x.bits[w.i - start], x.dbn[w.i - start], w, w.i - start)) else x
  }

  /** The update is allowed, and after it the index has the set's slots as they are then. */
  lemma TouchInside(c: Config, s: seq<Slot>, t: seq<Slot>, k: nat, start: nat, jhash: nat -> nat, x: X.Index, held: Option<nat>, w: Touch, j: nat)
    requires Indexed(c, s, k, start, jhash, x, held) && LegalTouch(c, s, w) && After(s, t, w) && j < |x.bits| && w.Touched? && w.i == start + j
    requires held == if TakesInvalid(s, w) then Some(j) else None
    ensures var op := OpOf(x.bits[j], x.dbn[j], w, j); op.Some? ==> X.Allowed(Mine(c, k), x, held, op.value)
    ensures Indexed(c, t, k, start, jhash, Updated(jhash, Mine(c, k), x, held, OpOf(x.bits[j], x.dbn[j], w, j)), None)
  {
    assert SameAt(x, s, start, j);
    TouchAllowed(c, s, k, start, jhash, x, held, w);
    match OpOf(x.bits[j], x.dbn[j], w, j)
    case None => forall i: nat | i < |x.bits| ensures SameAt(x, t, start, i) { assert SameAt(x, s, start, i); }
    case Some(op) =>
      OpMirrors(c, s, t, k, start, jhash, x, held, w);
      X.ApplyConsistent(jhash, Mine(c, k), x, held, op);
  }

  lemma TouchIndexed(c: Config, s: seq<Slot>, t: seq<Slot>, k: nat, start: nat, jhash: nat -> nat, x: X.Index, held: Option<nat>, w: Touch)
    requires Indexed(c, s, k, start, jhash, x, held) && LegalTouch(c, s, w) && After(s, t, w)
    requires held == if Inside(w, start, |x.bits|) && TakesInvalid(s, w) then Some(w.i - start) else None
    ensures Indexed(c, t, k, start, jhash, Touched1(c, k, start, jhash, x, held, w), None)
  {
    if Inside(w, start, |x.bits|) {
      TouchInside(c, s, t, k, start, jhash, x, held, w, w.i - start);
    } else {
      forall i: nat | i < |x.bits| ensures SameAt(x, t, start, i) { assert SameAt(x, s, start, i); }
    }
  }

  /** The slot a missed request takes is the one the index gives out, if that was INVALID. */
  ghost predicate FromIndex(c: Config, s: seq<Slot>, start: nat, x: X.Index, w: Touch) {
    |x.bits| == |x.dbn| && (Inside(w, start, |x.bits|) && TakesInvalid(s, w) ==> |x.lists| == X.BUCKETS + 1 && x.lists[X.INVALIDS] != [] && w.i == start + x.lists[X.INVALIDS][0])
  }

  /** The index after a touch, which may take the first INVALID slot. */
  ghost function Followed(c: Config, s: seq<Slot>, k: nat, start: nat, jhash: nat -> nat, x: X.Index, w: Touch): X.Index {
    if |x.bits| != |x.dbn| || !X.Consistent(jhash, Mine(c, k), x, None) then x
    else if Inside(w, start, |x.bits|) && TakesInvalid(s, w)
    then Touched1(c, k, start, jhash, X.Apply(jhash, Mine(c, k), x, None, X.Get), Some(w.i - start), w)
    else Touched1(c, k, start, jhash, x, None, w)
  }

  lemma TouchFollows(c: Config, s: seq<Slot>, t: seq<Slot>, k: nat, start: nat, jhash: nat -> nat, x: X.Index, w: Touch)
    requires Indexed(c, s, k, start, jhash, x, None) && LegalTouch(c, s, w) && After(s, t, w) && FromIndex(c, s, start, x, w)
    ensures Indexed(c, t, k, start, jhash, Followed(c, s, k, start, jhash, x, w), None)
  {
    if Inside(w, start, |x.bits|) && TakesInvalid(s, w) {
      GetIndexed(c, s, k, start, jhash, x);
      TouchIndexed(c, s, t, k, start, jhash, X.Apply(jhash, Mine(c, k), x, None, X.Get), Some(w.i - start), w);
    } else {
      TouchIndexed(c, s, t, k, start, jhash, x, None, w);
    }
  }

  lemma GetIndexed(c: Config, s: seq<Slot>, k: nat, start: nat, jhash: nat -> nat, x: X.Index)
    requires Indexed(c, s, k, start, jhash, x, None) && x.lists[X.INVALIDS] != []
    ensures Indexed(c, s, k, start, jhash, X.Apply(jhash, Mine(c, k), x, None, X.Get), Some(x.lists[X.INVALIDS][0]))
  {
    var z := X.Apply(jhash, Mine(c, k), x, None, X.Get);
    X.ApplyConsistent(jhash, Mine(c, k), x, None, X.Get);
    forall i: nat | i < |z.bits| ensures SameAt(z, s, start, i) { assert SameAt(x, s, start, i); }
  }
}
