/** What the replacement lists are for: a slot used lately is not replaced soon, and a slot used
    often enough while it is warm becomes hot. */
module LruLaws {
  import opened Types
  import opened Links
  import opened LruSpec

  // ----- used lately -----

  predicate LastOf(q: seq<nat>, i: nat) { q != [] && q[|q| - 1] == i }

  /** Slot i, warm before, has changed places with the LRU end of the hot list. */
  predicate JustPromoted(l: Lru, r: Lru, i: nat) {
    i in l.warm && l.hot != [] && r.hot != [] && r.hot[0] == i && i !in r.warm && LastOf(r.warm, l.hot[0])
  }

  /** Of two other slots that have stayed on a list, the one that was nearer to its LRU end still is. */
  ghost predicate InOrder(q: seq<nat>, r: seq<nat>, i: nat) {
    forall a: nat, b: nat {:trigger Nearer(q, a, b)} :: a != i && b != i && Nearer(q, a, b) && a in r && b in r ==> Nearer(r, a, b)
  }

  ghost predicate Nearer(q: seq<nat>, a: nat, b: nat) { exists m: nat, n: nat {:trigger q[m], q[n]} :: m < n < |q| && q[m] == a && q[n] == b }

  /** Slot i has just been used: it is the last of its list that reclaim comes to, or has just
      become hot; all others are in the order they were in. */
  ghost predicate JustUsed(l: Lru, r: Lru, i: nat) {
    && (if i in l.hot then LastOf(r.hot, i) && r.warm == l.warm else (LastOf(r.warm, i) && r.hot == l.hot) || JustPromoted(l, r, i))
    && (forall j: nat :: j in l.hot + l.warm ==> j in r.hot + r.warm)
    && InOrder(l.warm, r.warm, i) && InOrder(l.hot, r.hot, i)
  }

  lemma NearerAt(q: seq<nat>, m: nat, n: nat)
    requires m < n < |q|
    ensures Nearer(q, q[m], q[n])
  {
  }

  /** Taking an element out and adding new ones behind keeps the order of the others. */
  lemma {:induction false} WithoutInOrder(q: seq<nat>, k: nat, tail: seq<nat>)
    requires k < |q|
    ensures InOrder(q, Without(q, k) + tail, q[k])
  {
    var r := Without(q, k) + tail;
    forall a: nat, b: nat | a != q[k] && b != q[k] && Nearer(q, a, b) && a in r && b in r ensures Nearer(r, a, b) {
      var m: nat, n: nat :| m < n < |q| && q[m] == a && q[n] == b;
      NearerAt(r, if m < k then m else m - 1, if n < k then n else n - 1);
    }
  }

  lemma DeleteInOrder(q: seq<nat>, i: nat, tail: seq<nat>)
    requires Distinct(q) && i in q
    ensures InOrder(q, Delete(q, i) + tail, i)
  {
    DeleteIsWithout(q, Position(q, i));
    WithoutInOrder(q, Position(q, i), tail);
  }

  /** Replacing the first element keeps the order of the others. */
  lemma {:induction false} HeadInOrder(q: seq<nat>, x: nat)
    requires q != [] && Distinct(q)
    ensures InOrder(q, [x] + q[1..], x)
  {
    var r := [x] + q[1..];
    forall a: nat, b: nat | a != x && b != x && Nearer(q, a, b) && a in r && b in r ensures Nearer(r, a, b) {
      var m: nat, n: nat :| m < n < |q| && q[m] == a && q[n] == b;
      if m == 0 {
        var p :| 0 <= p < |r| && r[p] == a;
        Apart(q, 0, p);
      }
      NearerAt(r, m, n);
    }
  }

  lemma SameInOrder(q: seq<nat>, i: nat)
    ensures InOrder(q, q, i)
  {
  }

  lemma MoveUsed(l: Lru, n: nat, i: nat)
    requires Split(l, n) && i < n
    ensures JustUsed(l, MoveToMru(l, i), i)
  {
    OnList(l, n, i);
    SameInOrder(l.hot, i);
    SameInOrder(l.warm, i);
    if i in l.hot {
      DeleteInOrder(l.hot, i, [i]);
      DeleteKeeps(l.hot, i);
    } else {
      DeleteInOrder(l.warm, i, [i]);
      DeleteKeeps(l.warm, i);
    }
  }

  lemma PromoteUsed(l: Lru, n: nat, i: nat)
    requires Split(l, n) && i in l.warm && l.hot != []
    ensures i < n && l.hot[0] < n && JustUsed(l, Promote(l, i), i)
  {
    OnList(l, n, i);
    OnList(l, n, l.hot[0]);
    DeleteInOrder(l.warm, i, [l.hot[0]]);
    DeleteKeeps(l.warm, i);
    HeadInOrder(l.hot, i);
    assert l.hot == [l.hot[0]] + l.hot[1..];
  }

  /** An access makes its slot the one used last. */
  lemma AccessUses(l: Lru, n: nat, i: nat, b: Bits, threshold: int)
    requires Split(l, n) && i < n
    ensures l.hot != [] ==> l.hot[0] < n
    ensures JustUsed(l, Accessed(l, i, b, threshold), i)
  {
    OnList(l, n, i);
    if i in l.hot || b == INVALID {
      MoveUsed(l, n, i);
    } else {
      var u := Counted(l, i);
      SameMembers(l, u, n);
      MoveUsed(u, n, i);
      if u.hot != [] { PromoteUsed(u, n, i); }
    }
  }

  /** A slot reclaim has given out is the last it will come to. */
  lemma ReclaimUses(l: Lru, bits: seq<Bits>)
    requires Split(l, |bits|) && Victim(l, bits).Some?
    ensures Victim(l, bits).value < |bits| && JustGiven(l, Reclaimed(l, bits), Victim(l, bits).value)
  {
    var i := Victim(l, bits).value;
    VictimExact(l, bits);
    OnList(l, |bits|, i);
    if i in l.warm { DeleteKeeps(l.warm, i); } else { DeleteKeeps(l.hot, i); }
  }

  /** Slot i has been taken for another block: it is the last of the warm list, unless all are hot. */
  ghost predicate JustGiven(l: Lru, r: Lru, i: nat) {
    i < |r.use| && r.use[i] == 0 && if l.warm != [] then LastOf(r.warm, i) else LastOf(r.hot, i)
  }

  /** So reclaim does not give out a slot just used while another warm slot can be had. */
  lemma NotReclaimed(l: Lru, r: Lru, i: nat, j: nat, bits: seq<Bits>)
    requires Split(r, |bits|) && JustUsed(l, r, i) && i < |bits| && j in r.warm && j != i && j < |bits| && bits[j] == VALID
    ensures Victim(r, bits).Some? && Victim(r, bits).value != i
  {
    FirstFound(r.warm, bits);
    var k :| 0 <= k < |r.warm| && r.warm[k] == j;
    var f :| 0 <= f < |r.warm| && r.warm[f] == FirstValid(r.warm, bits).value && forall q {:trigger r.warm[q]} :: 0 <= q < f ==> bits[r.warm[q]] != VALID;
    OnList(r, |bits|, i);
    assert LastOf(r.hot, i) ==> i in r.hot;
    if LastOf(r.warm, i) { Apart(r.warm, f, |r.warm| - 1); }
  }

  // ----- used often enough -----

  /** The step counts as a use of slot i. */
  predicate IsUse(op: Op, i: nat) { op.Access? && op.i == i && op.b != INVALID }

  /** How often slot i is used from step a to step n. */
  function Uses(ops: seq<Op>, a: nat, n: nat, i: nat): nat
    requires a <= n <= |ops|
    decreases n
  {
    if n == a then 0 else Uses(ops, a, n - 1, i) + if IsUse(ops[n - 1], i) then 1 else 0
  }

  /** Reclaim gives out slot i. */
  predicate Claims(l: Lru, assoc: nat, op: Op, i: nat)
    requires Fits(op, assoc)
  {
    op.Reclaim? && (forall k {:trigger l.hot[k]} :: 0 <= k < |l.hot| ==> l.hot[k] < |op.bits|)
    && (forall k {:trigger l.warm[k]} :: 0 <= k < |l.warm| ==> l.warm[k] < |op.bits|) && Victim(l, op.bits) == Some(i)
  }

  lemma {:induction false} WarmedUse(l: Lru, k: nat, i: nat)
    requires i < |l.use|
    ensures |Warmed(l, k).use| == |l.use|
    ensures i in Warmed(l, k).warm ==> i in l.warm
    ensures Distinct(l.warm) && i in Warmed(l, k).warm ==> Warmed(l, k).use[i] == l.use[i]
    decreases k
  {
    if !(k == 0 || l.warm == [] || l.warm[0] >= |l.use|) {
      var u := Lru([l.warm[0]] + l.hot, l.warm[1..], l.use[l.warm[0] := 0]);
      WarmedUse(u, k - 1, i);
      assert l.warm == [l.warm[0]] + l.warm[1..];
      if Distinct(l.warm) {
        LessDistinct(l.warm);
        if i in l.warm[1..] { Apart(l.warm, 0, Position(l.warm[1..], i) + 1); }
      }
    }
  }

  lemma {:induction false} CooledUse(l: Lru, k: nat, i: nat)
    requires i < |l.use|
    ensures |Cooled(l, k).use| == |l.use|
    ensures i !in l.hot ==> Cooled(l, k).use[i] == l.use[i]
    ensures Cooled(l, k).use[i] == l.use[i] || Cooled(l, k).use[i] == 0
    decreases k
  {
    if !(k == 0 || l.hot == [] || l.hot[0] >= |l.use|) {
      var u := Lru(l.hot[1..], [l.hot[0]] + l.warm, l.use[l.hot[0] := 0]);
      assert l.hot == [l.hot[0]] + l.hot[1..];
      CooledUse(u, k - 1, i);
    }
  }

  lemma AccessCounts(l: Lru, n: nat, op: Op, i: nat)
    requires Split(l, n) && op.Access? && op.i < n && i in l.warm
    ensures l.hot != [] ==> l.hot[0] < n
    ensures var r := Accessed(l, op.i, op.b, op.threshold);
      && i < n && |r.use| == n && (i in r.warm ==> r.use[i] == if IsUse(op, i) then (l.use[i] + 1) % 256 else l.use[i])
      && (IsUse(op, i) ==> (i in r.hot <==> (l.use[i] + 1) % 256 >= op.threshold && l.hot != []))
  {
    AccessedKeeps(l, n, op.i, op.b, op.threshold);
    OnList(l, n, i);
    OnList(l, n, op.i);
    OnList(Accessed(l, op.i, op.b, op.threshold), n, i);
    if l.hot != [] { OnList(l, n, l.hot[0]); }
    if op.i in l.warm { DeleteKeeps(l.warm, op.i); }
  }

  lemma ReclaimCounts(l: Lru, bits: seq<Bits>, i: nat)
    requires Split(l, |bits|) && i in l.warm && Victim(l, bits) != Some(i)
    ensures i < |bits| && |Reclaimed(l, bits).use| == |bits| && (i in Reclaimed(l, bits).warm ==> Reclaimed(l, bits).use[i] == l.use[i])
  {
    OnList(l, |bits|, i);
    ReclaimedKeeps(l, bits);
    OnList(Reclaimed(l, bits), |bits|, i);
    if Victim(l, bits).Some? {
      VictimExact(l, bits);
      OnList(l, |bits|, Victim(l, bits).value);
      if Victim(l, bits).value in l.hot && l.warm != [] { DeleteKeeps(l.warm, l.warm[|l.warm| - 1]); }
    }
  }

  /** While a slot stays warm and is not given out, its use count counts its uses. */
  lemma StaysWarm(l: Lru, assoc: nat, pct: nat, op: Op, i: nat)
    requires Split(l, assoc) && Fits(op, assoc) && i in l.warm && i in Do(l, assoc, pct, op).warm && !Claims(l, assoc, op, i)
    ensures i < assoc && i < |Do(l, assoc, pct, op).use|
    ensures Do(l, assoc, pct, op).use[i] == if IsUse(op, i) then (l.use[i] + 1) % 256 else l.use[i]
  {
    OnList(l, assoc, i);
    match op
    case Access(_, _, _) => AccessCounts(l, assoc, op, i);
    case Reclaim(bits) => ReclaimCounts(l, bits, i);
    case Rebalance(p) =>
      if 0 <= p <= 100 {
        if HotShare(assoc, p) > HotShare(assoc, pct) { WarmedUse(l, HotShare(assoc, p) - HotShare(assoc, pct), i); }
        else { CooledUse(l, HotShare(assoc, pct) - HotShare(assoc, p), i); }
      }
  }

  /** A slot that becomes warm, or is given out, starts with no uses. */
  lemma ComesWarm(l: Lru, assoc: nat, pct: nat, op: Op, i: nat)
    requires Split(l, assoc) && Fits(op, assoc) && i < assoc && i in Do(l, assoc, pct, op).warm && (i !in l.warm || Claims(l, assoc, op, i))
    ensures i < |Do(l, assoc, pct, op).use| && Do(l, assoc, pct, op).use[i] == 0
  {
    OnList(l, assoc, i);
    match op
    case Access(x, b, threshold) =>
      AccessedKeeps(l, assoc, x, b, threshold);
      OnList(l, assoc, x);
      if x in l.hot { DeleteKeeps(l.hot, x); } else { DeleteKeeps(l.warm, x); }
    case Reclaim(bits) =>
      ReclaimedKeeps(l, bits);
      VictimExact(l, bits);
      if Victim(l, bits).Some? {
        OnList(l, |bits|, Victim(l, bits).value);
        if Victim(l, bits).value in l.hot && l.warm != [] { DeleteKeeps(l.warm, l.warm[|l.warm| - 1]); } else if Victim(l, bits).value in l.warm { DeleteKeeps(l.warm, Victim(l, bits).value); }
      }
    case Rebalance(p) =>
      if 0 <= p <= 100 {
        if HotShare(assoc, p) > HotShare(assoc, pct) { WarmedUse(l, HotShare(assoc, p) - HotShare(assoc, pct), i); }
        else { CooledUse(l, HotShare(assoc, pct) - HotShare(assoc, p), i); }
      }
  }

  /** Slot i has become warm or been given out with step a - 1, or been warm from the start with no
      uses, and has been warm and not given out since. */
  ghost predicate WarmSince(run: seq<Lru>, ops: seq<Op>, assoc: nat, a: nat, n: nat, i: nat) {
    && a <= n < |run| == |ops| + 1
    && (forall k {:trigger run[k]} :: a <= k <= n ==> i in run[k].warm)
    && (forall k: nat {:trigger ops[k]} :: a <= k < n ==> Fits(ops[k], assoc) && !Claims(run[k], assoc, ops[k], i))
  }

  lemma {:induction false} UsesCounted(assoc: nat, pct: nat, run: seq<Lru>, pcts: seq<nat>, ops: seq<Op>, a: nat, n: nat, i: nat)
    requires IsRun(assoc, pct, run, pcts, ops) && WarmSince(run, ops, assoc, a, n, i) && i < |run[a].use| && run[a].use[i] == 0
    ensures i < |run[n].use| && run[n].use[i] == Uses(ops, a, n, i) % 256
    decreases n
  {
    if n > a {
      WarmBefore(run, ops, assoc, a, n, i);
      UsesCounted(assoc, pct, run, pcts, ops, a, n - 1, i);
      StepCounted(assoc, pct, run, pcts, ops, n - 1, i);
      OneMore(ops, a, n, i, run[n - 1].use[i]);
    }
  }

  lemma OneMore(ops: seq<Op>, a: nat, n: nat, i: nat, u: nat)
    requires a < n <= |ops| && u == Uses(ops, a, n - 1, i) % 256
    ensures Uses(ops, a, n, i) % 256 == if IsUse(ops[n - 1], i) then (u + 1) % 256 else u
  {
    NextByte(Uses(ops, a, n - 1, i));
  }

  lemma WarmBefore(run: seq<Lru>, ops: seq<Op>, assoc: nat, a: nat, n: nat, i: nat)
    requires WarmSince(run, ops, assoc, a, n, i) && a < n
    ensures WarmSince(run, ops, assoc, a, n - 1, i) && i in run[n - 1].warm && i in run[n].warm
    ensures Fits(ops[n - 1], assoc) && !Claims(run[n - 1], assoc, ops[n - 1], i)
  {
  }

  lemma StepCounted(assoc: nat, pct: nat, run: seq<Lru>, pcts: seq<nat>, ops: seq<Op>, n: nat, i: nat)
    requires IsRun(assoc, pct, run, pcts, ops) && n < |ops| && i in run[n].warm && i in run[n + 1].warm && Fits(ops[n], assoc) && !Claims(run[n], assoc, ops[n], i)
    ensures i < |run[n].use| && i < |run[n + 1].use| && run[n + 1].use[i] == if IsUse(ops[n], i) then (run[n].use[i] + 1) % 256 else run[n].use[i]
  {
    RunBalanced(assoc, pct, run, pcts, ops, n);
    assert run[n + 1] == Do(run[n], assoc, pcts[n], ops[n]);
    OnList(run[n], assoc, i);
    StaysWarm(run[n], assoc, pcts[n], ops[n], i);
  }

  lemma NextByte(u: nat)
    ensures (u % 256 + 1) % 256 == (u + 1) % 256
  {
  }

  /** Over any run: a warm slot becomes hot by exactly the use with which its uses since it became
      warm or was given out, counted in a byte, reach the threshold, if there is a hot slot to change
      places with. */
  lemma PromotedExactly(assoc: nat, pct: nat, run: seq<Lru>, pcts: seq<nat>, ops: seq<Op>, a: nat, n: nat, i: nat)
    requires IsRun(assoc, pct, run, pcts, ops) && n < |ops| && WarmSince(run, ops, assoc, a, n, i) && IsUse(ops[n], i)
    requires i < |run[a].use| && run[a].use[i] == 0
    ensures i in run[n + 1].hot <==> (Uses(ops, a, n, i) + 1) % 256 >= ops[n].threshold && HotShare(assoc, pcts[n]) > 0
    ensures i in run[n + 1].warm <==> i !in run[n + 1].hot
  {
    assert i in run[n].warm;
    UsesCounted(assoc, pct, run, pcts, ops, a, n, i);
    NextByte(Uses(ops, a, n, i));
    PromotedNow(assoc, pct, run, pcts, ops, n, i);
  }

  lemma PromotedNow(assoc: nat, pct: nat, run: seq<Lru>, pcts: seq<nat>, ops: seq<Op>, n: nat, i: nat)
    requires IsRun(assoc, pct, run, pcts, ops) && n < |ops| && IsUse(ops[n], i) && i in run[n].warm
    ensures i < |run[n].use| && (i in run[n + 1].hot <==> (run[n].use[i] + 1) % 256 >= ops[n].threshold && HotShare(assoc, pcts[n]) > 0)
    ensures i in run[n + 1].warm <==> i !in run[n + 1].hot
  {
    RunBalanced(assoc, pct, run, pcts, ops, n);
    RunBalanced(assoc, pct, run, pcts, ops, n + 1);
    assert run[n + 1] == Do(run[n], assoc, pcts[n], ops[n]);
    AccessCounts(run[n], assoc, ops[n], i);
    OnList(run[n + 1], assoc, i);
  }

  /** ... which, with one threshold of 255 at most throughout and a hot list that is never empty, is
      the use that makes the threshold. */
  lemma {:induction false} PromotedAtThreshold(assoc: nat, pct: nat, run: seq<Lru>, pcts: seq<nat>, ops: seq<Op>, a: nat, n: nat, i: nat, threshold: int)
    requires IsRun(assoc, pct, run, pcts, ops) && n < |ops| && WarmSince(run, ops, assoc, a, n, i) && IsUse(ops[n], i)
    requires i < |run[a].use| && run[a].use[i] == 0 && 0 < threshold <= 255
    requires forall k: nat {:trigger ops[k]} :: a <= k <= n && IsUse(ops[k], i) ==> ops[k].threshold == threshold && HotShare(assoc, pcts[k]) > 0
    ensures i in run[n + 1].hot <==> Uses(ops, a, n, i) + 1 == threshold
  {
    FewerUses(assoc, pct, run, pcts, ops, a, n, i, threshold);
    PromotedExactly(assoc, pct, run, pcts, ops, a, n, i);
  }

  lemma {:induction false} FewerUses(assoc: nat, pct: nat, run: seq<Lru>, pcts: seq<nat>, ops: seq<Op>, a: nat, n: nat, i: nat, threshold: int)
    requires IsRun(assoc, pct, run, pcts, ops) && n <= |ops| && WarmSince(run, ops, assoc, a, n, i)
    requires i < |run[a].use| && run[a].use[i] == 0 && 0 < threshold <= 255
    requires forall k: nat {:trigger ops[k]} :: a <= k < n && IsUse(ops[k], i) ==> ops[k].threshold == threshold && HotShare(assoc, pcts[k]) > 0
    ensures Uses(ops, a, n, i) < threshold
    decreases n
  {
    if n > a {
      FewerUses(assoc, pct, run, pcts, ops, a, n - 1, i, threshold);
      if IsUse(ops[n - 1], i) {
        PromotedExactly(assoc, pct, run, pcts, ops, a, n - 1, i);
        assert i in run[n].warm;
      }
    }
  }

  // ----- one lookup -----

  /** A warm slot used has been counted and changes places with the LRU end of the hot list if its
      count, one byte, has reached the threshold. */
  predicate CountsUse(l: Lru, r: Lru, i: nat, threshold: int) {
    i in l.warm ==>
      && i < |l.use| && i < |r.use| && (i in r.hot <==> (l.use[i] + 1) % 256 >= threshold && l.hot != [])
      && (i in r.warm ==> r.use[i] == (l.use[i] + 1) % 256)
  }

  /** What a lookup leaves of the lists if it found slot h, or else offers slot v. */
  ghost predicate Attends(l: Lru, r: Lru, bits: seq<Bits>, h: Option<nat>, v: Option<nat>, lru: bool, threshold: int) {
    if !lru then r == l
    else if h.Some? then h.value < |bits| && if bits[h.value].Busy() then r == l else JustUsed(l, r, h.value) && CountsUse(l, r, h.value, threshold)
    else if v.None? then r == l
    else v.value < |bits| && if bits[v.value] == INVALID then JustUsed(l, r, v.value) && r.use == l.use else JustGiven(l, r, v.value)
  }

  lemma UseAttends(l: Lru, bits: seq<Bits>, i: nat, threshold: int)
    requires Split(l, |bits|) && i < |bits|
    ensures l.hot != [] ==> l.hot[0] < |bits|
    ensures var r := Accessed(l, i, bits[i], threshold); JustUsed(l, r, i) && if bits[i] == INVALID then r.use == l.use else CountsUse(l, r, i, threshold)
  {
    AccessUses(l, |bits|, i, bits[i], threshold);
    if i in l.warm && bits[i] != INVALID { AccessCounts(l, |bits|, Op.Access(i, bits[i], threshold), i); }
  }

  // ----- a new share -----

  function Reverse(q: seq<nat>): seq<nat> { seq(|q|, k requires 0 <= k < |q| => q[|q| - 1 - k]) }

  lemma {:induction false} WarmedIs(l: Lru, n: nat, k: nat)
    requires Split(l, n) && k <= |l.warm|
    ensures Warmed(l, k).warm == l.warm[k..] && Warmed(l, k).hot == Reverse(l.warm[..k]) + l.hot
    decreases k
  {
    if k > 0 {
      var u := Lru([l.warm[0]] + l.hot, l.warm[1..], l.use[l.warm[0] := 0]);
      WarmSplit(l, u, n);
      WarmedIs(u, n, k - 1);
      assert l.warm[1..][k - 1..] == l.warm[k..] && l.warm[1..][..k - 1] == l.warm[..k][1..];
      assert Reverse(l.warm[..k]) == Reverse(l.warm[..k][1..]) + [l.warm[0]];
    }
  }

  lemma {:induction false} CooledIs(l: Lru, n: nat, k: nat)
    requires Split(l, n) && k <= |l.hot|
    ensures Cooled(l, k).hot == l.hot[k..] && Cooled(l, k).warm == Reverse(l.hot[..k]) + l.warm
    decreases k
  {
    if k > 0 {
      var u := Lru(l.hot[1..], [l.hot[0]] + l.warm, l.use[l.hot[0] := 0]);
      CoolSplit(l, u, n);
      CooledIs(u, n, k - 1);
      assert l.hot[1..][k - 1..] == l.hot[k..] && l.hot[1..][..k - 1] == l.hot[..k][1..];
      assert Reverse(l.hot[..k]) == Reverse(l.hot[..k][1..]) + [l.hot[0]];
    }
  }

  /** A larger share makes the least recently used warm slots hot, a smaller one the least recently
      used hot slots warm, as many as it takes, and they are the first to go back. */
  lemma RebalanceMoves(l: Lru, assoc: nat, pct: nat, newPct: nat)
    requires Split(l, assoc) && pct <= 100 && newPct <= 100 && |l.hot| == HotShare(assoc, pct)
    ensures var r, o, w := Rebalanced(l, assoc, pct, newPct), HotShare(assoc, pct), HotShare(assoc, newPct);
      && (w >= o ==> w - o <= |l.warm| && r.warm == l.warm[w - o..] && r.hot == Reverse(l.warm[..w - o]) + l.hot)
      && (w <= o ==> r.hot == l.hot[o - w..] && r.warm == Reverse(l.hot[..o - w]) + l.warm)
  {
    var o, w := HotShare(assoc, pct), HotShare(assoc, newPct);
    ShareFits(assoc, newPct);
    if w > o { WarmedIs(l, assoc, w - o); } else { CooledIs(l, assoc, o - w); }
    if w == o { assert l.hot[0..] == l.hot && l.warm[0..] == l.warm && Reverse(l.hot[..0]) + l.warm == l.warm && Reverse(l.warm[..0]) + l.hot == l.hot; }
  }
}
