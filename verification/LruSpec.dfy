/** The replacement lists of one cache set as values, each from its LRU to its MRU end. */
module LruSpec {
  import opened Types
  import opened Links

  datatype Lru = Lru(hot: seq<nat>, warm: seq<nat>, use: seq<nat>)

  /** Slot i is on exactly one list, and on the hot one with use count 0. */
  predicate On(l: Lru, i: nat)
    requires i < |l.use|
  {
    if i in l.hot then i !in l.warm && l.use[i] == 0 else i in l.warm
  }

  /** Every slot is on exactly one of the lists, once, and hot slots have use count 0. */
  ghost predicate Split(l: Lru, n: nat) {
    && |l.use| == n && |l.hot| + |l.warm| == n && Distinct(l.hot) && Distinct(l.warm)
    && (forall k {:trigger l.hot[k]} :: 0 <= k < |l.hot| ==> l.hot[k] < n)
    && (forall k {:trigger l.warm[k]} :: 0 <= k < |l.warm| ==> l.warm[k] < n)
    && (forall i: nat {:trigger On(l, i)} :: i < n ==> On(l, i))
  }

  function HotShare(assoc: nat, pct: nat): nat { assoc * pct / 100 }

  // ----- the operations -----

  function MoveToMru(l: Lru, i: nat): Lru {
    if i in l.hot then l.(hot := Delete(l.hot, i) + [i])
    else if i in l.warm then l.(warm := Delete(l.warm, i) + [i])
    else l
  }

  /** A warm slot changes places with the LRU end of the hot list. */
  function Promote(l: Lru, i: nat): (r: Lru)
    requires i in l.warm && l.hot != [] && i < |l.use| && l.hot[0] < |l.use|
  {
    Lru([i] + l.hot[1..], Delete(l.warm, i) + [l.hot[0]], l.use[i := 0][l.hot[0] := 0])
  }

  /** A hot slot changes places with the MRU end of the warm list. */
  function Demote(l: Lru, i: nat): (r: Lru)
    requires i in l.hot && l.warm != [] && i < |l.use| && l.warm[|l.warm| - 1] < |l.use|
  {
    var w := l.warm[|l.warm| - 1];
    Lru([w] + Delete(l.hot, i), Delete(l.warm, w) + [i], l.use[i := 0][w := 0])
  }

  /** use_cnt is one byte. */
  function Counted(l: Lru, i: nat): Lru
    requires i < |l.use|
  {
    l.(use := l.use[i := (l.use[i] + 1) % 256])
  }

  function Accessed(l: Lru, i: nat, b: Bits, threshold: int): Lru
    requires i < |l.use| && (l.hot != [] ==> l.hot[0] < |l.use|)
  {
    if i in l.hot || b == INVALID then MoveToMru(l, i)
    else
      var u := Counted(l, i);
      if u.use[i] < threshold || u.hot == [] || i !in u.warm then MoveToMru(u, i) else Promote(u, i)
  }

  /** The first slot of q whose state is exactly VALID. */
  function FirstValid(q: seq<nat>, bits: seq<Bits>): Option<nat>
    requires forall k {:trigger q[k]} :: 0 <= k < |q| ==> q[k] < |bits|
  {
    if q == [] then None else if bits[q[0]] == VALID then Some(q[0]) else FirstValid(q[1..], bits)
  }

  function Victim(l: Lru, bits: seq<Bits>): Option<nat>
    requires forall k {:trigger l.hot[k]} :: 0 <= k < |l.hot| ==> l.hot[k] < |bits|
    requires forall k {:trigger l.warm[k]} :: 0 <= k < |l.warm| ==> l.warm[k] < |bits|
  {
    if FirstValid(l.warm, bits).Some? then FirstValid(l.warm, bits) else FirstValid(l.hot, bits)
  }

  ghost function Reclaimed(l: Lru, bits: seq<Bits>): Lru
    requires Split(l, |bits|)
  {
    match Victim(l, bits)
    case None => l
    case Some(i) =>
      FirstFound(l.warm, bits);
      FirstFound(l.hot, bits);
      if i in l.warm then MoveToMru(l.(use := l.use[i := 0]), i)
      else if l.warm == [] then MoveToMru(l, i)
      else Demote(l, i)
  }

  /** k times, the LRU end of the warm list moves to the LRU end of the hot one. */
  function Warmed(l: Lru, k: nat): Lru
    decreases k
  {
    if k == 0 || l.warm == [] || l.warm[0] >= |l.use| then l
    else Warmed(Lru([l.warm[0]] + l.hot, l.warm[1..], l.use[l.warm[0] := 0]), k - 1)
  }

  function Cooled(l: Lru, k: nat): Lru
    decreases k
  {
    if k == 0 || l.hot == [] || l.hot[0] >= |l.use| then l
    else Cooled(Lru(l.hot[1..], [l.hot[0]] + l.warm, l.use[l.hot[0] := 0]), k - 1)
  }

  function Rebalanced(l: Lru, assoc: nat, pct: nat, newPct: int): Lru {
    if newPct > 100 || newPct < 0 then l
    else if HotShare(assoc, newPct) > HotShare(assoc, pct) then Warmed(l, HotShare(assoc, newPct) - HotShare(assoc, pct))
    else Cooled(l, HotShare(assoc, pct) - HotShare(assoc, newPct))
  }

  /** hi - 1, hi - 2, ..., lo */
  function Downward(lo: nat, hi: nat): seq<nat>
    requires lo <= hi
  {
    if lo == hi then [] else [hi - 1] + Downward(lo, hi - 1)
  }

  lemma {:induction false} DownwardIs(lo: nat, hi: nat)
    requires lo <= hi
    ensures Downward(lo, hi) == seq(hi - lo, k requires 0 <= k < hi - lo => hi - 1 - k)
  {
    if lo < hi { DownwardIs(lo, hi - 1); }
  }

  /** The first slots are hot, each pushed to the LRU end. */
  function Initial(assoc: nat, pct: nat): Lru
    requires pct <= 100
  {
    var h := HotShare(assoc, pct);
    ShareFits(assoc, pct);
    Lru(Downward(0, h), Downward(h, assoc), seq(assoc, k => 0))
  }

  lemma ShareFits(assoc: nat, pct: nat)
    requires pct <= 100
    ensures HotShare(assoc, pct) <= assoc
  {
    assert assoc * pct <= assoc * 100;
  }

  // ----- they keep the split and the size of the hot list -----

  lemma DeleteKeeps(q: seq<nat>, i: nat)
    requires Distinct(q) && i in q
    ensures Distinct(Delete(q, i)) && i !in Delete(q, i) && |Delete(q, i)| == |q| - 1
    ensures forall j: nat :: j in Delete(q, i) <==> j in q && j != i
  {
    DeleteIsWithout(q, Position(q, i));
    WithoutDistinct(q, Position(q, i));
    forall j: nat ensures j in Delete(q, i) <==> j in q && j != i { WithoutMembers(q, Position(q, i), j); }
  }

  lemma SplitBy(u: Lru, n: nat)
    requires |u.use| == n && |u.hot| + |u.warm| == n && Distinct(u.hot) && Distinct(u.warm)
    requires forall i :: i in u.hot ==> i < n
    requires forall i :: i in u.warm ==> i < n
    requires forall i: nat {:trigger On(u, i)} :: i < n ==> On(u, i)
    ensures Split(u, n)
  {
    forall k | 0 <= k < |u.hot| ensures u.hot[k] < n { assert u.hot[k] in u.hot; }
    forall k | 0 <= k < |u.warm| ensures u.warm[k] < n { assert u.warm[k] in u.warm; }
  }

  lemma OnList(l: Lru, n: nat, i: nat)
    requires Split(l, n)
    ensures i in l.hot ==> i < n && i !in l.warm && l.use[i] == 0
    ensures i in l.warm ==> i < n && i !in l.hot
    ensures i < n ==> i in l.hot || i in l.warm
  {
    if i in l.hot { assert l.hot[Position(l.hot, i)] < n; }
    if i in l.warm { assert l.warm[Position(l.warm, i)] < n; }
    assert i < n ==> On(l, i);
  }

  lemma MoveToMruKeeps(l: Lru, n: nat, i: nat)
    requires Split(l, n) && i < n
    ensures Split(MoveToMru(l, i), n) && |MoveToMru(l, i).hot| == |l.hot|
  {
    var u := MoveToMru(l, i);
    OnList(l, n, i);
    if i in l.hot {
      DeleteKeeps(l.hot, i);
      MoreDistinct(Delete(l.hot, i), i);
    } else {
      DeleteKeeps(l.warm, i);
      MoreDistinct(Delete(l.warm, i), i);
    }
    SameMembers(l, u, n);
  }

  /** Splitting only depends on who is on which list. */
  lemma SameMembers(l: Lru, u: Lru, n: nat)
    requires Split(l, n) && |u.use| == n && |u.hot| == |l.hot| && |u.warm| == |l.warm| && Distinct(u.hot) && Distinct(u.warm)
    requires forall i: nat :: (i in u.hot <==> i in l.hot) && (i in u.warm <==> i in l.warm)
    requires forall i: nat :: i < n ==> u.use[i] == l.use[i] || u.use[i] == 0 || i !in l.hot
    ensures Split(u, n)
  {
    forall i: nat | i < n ensures On(u, i) { assert On(l, i); }
    forall i | i in u.hot ensures i < n { OnList(l, n, i); }
    forall i | i in u.warm ensures i < n { OnList(l, n, i); }
    SplitBy(u, n);
  }

  /** Slots a and b change lists, a to the hot one. */
  lemma SwapSplit(l: Lru, u: Lru, n: nat, a: nat, b: nat)
    requires Split(l, n) && a in l.warm && b in l.hot && |u.hot| == |l.hot| && |u.warm| == |l.warm| && Distinct(u.hot) && Distinct(u.warm)
    requires a < n && b < n && (u.use == l.use[a := 0][b := 0] || u.use == l.use[b := 0][a := 0])
    requires forall i: nat :: i in u.hot <==> i == a || (i in l.hot && i != b)
    requires forall i: nat :: i in u.warm <==> i == b || (i in l.warm && i != a)
    ensures Split(u, n)
  {
    OnList(l, n, a);
    OnList(l, n, b);
    forall i: nat | i < n ensures On(u, i) { assert On(l, i); }
    forall i | i in u.hot ensures i < n { OnList(l, n, i); }
    forall i | i in u.warm ensures i < n { OnList(l, n, i); }
    SplitBy(u, n);
  }

  lemma PromoteKeeps(l: Lru, n: nat, i: nat)
    requires Split(l, n) && i in l.warm && l.hot != []
    ensures i < n && l.hot[0] < n
    ensures Split(Promote(l, i), n) && |Promote(l, i).hot| == |l.hot|
  {
    var h, r := l.hot[0], l.hot[1..];
    OnList(l, n, i);
    OnList(l, n, h);
    DeleteKeeps(l.warm, i);
    LessDistinct(l.hot);
    assert forall j: nat :: j in l.hot <==> j == h || j in r by { assert l.hot == [h] + r; }
    MoreDistinct(r, i);
    MoreDistinct(Delete(l.warm, i), h);
    SwapSplit(l, Promote(l, i), n, i, h);
  }

  lemma DemoteKeeps(l: Lru, n: nat, i: nat)
    requires Split(l, n) && i in l.hot && l.warm != []
    ensures i < n && l.warm[|l.warm| - 1] < n
    ensures Split(Demote(l, i), n) && |Demote(l, i).hot| == |l.hot|
  {
    var w := l.warm[|l.warm| - 1];
    OnList(l, n, i);
    OnList(l, n, w);
    DeleteKeeps(l.hot, i);
    DeleteKeeps(l.warm, w);
    MoreDistinct(Delete(l.warm, w), i);
    MoreDistinct(Delete(l.hot, i), w);
    SwapSplit(l, Demote(l, i), n, w, i);
  }

  lemma AccessedKeeps(l: Lru, n: nat, i: nat, b: Bits, threshold: int)
    requires Split(l, n) && i < n
    ensures l.hot != [] ==> l.hot[0] < n
    ensures Split(Accessed(l, i, b, threshold), n) && |Accessed(l, i, b, threshold).hot| == |l.hot|
  {
    if i in l.hot || b == INVALID {
      MoveToMruKeeps(l, n, i);
    } else {
      var u := Counted(l, i);
      OnList(l, n, i);
      SameMembers(l, u, n);
      MoveToMruKeeps(u, n, i);
      if u.hot != [] && i in u.warm { PromoteKeeps(u, n, i); }
    }
  }

  lemma {:induction false} FirstFound(q: seq<nat>, bits: seq<Bits>)
    requires forall k {:trigger q[k]} :: 0 <= k < |q| ==> q[k] < |bits|
    ensures FirstValid(q, bits).Some? <==> exists k {:trigger q[k]} :: 0 <= k < |q| && bits[q[k]] == VALID
    ensures FirstValid(q, bits).Some? ==>
      exists k {:trigger q[k]} :: 0 <= k < |q| && q[k] == FirstValid(q, bits).value && bits[q[k]] == VALID
                                  && forall j {:trigger q[j]} :: 0 <= j < k ==> bits[q[j]] != VALID
  {
    if q != [] && bits[q[0]] != VALID {
      var r := q[1..];
      FirstFound(r, bits);
      assert forall k {:trigger q[k]} :: 1 <= k < |q| ==> q[k] == r[k - 1];
      if FirstValid(r, bits).Some? {
        var k :| 0 <= k < |r| && r[k] == FirstValid(r, bits).value && bits[r[k]] == VALID && forall j {:trigger r[j]} :: 0 <= j < k ==> bits[r[j]] != VALID;
        assert q[k + 1] == r[k];
      }
    }
  }

  /** A victim is found iff some slot's state is exactly VALID, and it is one: not dirty,
      no I/O in progress, no fallow mark. Warm slots go first, each list from its LRU end. */
  lemma VictimExact(l: Lru, bits: seq<Bits>)
    requires Split(l, |bits|)
    ensures Victim(l, bits).Some? <==> exists i {:trigger bits[i]} :: 0 <= i < |bits| && bits[i] == VALID
    ensures Victim(l, bits).Some? ==> Victim(l, bits).value < |bits| && bits[Victim(l, bits).value] == VALID
    ensures Victim(l, bits).Some? && Victim(l, bits).value in l.hot ==>
              forall k {:trigger l.warm[k]} :: 0 <= k < |l.warm| ==> bits[l.warm[k]] != VALID
  {
    FirstFound(l.warm, bits);
    FirstFound(l.hot, bits);
    if FirstValid(l.warm, bits).Some? { OnList(l, |bits|, FirstValid(l.warm, bits).value); }
    if i :| 0 <= i < |bits| && bits[i] == VALID {
      OnList(l, |bits|, i);
      if i in l.hot { assert l.hot[Position(l.hot, i)] == i; } else { assert l.warm[Position(l.warm, i)] == i; }
    }
  }

  lemma ReclaimedKeeps(l: Lru, bits: seq<Bits>)
    requires Split(l, |bits|)
    ensures Split(Reclaimed(l, bits), |bits|) && |Reclaimed(l, bits).hot| == |l.hot|
  {
    VictimExact(l, bits);
    if Victim(l, bits).Some? {
      var i := Victim(l, bits).value;
      OnList(l, |bits|, i);
      if i in l.warm {
        var u := l.(use := l.use[i := 0]);
        SameMembers(l, u, |bits|);
        MoveToMruKeeps(u, |bits|, i);
      } else if l.warm == [] {
        MoveToMruKeeps(l, |bits|, i);
      } else {
        DemoteKeeps(l, |bits|, i);
      }
    }
  }

  lemma WarmSplit(l: Lru, u: Lru, n: nat)
    requires Split(l, n) && l.warm != [] && l.warm[0] < n && u == Lru([l.warm[0]] + l.hot, l.warm[1..], l.use[l.warm[0] := 0])
    ensures Split(u, n)
  {
    var w, r := l.warm[0], l.warm[1..];
    OnList(l, n, w);
    LessDistinct(l.warm);
    MoreDistinct(l.hot, w);
    assert forall j: nat :: j in l.warm <==> j == w || j in r by { assert l.warm == [w] + r; }
    forall i: nat | i < n ensures On(u, i) { assert On(l, i); }
    forall i | i in u.hot || i in u.warm ensures i < n { OnList(l, n, i); }
    SplitBy(u, n);
  }

  lemma CoolSplit(l: Lru, u: Lru, n: nat)
    requires Split(l, n) && l.hot != [] && l.hot[0] < n && u == Lru(l.hot[1..], [l.hot[0]] + l.warm, l.use[l.hot[0] := 0])
    ensures Split(u, n)
  {
    var h, r := l.hot[0], l.hot[1..];
    OnList(l, n, h);
    LessDistinct(l.hot);
    MoreDistinct(l.warm, h);
    assert forall j: nat :: j in l.hot <==> j == h || j in r by { assert l.hot == [h] + r; }
    forall i: nat | i < n ensures On(u, i) { assert On(l, i); }
    forall i | i in u.hot || i in u.warm ensures i < n { OnList(l, n, i); }
    SplitBy(u, n);
  }

  lemma {:induction false} WarmedKeeps(l: Lru, n: nat, k: nat)
    requires Split(l, n) && k <= |l.warm|
    ensures Split(Warmed(l, k), n) && |Warmed(l, k).hot| == |l.hot| + k
    decreases k
  {
    if k > 0 {
      var u := Lru([l.warm[0]] + l.hot, l.warm[1..], l.use[l.warm[0] := 0]);
      WarmSplit(l, u, n);
      WarmedKeeps(u, n, k - 1);
    }
  }

  lemma {:induction false} CooledKeeps(l: Lru, n: nat, k: nat)
    requires Split(l, n) && k <= |l.hot|
    ensures Split(Cooled(l, k), n) && |Cooled(l, k).hot| == |l.hot| - k
    decreases k
  {
    if k > 0 {
      var u := Lru(l.hot[1..], [l.hot[0]] + l.warm, l.use[l.hot[0] := 0]);
      CoolSplit(l, u, n);
      CooledKeeps(u, n, k - 1);
    }
  }

  lemma RebalancedKeeps(l: Lru, assoc: nat, pct: nat, newPct: int)
    requires Split(l, assoc) && pct <= 100 && |l.hot| == HotShare(assoc, pct)
    ensures Split(Rebalanced(l, assoc, pct, newPct), assoc)
    ensures |Rebalanced(l, assoc, pct, newPct).hot| == HotShare(assoc, if 0 <= newPct <= 100 then newPct else pct)
  {
    if 0 <= newPct <= 100 {
      var o, w := HotShare(assoc, pct), HotShare(assoc, newPct);
      ShareFits(assoc, newPct);
      if w > o { WarmedKeeps(l, assoc, w - o); } else { CooledKeeps(l, assoc, o - w); }
    }
  }

  lemma InitialSplit(assoc: nat, pct: nat)
    requires pct <= 100
    ensures Split(Initial(assoc, pct), assoc) && |Initial(assoc, pct).hot| == HotShare(assoc, pct)
  {
    var l := Initial(assoc, pct);
    var h := HotShare(assoc, pct);
    ShareFits(assoc, pct);
    DownwardIs(0, h);
    DownwardIs(h, assoc);
    forall i: nat | i < assoc ensures On(l, i) {
      if i < h { assert l.hot[h - 1 - i] == i; } else { assert l.warm[assoc - 1 - i] == i; }
    }
  }

  // ----- whole runs -----

  datatype Op = Access(i: nat, b: Bits, threshold: int) | Reclaim(bits: seq<Bits>) | Rebalance(pct: int)

  predicate Fits(op: Op, assoc: nat) {
    match op
    case Access(i, _, _) => i < assoc
    case Reclaim(bits) => |bits| == assoc
    case Rebalance(_) => true
  }

  function NewPct(pct: nat, op: Op): nat { if op.Rebalance? && 0 <= op.pct <= 100 then op.pct else pct }

  ghost function Do(l: Lru, assoc: nat, pct: nat, op: Op): Lru
    requires Split(l, assoc) && Fits(op, assoc)
  {
    match op
    case Access(i, b, threshold) => AccessedKeeps(l, assoc, i, b, threshold); Accessed(l, i, b, threshold)
    case Reclaim(bits) => Reclaimed(l, bits)
    case Rebalance(newPct) => Rebalanced(l, assoc, pct, newPct)
  }

  ghost predicate IsRun(assoc: nat, pct: nat, run: seq<Lru>, pcts: seq<nat>, ops: seq<Op>) {
    && pct <= 100 && |run| == |pcts| == |ops| + 1 && run[0] == Initial(assoc, pct) && pcts[0] == pct
    && forall k {:trigger ops[k]} :: 0 <= k < |ops| ==>
         Fits(ops[k], assoc) && pcts[k + 1] == NewPct(pcts[k], ops[k])
         && (Split(run[k], assoc) ==> run[k + 1] == Do(run[k], assoc, pcts[k], ops[k]))
  }

  /** After any run of accesses, reclaims and rebalances each slot is on exactly one list
      and the hot list has exactly its share of the set. */
  lemma {:induction false} RunBalanced(assoc: nat, pct: nat, run: seq<Lru>, pcts: seq<nat>, ops: seq<Op>, n: nat)
    requires IsRun(assoc, pct, run, pcts, ops) && n < |run|
    ensures Split(run[n], assoc) && pcts[n] <= 100 && |run[n].hot| == HotShare(assoc, pcts[n])
    decreases n
  {
    if n == 0 {
      InitialSplit(assoc, pct);
    } else {
      RunBalanced(assoc, pct, run, pcts, ops, n - 1);
      var l, op := run[n - 1], ops[n - 1];
      assert run[n - 1 + 1] == Do(l, assoc, pcts[n - 1], op) && pcts[n - 1 + 1] == NewPct(pcts[n - 1], op);
      match op
      case Access(i, b, threshold) => AccessedKeeps(l, assoc, i, b, threshold);
      case Reclaim(bits) => ReclaimedKeeps(l, bits);
      case Rebalance(newPct) => RebalancedKeeps(l, assoc, pcts[n - 1], newPct);
    }
  }
}
