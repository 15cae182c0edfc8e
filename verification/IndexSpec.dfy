/** The index of one cache set as a value: for each slot its state word and dbn, and the
    513 lists threaded through hash_prev/hash_next, the 512 hash buckets and the invalid list. */
module IndexSpec {
  import opened Types
  import opened Links

  const BUCKETS := 512
  const INVALIDS := 512   // the list number of the invalid list

  datatype Index = Index(bits: seq<Bits>, dbn: seq<nat>, lists: seq<seq<nat>>, home: seq<int>)

  /** The bucket of a block; jhash_1word is any function. */
  function Bucket(jhash: nat -> nat, d: nat): (b: nat)
    ensures b < BUCKETS
  {
    jhash(d) % BUCKETS
  }

  ghost predicate Shaped(x: Index) {
    && |x.bits| == |x.dbn| == |x.home| <= NULL && |x.lists| == BUCKETS + 1
    && Homed(x.lists, x.home) && (forall k {:trigger x.lists[k]} :: 0 <= k <= BUCKETS ==> Distinct(x.lists[k]))
  }

  /** Two VALID slots have the same block. */
  predicate Clash(x: Index, i: nat, j: nat)
    requires |x.bits| == |x.dbn| && i < |x.bits| && j < |x.bits|
  {
    x.bits[i].valid && x.bits[j].valid && x.dbn[i] == x.dbn[j]
  }

  /** Each VALID slot is on its block's chain and no other, each INVALID slot that is not
      in limbo and not `held` by the current step is on the invalid list, and no two VALID
      slots have the same block. `mine` tells the blocks of this set. */
  ghost predicate Consistent(jhash: nat -> nat, mine: nat -> bool, x: Index, held: Option<nat>) {
    && Shaped(x)
    && (forall i {:trigger x.bits[i]} :: 0 <= i < |x.bits| ==> x.bits[i].invalid == !x.bits[i].valid)
    && (forall i {:trigger x.home[i]} {:trigger x.bits[i]} :: 0 <= i < |x.bits| ==>
          x.home[i] == if x.bits[i].valid then Bucket(jhash, x.dbn[i])
                       else if x.bits[i] == INVALID && held != Some(i) then INVALIDS else -1)
    && (forall i: nat, j: nat {:trigger Clash(x, i, j)} :: i < j < |x.bits| ==> !Clash(x, i, j))
    && (forall i {:trigger x.bits[i]} {:trigger x.dbn[i]} :: 0 <= i < |x.bits| && x.bits[i].valid ==> mine(x.dbn[i]))
    && (held.Some? ==> held.value < |x.bits| && x.bits[held.value] == INVALID)
  }

  // ----- the updates -----

  function Pushed(x: Index, k: nat, i: nat): Index
    requires k < |x.lists| && i < |x.home|
  {
    x.(lists := x.lists[k := [i] + x.lists[k]], home := x.home[i := k])
  }

  function Removed(x: Index, k: nat, i: nat): Index
    requires k < |x.lists| && i < |x.home| && i in x.lists[k]
  {
    x.(lists := x.lists[k := Delete(x.lists[k], i)], home := x.home[i := -1])
  }

  datatype Op =
    | Get                                // a lookup that misses takes an INVALID slot
    | Put(i: nat)                        // and gives it back unused
    | Claim(i: nat, d: nat, b: Bits)     // or the slot takes block d
    | Drop(i: nat)                       // an idle clean slot is invalidated
    | Limbo(i: nat)                      // a busy slot is invalidated before its queue is drained
    | Settle(i: nat)                     // and freed after
    | Mark(i: nat, b: Bits)              // a VALID slot's other bits change

  ghost predicate Allowed(mine: nat -> bool, x: Index, held: Option<nat>, op: Op) {
    |x.bits| == |x.dbn| &&
    match op
    case Get => held.None?
    case Put(i) => held == Some(i)
    case Claim(i, d, b) =>
      i < |x.bits| && b.valid && !b.invalid && mine(d) && (held == Some(i) || (held.None? && x.bits[i] == VALID))
      && forall j {:trigger x.bits[j]} :: 0 <= j < |x.bits| && x.bits[j].valid ==> x.dbn[j] != d
    case Drop(i) => i < |x.bits| && x.bits[i] == VALID
    case Limbo(i) => i < |x.bits| && x.bits[i].valid && !x.bits[i].dirty && x.bits[i].Busy()
    case Settle(i) => i < |x.bits| && x.bits[i].invalid && x.bits[i].Busy() && x.bits[i].Idle() == INVALID
    case Mark(i, b) => i < |x.bits| && x.bits[i].valid && b.valid && !b.invalid
  }

  function Unhashed(jhash: nat -> nat, x: Index, i: nat): Index
    requires i < |x.dbn| && |x.lists| == BUCKETS + 1 && i < |x.home| && i in x.lists[Bucket(jhash, x.dbn[i])]
  {
    Removed(x, Bucket(jhash, x.dbn[i]), i)
  }

  lemma OnChain(jhash: nat -> nat, mine: nat -> bool, x: Index, held: Option<nat>, i: nat)
    requires Consistent(jhash, mine, x, held) && i < |x.bits|
    ensures x.bits[i].valid ==> i in x.lists[Bucket(jhash, x.dbn[i])]
  {
    assert Listed(x.lists, x.home, i) && x.bits[i] == x.bits[i];
  }

  function WithBits(x: Index, i: nat, b: Bits): Index
    requires i < |x.bits|
  {
    x.(bits := x.bits[i := b])
  }

  ghost function Apply(jhash: nat -> nat, mine: nat -> bool, x: Index, held: Option<nat>, op: Op): Index
    requires Consistent(jhash, mine, x, held) && Allowed(mine, x, held, op)
  {
    match op
    case Get => if x.lists[INVALIDS] == [] then x else Removed(x, INVALIDS, x.lists[INVALIDS][0])
    case Put(i) => Pushed(x, INVALIDS, i)
    case Claim(i, d, b) =>
      OnChain(jhash, mine, x, held, i);
      var u := if x.bits[i].valid then Unhashed(jhash, x, i) else x;
      Pushed(u.(bits := u.bits[i := b], dbn := u.dbn[i := d]), Bucket(jhash, d), i)
    case Drop(i) => OnChain(jhash, mine, x, held, i); Pushed(WithBits(Unhashed(jhash, x, i), i, INVALID), INVALIDS, i)
    case Limbo(i) => OnChain(jhash, mine, x, held, i); WithBits(Unhashed(jhash, x, i), i, x.bits[i].(valid := false, invalid := true))
    case Settle(i) => Pushed(WithBits(x, i, x.bits[i].Idle()), INVALIDS, i)
    case Mark(i, b) => WithBits(x, i, b)
  }

  ghost function Holding(x: Index, held: Option<nat>, op: Op): Option<nat>
    requires Shaped(x)
  {
    match op
    case Get => if x.lists[INVALIDS] == [] then None else Some(x.lists[INVALIDS][0])
    case Put(_) => None
    case Claim(_, _, _) => None
    case _ => held
  }

  // ----- every update keeps the index consistent -----

  lemma PushShaped(x: Index, k: nat, i: nat)
    requires Shaped(x) && k <= BUCKETS && i < |x.home| && x.home[i] == -1
    ensures Shaped(Pushed(x, k, i))
  {
    PushHomed(x.lists, x.home, k, i, [i] + x.lists[k]);
    NoHome(x.lists, x.home, k, i);
    MoreDistinct(x.lists[k], i);
  }

  lemma RemoveShaped(x: Index, k: nat, i: nat)
    requires Shaped(x) && k <= BUCKETS && i < |x.home| && i in x.lists[k]
    ensures Shaped(Removed(x, k, i))
  {
    DeleteIsWithout(x.lists[k], Position(x.lists[k], i));
    RemoveHomed(x.lists, x.home, k, Position(x.lists[k], i));
    WithoutDistinct(x.lists[k], Position(x.lists[k], i));
  }

  /** No new VALID slots, and the blocks are as they were. */
  lemma SameClashes(x: Index, y: Index)
    requires |x.bits| == |x.dbn| == |y.bits| && y.dbn == x.dbn
    requires forall i {:trigger y.bits[i]} :: 0 <= i < |x.bits| && y.bits[i].valid ==> x.bits[i].valid
    requires forall i: nat, j: nat {:trigger Clash(x, i, j)} :: i < j < |x.bits| ==> !Clash(x, i, j)
    ensures forall i: nat, j: nat {:trigger Clash(y, i, j)} :: i < j < |y.bits| ==> !Clash(y, i, j)
  {
    forall i: nat, j: nat | i < j < |y.bits| ensures !Clash(y, i, j) { assert !Clash(x, i, j); }
  }

  /** No two VALID slots have the same block. */
  lemma OneSlot(x: Index, i: nat, j: nat)
    requires |x.bits| == |x.dbn| && i < |x.bits| && j < |x.bits| && x.bits[i].valid && x.bits[j].valid && x.dbn[i] == x.dbn[j]
    requires forall i: nat, j: nat {:trigger Clash(x, i, j)} :: i < j < |x.bits| ==> !Clash(x, i, j)
    ensures i == j
  {
    assert i < j ==> !Clash(x, i, j);
    assert j < i ==> !Clash(x, j, i);
  }

  lemma ClaimConsistent(jhash: nat -> nat, mine: nat -> bool, x: Index, held: Option<nat>, op: Op)
    requires Consistent(jhash, mine, x, held) && Allowed(mine, x, held, op) && op.Claim?
    ensures Consistent(jhash, mine, Apply(jhash, mine, x, held, op), None)
  {
    var i := op.i;
    OnChain(jhash, mine, x, held, i);
    if x.bits[i].valid { assert x.home[i] == Bucket(jhash, x.dbn[i]); RemoveShaped(x, Bucket(jhash, x.dbn[i]), i); }
    var u := if x.bits[i].valid then Unhashed(jhash, x, i) else x;
    var v := u.(bits := u.bits[i := op.b], dbn := u.dbn[i := op.d]);
    assert Shaped(v) && v.home[i] == -1;
    PushShaped(v, Bucket(jhash, op.d), i);
    forall a: nat, b: nat | a < b < |v.bits| ensures !Clash(v, a, b) { assert !Clash(x, a, b); }
    SameClashes(v, Apply(jhash, mine, x, held, op));
  }

  lemma LeaveConsistent(jhash: nat -> nat, mine: nat -> bool, x: Index, held: Option<nat>, op: Op)
    requires Consistent(jhash, mine, x, held) && Allowed(mine, x, held, op) && (op.Drop? || op.Limbo?)
    ensures Consistent(jhash, mine, Apply(jhash, mine, x, held, op), held)
  {
    var i := op.i;
    OnChain(jhash, mine, x, held, i);
    assert x.home[i] == Bucket(jhash, x.dbn[i]);
    RemoveShaped(x, Bucket(jhash, x.dbn[i]), i);
    if op.Drop? { PushShaped(WithBits(Unhashed(jhash, x, i), i, INVALID), INVALIDS, i); }
    SameClashes(x, Apply(jhash, mine, x, held, op));
  }

  lemma FreeConsistent(jhash: nat -> nat, mine: nat -> bool, x: Index, held: Option<nat>, op: Op)
    requires Consistent(jhash, mine, x, held) && Allowed(mine, x, held, op) && (op.Get? || op.Put? || op.Settle? || op.Mark?)
    ensures Consistent(jhash, mine, Apply(jhash, mine, x, held, op), Holding(x, held, op))
  {
    if op.Get? {
      if x.lists[INVALIDS] != [] { RemoveShaped(x, INVALIDS, x.lists[INVALIDS][0]); assert x.home[x.lists[INVALIDS][0]] == INVALIDS; }
    } else if op.Put? {
      PushShaped(x, INVALIDS, op.i);
    } else if op.Settle? {
      PushShaped(WithBits(x, op.i, INVALID), INVALIDS, op.i);
    }
    SameClashes(x, Apply(jhash, mine, x, held, op));
  }

  lemma ApplyConsistent(jhash: nat -> nat, mine: nat -> bool, x: Index, held: Option<nat>, op: Op)
    requires Consistent(jhash, mine, x, held) && Allowed(mine, x, held, op)
    ensures Consistent(jhash, mine, Apply(jhash, mine, x, held, op), Holding(x, held, op))
  {
    if op.Claim? {
      ClaimConsistent(jhash, mine, x, held, op);
    } else if op.Drop? || op.Limbo? {
      LeaveConsistent(jhash, mine, x, held, op);
    } else {
      FreeConsistent(jhash, mine, x, held, op);
    }
  }

  // ----- indexing a set afresh -----

  /** The first k slots of a set indexed one after the other, the rest on no list yet. */
  ghost function Built(jhash: nat -> nat, bits: seq<Bits>, dbn: seq<nat>, k: nat): (x: Index)
    requires k <= |bits| == |dbn|
    ensures x.bits == bits && x.dbn == dbn && |x.home| == |bits| && |x.lists| == BUCKETS + 1
    decreases k
  {
    if k == 0 then Index(bits, dbn, seq(BUCKETS + 1, n => []), seq(|bits|, n => -1))
    else Pushed(Built(jhash, bits, dbn, k - 1), if bits[k - 1].valid then Bucket(jhash, dbn[k - 1]) else INVALIDS, k - 1)
  }

  lemma {:induction false} BuiltShaped(jhash: nat -> nat, bits: seq<Bits>, dbn: seq<nat>, k: nat)
    requires k <= |bits| == |dbn| <= NULL
    ensures Shaped(Built(jhash, bits, dbn, k))
    ensures forall i {:trigger Built(jhash, bits, dbn, k).home[i]} :: 0 <= i < |bits| ==>
              Built(jhash, bits, dbn, k).home[i] == if i >= k then -1 else if bits[i].valid then Bucket(jhash, dbn[i]) else INVALIDS
    decreases k
  {
    if k > 0 {
      BuiltShaped(jhash, bits, dbn, k - 1);
      PushShaped(Built(jhash, bits, dbn, k - 1), if bits[k - 1].valid then Bucket(jhash, dbn[k - 1]) else INVALIDS, k - 1);
    }
  }

  /** What a load or a creation may leave in a set: free slots, and VALID ones with blocks of
      the set, no two with the same. */
  ghost predicate Indexable(mine: nat -> bool, bits: seq<Bits>, dbn: seq<nat>) {
    && |bits| == |dbn| <= NULL
    && (forall i {:trigger bits[i]} :: 0 <= i < |bits| ==> bits[i] == INVALID || (bits[i].valid && !bits[i].invalid && mine(dbn[i])))
    && (forall i, j {:trigger bits[i], bits[j]} :: 0 <= i < j < |bits| && bits[i].valid && bits[j].valid ==> dbn[i] != dbn[j])
  }

  lemma BuiltConsistent(jhash: nat -> nat, mine: nat -> bool, bits: seq<Bits>, dbn: seq<nat>)
    requires Indexable(mine, bits, dbn)
    ensures Consistent(jhash, mine, Built(jhash, bits, dbn, |bits|), None)
  {
    BuiltShaped(jhash, bits, dbn, |bits|);
    var x := Built(jhash, bits, dbn, |bits|);
    forall i: nat, j: nat | i < j < |x.bits| ensures !Clash(x, i, j) { assert x.bits[i] == bits[i] && x.bits[j] == bits[j]; }
  }

  // ----- lookup refines a linear scan -----

  /** Walking a chain. */
  function Walk(x: Index, l: seq<nat>, d: nat): Option<nat>
    requires forall k {:trigger l[k]} :: 0 <= k < |l| ==> l[k] < |x.dbn|
  {
    if l == [] then None else if x.dbn[l[0]] == d then Some(l[0]) else Walk(x, l[1..], d)
  }

  /** Scanning the whole set. */
  function Scan(x: Index, i: nat, d: nat): Option<nat>
    requires |x.bits| == |x.dbn| && i <= |x.bits|
    decreases |x.bits| - i
  {
    if i == |x.bits| then None else if x.bits[i].valid && x.dbn[i] == d then Some(i) else Scan(x, i + 1, d)
  }

  lemma {:induction false} WalkFinds(x: Index, l: seq<nat>, d: nat)
    requires forall k {:trigger l[k]} :: 0 <= k < |l| ==> l[k] < |x.dbn|
    ensures Walk(x, l, d).None? ==> forall k {:trigger l[k]} :: 0 <= k < |l| ==> x.dbn[l[k]] != d
    ensures Walk(x, l, d).Some? ==> Walk(x, l, d).value in l && x.dbn[Walk(x, l, d).value] == d
  {
    if l != [] && x.dbn[l[0]] != d {
      WalkFinds(x, l[1..], d);
      assert l == [l[0]] + l[1..];
    }
  }

  lemma {:induction false} ScanFinds(x: Index, i: nat, d: nat)
    requires |x.bits| == |x.dbn| && i <= |x.bits|
    ensures Scan(x, i, d).None? ==> forall k {:trigger x.bits[k]} :: i <= k < |x.bits| && x.bits[k].valid ==> x.dbn[k] != d
    ensures Scan(x, i, d).Some? ==> Scan(x, i, d).value < |x.bits| && x.bits[Scan(x, i, d).value].valid && x.dbn[Scan(x, i, d).value] == d
    decreases |x.bits| - i
  {
    if i < |x.bits| && !(x.bits[i].valid && x.dbn[i] == d) { ScanFinds(x, i + 1, d); }
  }

  /** Walking the chain of a block finds what a scan of the whole set finds: the one VALID
      slot of the block, or nothing. */
  lemma LookupIsScan(jhash: nat -> nat, mine: nat -> bool, x: Index, held: Option<nat>, d: nat)
    requires Consistent(jhash, mine, x, held)
    ensures forall k {:trigger x.lists[Bucket(jhash, d)][k]} :: 0 <= k < |x.lists[Bucket(jhash, d)]| ==> x.lists[Bucket(jhash, d)][k] < |x.dbn|
    ensures Walk(x, x.lists[Bucket(jhash, d)], d) == Scan(x, 0, d)
  {
    var b := Bucket(jhash, d);
    var l := x.lists[b];
    forall k | 0 <= k < |l| ensures l[k] < |x.dbn| && x.bits[l[k]].valid { assert x.home[l[k]] == b; }
    WalkFinds(x, l, d);
    ScanFinds(x, 0, d);
    if Scan(x, 0, d).Some? {
      var i := Scan(x, 0, d).value;
      OnChain(jhash, mine, x, held, i);
      assert l[Position(l, i)] == i;
      OneSlot(x, i, Walk(x, l, d).value);
    }
  }

  // ----- whole runs -----

  ghost predicate IsRun(jhash: nat -> nat, mine: nat -> bool, run: seq<Index>, holds: seq<Option<nat>>, ops: seq<Op>) {
    && |run| == |holds| == |ops| + 1 && Consistent(jhash, mine, run[0], holds[0])
    && forall k {:trigger ops[k]} :: 0 <= k < |ops| ==>
         Consistent(jhash, mine, run[k], holds[k]) ==>
           Allowed(mine, run[k], holds[k], ops[k]) && run[k + 1] == Apply(jhash, mine, run[k], holds[k], ops[k])
           && holds[k + 1] == Holding(run[k], holds[k], ops[k])
  }

  /** After any sequence of claims, replacements, invalidations and drains a lookup of any
      block agrees with a scan of the set. */
  lemma {:induction false} RunLookup(jhash: nat -> nat, mine: nat -> bool, run: seq<Index>, holds: seq<Option<nat>>, ops: seq<Op>, n: nat, d: nat)
    requires IsRun(jhash, mine, run, holds, ops) && n < |run|
    ensures Consistent(jhash, mine, run[n], holds[n])
    ensures forall k {:trigger run[n].lists[Bucket(jhash, d)][k]} :: 0 <= k < |run[n].lists[Bucket(jhash, d)]| ==> run[n].lists[Bucket(jhash, d)][k] < |run[n].dbn|
    ensures Walk(run[n], run[n].lists[Bucket(jhash, d)], d) == Scan(run[n], 0, d)
    decreases n
  {
    if n > 0 {
      RunLookup(jhash, mine, run, holds, ops, n - 1, d);
      var op := ops[n - 1];
      assert run[n - 1 + 1] == Apply(jhash, mine, run[n - 1], holds[n - 1], op) && holds[n - 1 + 1] == Holding(run[n - 1], holds[n - 1], op);
      ApplyConsistent(jhash, mine, run[n - 1], holds[n - 1], op);
    }
    LookupIsScan(jhash, mine, run[n], holds[n], d);
  }
}
