/** Clustering of the writes a cleaning starts: the blocks chosen are extended along runs of
    neighbouring idle dirty blocks of the set, in place in the set's state words. */
module MergeWrites {
  import opened Types
  import opened Links
  import opened IndexSpec
  import opened HashIndex

  const SECTORS := 0x1_0000_0000_0000_0000   // sector_t is 64 bits and wraps around

  /** dbn_index_pair, with the index relative to the set. */
  datatype Pair = Pair(dbn: nat, index: nat)

  type Sector = d: nat | d < SECTORS
  type BlockSize = n: nat | 0 < n < SECTORS witness 1

  /** The block one below or above, as unsigned arithmetic computes it. */
  function Next(d: nat, size: BlockSize, down: bool): nat {
    if down then (if d >= size then d - size else d + SECTORS - size)
    else if d + size < SECTORS then d + size else d + size - SECTORS
  }

  lemma ThereAndBack(d: Sector, size: BlockSize, down: bool)
    ensures Next(Next(d, size, down), size, !down) == d
  {
  }

  predicate IdleDirty(b: Bits) { b.dirty && !b.Busy() }

  function Marked(b: Bits): Bits { b.(diskWrite := true).Young() }

  function Slots(list: seq<Pair>): set<nat> {
    if list == [] then {} else Slots(list[..|list| - 1]) + {list[|list| - 1].index}
  }

  lemma {:induction false} SlotsOf(list: seq<Pair>, i: nat)
    ensures i in Slots(list) <==> exists k {:trigger list[k]} :: 0 <= k < |list| && list[k].index == i
  {
    if list != [] {
      var m := |list| - 1;
      SlotsOf(list[..m], i);
      assert forall k {:trigger list[k]} :: 0 <= k < m ==> list[k] == list[..m][k];
    }
  }

  /** Slot j holds the block next to slot i's. */
  predicate Beside(x: Index, size: BlockSize, i: nat, j: nat, down: bool)
    requires |x.bits| == |x.dbn| && i < |x.dbn| && j < |x.dbn|
  {
    x.bits[j].valid && x.dbn[j] == Next(x.dbn[i], size, down)
  }

  /** A walk from one of the blocks chosen through idle dirty blocks, each next to the last. */
  ghost predicate IsPath(x: Index, size: BlockSize, chosen: set<nat>, p: seq<nat>) {
    && |x.bits| == |x.dbn| && p != [] && p[0] in chosen
    && (forall k {:trigger p[k]} :: 0 <= k < |p| ==> p[k] < |x.dbn|)
    && (forall k: nat {:trigger HopAt(x, size, p, k)} :: k + 1 < |p| ==> HopAt(x, size, p, k))
  }

  predicate HopAt(x: Index, size: BlockSize, p: seq<nat>, k: nat)
    requires |x.bits| == |x.dbn| && k + 1 < |p| && p[k] < |x.dbn| && p[k + 1] < |x.dbn|
  {
    IdleDirty(x.bits[p[k + 1]]) && (Beside(x, size, p[k], p[k + 1], true) || Beside(x, size, p[k], p[k + 1], false))
  }

  /** Slot i is joined to a chosen block by an unbroken run of idle dirty blocks. */
  ghost predicate Joined(x: Index, size: BlockSize, chosen: set<nat>, i: nat) {
    exists p :: IsPath(x, size, chosen, p) && p[|p| - 1] == i
  }

  lemma JoinedHop(x: Index, size: BlockSize, chosen: set<nat>, i: nat, j: nat, down: bool)
    requires Joined(x, size, chosen, i) && |x.bits| == |x.dbn| && i < |x.dbn| && j < |x.dbn|
    requires IdleDirty(x.bits[j]) && Beside(x, size, i, j, down)
    ensures Joined(x, size, chosen, j)
  {
    var p :| IsPath(x, size, chosen, p) && p[|p| - 1] == i;
    var q := p + [j];
    forall k: nat | k + 1 < |q| ensures HopAt(x, size, q, k) { if k + 1 < |p| { assert HopAt(x, size, p, k); } }
    assert IsPath(x, size, chosen, q);
  }

  lemma JoinedChosen(x: Index, size: BlockSize, chosen: set<nat>, i: nat)
    requires i in chosen && |x.bits| == |x.dbn| && i < |x.dbn|
    ensures Joined(x, size, chosen, i)
  {
    assert IsPath(x, size, chosen, [i]);
  }

  /** The idle dirty block next to slot i on one side, if there is one, is in `taken`. */
  ghost predicate Closed(x: Index, size: BlockSize, taken: set<nat>, i: nat, down: bool)
    requires |x.bits| == |x.dbn| && i < |x.dbn|
  {
    forall j: nat {:trigger Beside(x, size, i, j, down)} :: j < |x.dbn| && IdleDirty(x.bits[j]) && Beside(x, size, i, j, down) ==> j in taken
  }

  /** A set with the chosen blocks and closed under neighbours has everything joined to them. */
  lemma {:induction false} ClosedHasPath(x: Index, size: BlockSize, chosen: set<nat>, taken: set<nat>, p: seq<nat>, n: nat)
    requires IsPath(x, size, chosen, p) && chosen <= taken && n < |p|
    requires forall i: nat :: i in taken && i < |x.dbn| ==> Closed(x, size, taken, i, true) && Closed(x, size, taken, i, false)
    ensures p[n] in taken
    decreases n
  {
    if n > 0 {
      ClosedHasPath(x, size, chosen, taken, p, n - 1);
      assert HopAt(x, size, p, n - 1);
    }
  }

  // ----- the list under construction -----

  /** Distinct slots of the set with their blocks. */
  ghost predicate ListOk(x: Index, list: seq<Pair>) {
    && |x.bits| == |x.dbn|
    && (forall k {:trigger list[k]} :: 0 <= k < |list| ==> list[k].index < |x.dbn| && list[k].dbn == x.dbn[list[k].index] && x.bits[list[k].index].valid)
    && (forall k: nat, l: nat {:trigger Twice(list, k, l)} :: k < l < |list| ==> !Twice(list, k, l))
  }

  predicate Twice(list: seq<Pair>, k: nat, l: nat)
    requires k < |list| && l < |list|
  {
    list[k].index == list[l].index
  }

  /** `now` is `was` with exactly the slots taken beyond the chosen ones marked. */
  ghost predicate MarkedOnly(was: Index, now: Index, chosen: set<nat>, taken: set<nat>) {
    now == was.(bits := now.bits) && |now.bits| == |was.bits|
    && forall i: nat {:trigger now.bits[i]} :: i < |was.bits| ==>
         now.bits[i] == if i in taken && i !in chosen then Marked(was.bits[i]) else was.bits[i]
  }

  lemma {:induction false} Pigeons(list: seq<Pair>, n: nat)
    requires forall k {:trigger list[k]} :: 0 <= k < |list| ==> list[k].index < n
    requires forall k: nat, l: nat {:trigger Twice(list, k, l)} :: k < l < |list| ==> !Twice(list, k, l)
    ensures |Slots(list)| == |list| <= n && forall i :: i in Slots(list) ==> i < n
  {
    SlotsCount(list);
    forall i | i in Slots(list) ensures i < n { SlotsOf(list, i); }
    InRange(Slots(list), n);
  }

  lemma {:induction false} SlotsCount(list: seq<Pair>)
    requires forall k: nat, l: nat {:trigger Twice(list, k, l)} :: k < l < |list| ==> !Twice(list, k, l)
    ensures |Slots(list)| == |list|
  {
    if list != [] {
      var m := |list| - 1;
      forall k: nat, l: nat | k < l < m ensures !Twice(list[..m], k, l) { assert !Twice(list, k, l); }
      SlotsCount(list[..m]);
      SlotsOf(list[..m], list[m].index);
      forall k: nat | k < m ensures list[..m][k].index != list[m].index { assert !Twice(list, k, m); }
    }
  }

  lemma {:induction false} InRange(s: set<nat>, n: nat)
    requires forall i :: i in s ==> i < n
    ensures |s| <= n
  {
    if n == 0 { assert s == {}; } else { InRange(s - {n - 1}, n - 1); }
  }

  lemma Room(list: seq<Pair>, n: nat, i: nat)
    requires forall k {:trigger list[k]} :: 0 <= k < |list| ==> list[k].index < n
    requires forall k: nat, l: nat {:trigger Twice(list, k, l)} :: k < l < |list| ==> !Twice(list, k, l)
    requires i < n && i !in Slots(list)
    ensures |list| < n
  {
    Pigeons(list, n);
    InRange(Slots(list) + {i}, n);
  }

  lemma Grown(x: Index, list: seq<Pair>, i: nat)
    requires ListOk(x, list) && i < |x.dbn| && x.bits[i].valid && i !in Slots(list)
    ensures ListOk(x, list + [Pair(x.dbn[i], i)]) && Slots(list + [Pair(x.dbn[i], i)]) == Slots(list) + {i}
  {
    var l' := list + [Pair(x.dbn[i], i)];
    assert l'[..|list|] == list;
    SlotsOf(list, i);
    forall k: nat, l: nat | k < l < |l'| ensures !Twice(l', k, l) {
      if l < |list| { assert !Twice(list, k, l); } else { assert l'[k] == list[k] && list[k].index != i; }
    }
  }

  // ----- sorting -----

  function Insert(p: Pair, list: seq<Pair>): seq<Pair> {
    if list == [] then [p] else if p.dbn < list[0].dbn then [p] + list else [list[0]] + Insert(p, list[1..])
  }

  /** What the kernel's sort leaves, for entries with distinct dbns. */
  function Sorted(list: seq<Pair>): seq<Pair> {
    if list == [] then [] else Insert(list[0], Sorted(list[1..]))
  }

  predicate Ascending(list: seq<Pair>) {
    forall k: nat {:trigger list[k]} :: k + 1 < |list| ==> list[k].dbn < list[k + 1].dbn
  }

  lemma {:induction false} InsertMembers(p: Pair, list: seq<Pair>)
    ensures |Insert(p, list)| == |list| + 1 && forall q :: q in Insert(p, list) <==> q == p || q in list
    ensures Insert(p, list)[0] == p || (list != [] && Insert(p, list)[0] == list[0])
  {
    if list != [] {
      InsertMembers(p, list[1..]);
      assert list == [list[0]] + list[1..];
    }
  }

  lemma {:induction false} InsertAscending(p: Pair, list: seq<Pair>)
    requires Ascending(list) && forall q :: q in list ==> q.dbn != p.dbn
    ensures Ascending(Insert(p, list))
  {
    if list != [] && p.dbn > list[0].dbn {
      var r := list[1..];
      assert list == [list[0]] + r;
      assert Ascending(r) by { assert forall k: nat {:trigger r[k]} :: k + 1 < |r| ==> r[k] == list[k + 1] && r[k + 1] == list[k + 1 + 1]; }
      InsertAscending(p, r);
      InsertMembers(p, r);
      ConsAscending(list[0], Insert(p, r));
    }
  }

  lemma ConsAscending(p: Pair, list: seq<Pair>)
    requires Ascending(list) && (list != [] ==> p.dbn < list[0].dbn)
    ensures Ascending([p] + list)
  {
    assert forall k: nat {:trigger ([p] + list)[k]} :: 0 < k < |list| + 1 ==> ([p] + list)[k] == list[k - 1];
  }

  lemma {:induction false} SortedAscending(list: seq<Pair>)
    requires forall k: nat, l: nat {:trigger Same(list, k, l)} :: k < l < |list| ==> !Same(list, k, l)
    ensures Ascending(Sorted(list)) && |Sorted(list)| == |list| && forall q :: q in Sorted(list) <==> q in list
  {
    if list != [] {
      var r := list[1..];
      forall k: nat, l: nat | k < l < |r| ensures !Same(r, k, l) { assert !Same(list, k + 1, l + 1); }
      SortedAscending(r);
      assert list == [list[0]] + r;
      forall q | q in Sorted(r) ensures q.dbn != list[0].dbn {
        var k :| 0 <= k < |r| && r[k] == q;
        assert !Same(list, 0, k + 1);
      }
      InsertAscending(list[0], Sorted(r));
      InsertMembers(list[0], Sorted(r));
    }
  }

  predicate Same(list: seq<Pair>, k: nat, l: nat)
    requires k < |list| && l < |list|
  {
    list[k].dbn == list[l].dbn
  }

  // ----- the merge -----

  /** The set's index is sound and its blocks are sector numbers. */
  ghost predicate Sound(jhash: nat -> nat, mine: nat -> bool, x: Index, held: Option<nat>) {
    Consistent(jhash, mine, x, held) && forall i {:trigger x.dbn[i]} :: 0 <= i < |x.dbn| ==> x.dbn[i] < SECTORS
  }

  /** What holds of the list while it grows: the chosen blocks, and others joined to them,
      each marked for writing when it was added. */
  ghost predicate Growing(was: Index, now: Index, size: BlockSize, chosen: set<nat>, list: seq<Pair>) {
    && ListOk(was, list) && MarkedOnly(was, now, chosen, Slots(list)) && chosen <= Slots(list)
    && (forall i: nat {:trigger was.bits[i]} :: i < |was.bits| && i in chosen ==> was.bits[i].Busy())
    && (forall i: nat {:trigger Joined(was, size, chosen, i)} :: i in Slots(list) ==> Joined(was, size, chosen, i))
  }

  lemma TakenIsBusy(was: Index, now: Index, size: BlockSize, chosen: set<nat>, list: seq<Pair>, j: nat)
    requires Growing(was, now, size, chosen, list) && j < |now.bits|
    ensures IdleDirty(now.bits[j]) <==> IdleDirty(was.bits[j]) && j !in Slots(list)
    ensures now.bits[j].valid == was.bits[j].valid
  {
  }

  /** Nothing is added past slot c: there is no idle dirty block left next to it. */
  lemma ChainEnds(jhash: nat -> nat, mine: nat -> bool, held: Option<nat>, was: Index, now: Index, size: BlockSize, chosen: set<nat>,
                  list: seq<Pair>, c: nat, down: bool)
    requires Sound(jhash, mine, now, held) && Growing(was, now, size, chosen, list) && c < |was.dbn|
    requires match Scan(now, 0, Next(was.dbn[c], size, down)) case None => true case Some(j) => j < |now.bits| && !IdleDirty(now.bits[j])
    ensures Closed(was, size, Slots(list), c, down)
  {
    var d := Next(was.dbn[c], size, down);
    ScanFinds(now, 0, d);
    forall j: nat | j < |was.dbn| && IdleDirty(was.bits[j]) && Beside(was, size, c, j, down) ensures j in Slots(list) {
      TakenIsBusy(was, now, size, chosen, list, j);
      assert now.bits[j].valid && now.dbn[j] == d;
      var k := Scan(now, 0, d).value;
      OneSlot(now, j, k);
    }
  }

  /** Slot j, idle, DIRTY and next to the listed slot c, can be added. */
  ghost predicate CanAdd(jhash: nat -> nat, mine: nat -> bool, held: Option<nat>, was: Index, now: Index, size: BlockSize, chosen: set<nat>,
                         list: seq<Pair>, c: nat, j: nat, down: bool) {
    && Sound(jhash, mine, now, held) && Growing(was, now, size, chosen, list) && c in Slots(list) && j < |now.bits| && c < |was.dbn|
    && now.bits[j].valid && now.dbn[j] == Next(was.dbn[c], size, down) && IdleDirty(now.bits[j])
  }

  lemma AddList(jhash: nat -> nat, mine: nat -> bool, held: Option<nat>, was: Index, now: Index, size: BlockSize, chosen: set<nat>,
                list: seq<Pair>, c: nat, j: nat, down: bool)
    requires CanAdd(jhash, mine, held, was, now, size, chosen, list, c, j, down)
    ensures j < |was.dbn| && j !in Slots(list) && |list| < |was.dbn| && ListOk(was, list + [Pair(now.dbn[j], j)])
    ensures Slots(list + [Pair(now.dbn[j], j)]) == Slots(list) + {j}
    ensures IdleDirty(was.bits[j]) && Beside(was, size, c, j, down)
  {
    TakenIsBusy(was, now, size, chosen, list, j);
    Grown(was, list, j);
    Room(list, |was.dbn|, j);
  }

  lemma AddSound(jhash: nat -> nat, mine: nat -> bool, held: Option<nat>, was: Index, now: Index, size: BlockSize, chosen: set<nat>,
                 list: seq<Pair>, c: nat, j: nat, down: bool)
    requires CanAdd(jhash, mine, held, was, now, size, chosen, list, c, j, down)
    ensures Sound(jhash, mine, WithBits(now, j, Marked(now.bits[j])), held)
  {
    assert now.bits[j].invalid == !now.bits[j].valid;
    ApplyConsistent(jhash, mine, now, held, Mark(j, Marked(now.bits[j])));
  }

  /** The list goes on growing properly. */
  lemma AddGrowing(jhash: nat -> nat, mine: nat -> bool, held: Option<nat>, was: Index, now: Index, size: BlockSize, chosen: set<nat>,
                   list: seq<Pair>, c: nat, j: nat, down: bool)
    requires CanAdd(jhash, mine, held, was, now, size, chosen, list, c, j, down)
    ensures Growing(was, WithBits(now, j, Marked(now.bits[j])), size, chosen, list + [Pair(now.dbn[j], j)])
  {
    AddList(jhash, mine, held, was, now, size, chosen, list, c, j, down);
    JoinedHop(was, size, chosen, c, j, down);
    AddMarked(was, now, size, chosen, list, j);
  }

  lemma AddMarked(was: Index, now: Index, size: BlockSize, chosen: set<nat>, list: seq<Pair>, j: nat)
    requires Growing(was, now, size, chosen, list) && j < |now.bits| && j !in Slots(list)
    ensures MarkedOnly(was, WithBits(now, j, Marked(now.bits[j])), chosen, Slots(list) + {j})
  {
    assert now.bits[j] == was.bits[j];
  }

  /** c is settled on the side j is on, and j on the side c is on. */
  lemma AddClosed(jhash: nat -> nat, mine: nat -> bool, held: Option<nat>, was: Index, now: Index, size: BlockSize, chosen: set<nat>,
                  list: seq<Pair>, c: nat, j: nat, down: bool)
    requires CanAdd(jhash, mine, held, was, now, size, chosen, list, c, j, down)
    ensures j < |was.dbn| && Closed(was, size, Slots(list) + {j}, c, down) && Closed(was, size, Slots(list) + {j}, j, !down)
  {
    AddList(jhash, mine, held, was, now, size, chosen, list, c, j, down);
    OneBeside(jhash, mine, held, was, now, size, chosen, list, c, j, down);
    ListedValid(was, list, c);
    assert was.dbn[c] < SECTORS by { assert now.dbn[c] < SECTORS; }
    ThereAndBack(was.dbn[c], size, down);
    OneBeside(jhash, mine, held, was, now, size, chosen, list, j, c, !down);
  }

  lemma ListedValid(x: Index, list: seq<Pair>, c: nat)
    requires ListOk(x, list) && c in Slots(list)
    ensures c < |x.dbn| && x.bits[c].valid
  {
    SlotsOf(list, c);
  }

  lemma OneBeside(jhash: nat -> nat, mine: nat -> bool, held: Option<nat>, was: Index, now: Index, size: BlockSize, chosen: set<nat>,
                  list: seq<Pair>, c: nat, j: nat, down: bool)
    requires Sound(jhash, mine, now, held) && Growing(was, now, size, chosen, list) && c < |was.dbn| && j < |was.dbn|
    requires Beside(was, size, c, j, down)
    ensures forall k: nat {:trigger Beside(was, size, c, k, down)} :: k < |was.dbn| && Beside(was, size, c, k, down) ==> k == j
  {
    forall k: nat | k < |was.dbn| && Beside(was, size, c, k, down) ensures k == j {
      TakenIsBusy(was, now, size, chosen, list, j);
      TakenIsBusy(was, now, size, chosen, list, k);
      OneSlot(now, j, k);
    }
  }

  /** Added slots are settled on both sides, except the one named. */
  ghost predicate Settled(was: Index, size: BlockSize, before: set<nat>, after: set<nat>, except: nat) {
    |was.bits| == |was.dbn| && forall i: nat {:trigger i in after} :: i in after && i !in before && i != except && i < |was.dbn| ==>
      Closed(was, size, after, i, true) && Closed(was, size, after, i, false)
  }

  lemma ClosedMore(x: Index, size: BlockSize, a: set<nat>, b: set<nat>, i: nat, down: bool)
    requires |x.bits| == |x.dbn| && i < |x.dbn| && Closed(x, size, a, i, down) && a <= b
    ensures Closed(x, size, b, i, down)
  {
  }

  lemma SettledMore(was: Index, size: BlockSize, before: set<nat>, after: set<nat>, c: nat, j: nat, down: bool)
    requires Settled(was, size, before, after, c) && c < |was.dbn| && j < |was.dbn| && j !in after
    requires c !in before ==> Closed(was, size, after, c, !down)
    requires Closed(was, size, after + {j}, c, down)
    ensures Settled(was, size, before, after + {j}, j)
  {
    forall i: nat | i in after + {j} && i !in before && i != j && i < |was.dbn|
      ensures Closed(was, size, after + {j}, i, true) && Closed(was, size, after + {j}, i, false)
    {
      if i == c {
        ClosedMore(was, size, after, after + {j}, c, !down);
      } else {
        ClosedMore(was, size, after, after + {j}, i, true);
        ClosedMore(was, size, after, after + {j}, i, false);
      }
    }
  }

  /** A neighbour is tacked onto the list. */
  method Add(cacheSet: CacheSet, list: seq<Pair>, c: nat, j: nat, size: BlockSize, down: bool,
             ghost was: Index, ghost chosen: set<nat>, ghost mine: nat -> bool, ghost held: Option<nat>) returns (out: seq<Pair>)
    requires cacheSet.Valid() && CanAdd(cacheSet.jhash, mine, held, was, cacheSet.Model(), size, chosen, list, c, j, down)
    modifies cacheSet.bits
    ensures cacheSet.Valid() && Sound(cacheSet.jhash, mine, cacheSet.Model(), held) && Growing(was, cacheSet.Model(), size, chosen, out)
    ensures j !in Slots(list) && list <= out && |out| == |list| + 1 <= |was.dbn| && Slots(out) == Slots(list) + {j} && j < |was.dbn|
    ensures Closed(was, size, Slots(out), c, down) && Closed(was, size, Slots(out), j, !down)
  {
    ghost var now := cacheSet.Model();
    AddList(cacheSet.jhash, mine, held, was, now, size, chosen, list, c, j, down);
    AddSound(cacheSet.jhash, mine, held, was, now, size, chosen, list, c, j, down);
    AddGrowing(cacheSet.jhash, mine, held, was, now, size, chosen, list, c, j, down);
    AddClosed(cacheSet.jhash, mine, held, was, now, size, chosen, list, c, j, down);
    cacheSet.bits[j] := Marked(cacheSet.bits[j]);
    assert cacheSet.Model() == WithBits(now, j, Marked(now.bits[j]));
    out := list + [Pair(cacheSet.dbn[j], j)];
  }

  /** How far one of the two inner loops has come: from tip to c, with all in between settled. */
  ghost predicate Reaching(was: Index, size: BlockSize, down: bool, list: seq<Pair>, out: seq<Pair>, tip: nat, c: nat) {
    && |was.bits| == |was.dbn| && tip < |was.dbn| && c < |was.dbn| && c in Slots(out) && (c in Slots(list) ==> c == tip)
    && list <= out && Slots(list) <= Slots(out)
    && (c != tip ==> Closed(was, size, Slots(out), tip, down) && Closed(was, size, Slots(out), c, !down))
    && Settled(was, size, Slots(list), Slots(out), c)
  }

  lemma ReachingMore(was: Index, size: BlockSize, down: bool, list: seq<Pair>, out: seq<Pair>, more: seq<Pair>, tip: nat, c: nat, j: nat)
    requires Reaching(was, size, down, list, out, tip, c) && j < |was.dbn| && j !in Slots(out) && tip in Slots(list)
    requires out <= more && Slots(more) == Slots(out) + {j}
    requires Closed(was, size, Slots(more), c, down) && Closed(was, size, Slots(more), j, !down)
    ensures Reaching(was, size, down, list, more, tip, j)
  {
    SettledMore(was, size, Slots(list), Slots(out), c, j, down);
    if c != tip { ClosedMore(was, size, Slots(out), Slots(more), tip, down); }
  }

  lemma ReachingEnd(was: Index, size: BlockSize, down: bool, list: seq<Pair>, out: seq<Pair>, tip: nat, c: nat)
    requires Reaching(was, size, down, list, out, tip, c) && tip in Slots(list) && Closed(was, size, Slots(out), c, down)
    ensures Closed(was, size, Slots(out), tip, down) && Settled(was, size, Slots(list), Slots(out), |was.dbn|)
  {
  }

  /** The slot of the next block, if it is one to merge; if it is not, nothing is left there. */
  method LookNext(cacheSet: CacheSet, list: seq<Pair>, c: nat, size: BlockSize, down: bool,
                  ghost was: Index, ghost chosen: set<nat>, ghost mine: nat -> bool, ghost held: Option<nat>) returns (j: int)
    requires cacheSet.Valid() && Sound(cacheSet.jhash, mine, cacheSet.Model(), held)
    requires Growing(was, cacheSet.Model(), size, chosen, list) && c in Slots(list) && c < |was.dbn|
    ensures j == -1 ==> Closed(was, size, Slots(list), c, down)
    ensures j != -1 ==> j >= 0 && CanAdd(cacheSet.jhash, mine, held, was, cacheSet.Model(), size, chosen, list, c, j, down)
  {
    ghost var now := cacheSet.Model();
    var neighbor := cacheSet.HashLookup(Next(cacheSet.dbn[c], size, down), mine, held);
    ScanFinds(now, 0, Next(was.dbn[c], size, down));
    j := if neighbor == -1 then -1 else neighbor - cacheSet.start;
    if j != -1 && !IdleDirty(cacheSet.bits[j]) { j := -1; }
    if j == -1 { ChainEnds(cacheSet.jhash, mine, held, was, now, size, chosen, list, c, down); }
  }

  /** One of the two inner loops: from slot tip on, blocks are merged as long as the next
      one on that side is an idle dirty block of the set. */
  method Extend(cacheSet: CacheSet, list: seq<Pair>, tip: nat, size: BlockSize, down: bool,
                ghost was: Index, ghost chosen: set<nat>, ghost mine: nat -> bool, ghost held: Option<nat>) returns (out: seq<Pair>)
    requires cacheSet.Valid() && Sound(cacheSet.jhash, mine, cacheSet.Model(), held)
    requires Growing(was, cacheSet.Model(), size, chosen, list) && tip in Slots(list) && tip < |was.dbn|
    modifies cacheSet.bits
    ensures cacheSet.Valid() && Sound(cacheSet.jhash, mine, cacheSet.Model(), held) && Growing(was, cacheSet.Model(), size, chosen, out)
    ensures list <= out && Slots(list) <= Slots(out)
    ensures Closed(was, size, Slots(out), tip, down) && Settled(was, size, Slots(list), Slots(out), |was.dbn|)
  {
    out := list;
    var c: nat := tip;
    var j := LookNext(cacheSet, out, c, size, down, was, chosen, mine, held);
    while j != -1
      invariant cacheSet.Valid() && Sound(cacheSet.jhash, mine, cacheSet.Model(), held) && Growing(was, cacheSet.Model(), size, chosen, out)
      invariant Reaching(was, size, down, list, out, tip, c) && |out| <= |was.dbn| + |list|
      invariant j == -1 ==> Closed(was, size, Slots(out), c, down)
      invariant j != -1 ==> j >= 0 && CanAdd(cacheSet.jhash, mine, held, was, cacheSet.Model(), size, chosen, out, c, j, down)
      decreases |was.dbn| + |list| - |out|
    {
      ghost var before := out;
      out := Add(cacheSet, out, c, j, size, down, was, chosen, mine, held);
      ReachingMore(was, size, down, list, before, out, tip, c, j);
      c := j;
      j := LookNext(cacheSet, out, c, size, down, was, chosen, mine, held);
    }
    ReachingEnd(was, size, down, list, out, tip, c);
  }

  /** The first i chosen blocks are settled on both sides, and so is everything added. */
  ghost predicate Done(was: Index, size: BlockSize, list: seq<Pair>, i: nat, taken: set<nat>) {
    && |was.bits| == |was.dbn| && Settled(was, size, Slots(list), taken, |was.dbn|)
    && forall k {:trigger list[k]} :: 0 <= k < i && k < |list| && list[k].index < |was.dbn| ==>
         Closed(was, size, taken, list[k].index, true) && Closed(was, size, taken, list[k].index, false)
  }

  lemma DoneMore(was: Index, size: BlockSize, list: seq<Pair>, i: nat, a: set<nat>, b: set<nat>)
    requires Done(was, size, list, i, a) && a <= b && Settled(was, size, a, b, |was.dbn|)
    ensures Done(was, size, list, i, b)
  {
    forall j: nat | j in b && j !in Slots(list) && j < |was.dbn| ensures Closed(was, size, b, j, true) && Closed(was, size, b, j, false) {
      if j in a {
        ClosedMore(was, size, a, b, j, true);
        ClosedMore(was, size, a, b, j, false);
      }
    }
    forall k | 0 <= k < i && k < |list| && list[k].index < |was.dbn|
      ensures Closed(was, size, b, list[k].index, true) && Closed(was, size, b, list[k].index, false)
    {
      ClosedMore(was, size, a, b, list[k].index, true);
      ClosedMore(was, size, a, b, list[k].index, false);
    }
  }

  /** When all is settled the list holds exactly what is joined to the chosen blocks. */
  lemma {:induction false} ExactlyJoined(was: Index, now: Index, size: BlockSize, list: seq<Pair>, out: seq<Pair>, i: nat)
    requires Growing(was, now, size, Slots(list), out) && ListOk(was, list) && Done(was, size, list, |list|, Slots(out))
    ensures i in Slots(out) <==> Joined(was, size, Slots(list), i)
  {
    var taken := Slots(out);
    forall j: nat | j in taken && j < |was.dbn| ensures Closed(was, size, taken, j, true) && Closed(was, size, taken, j, false) {
      if j in Slots(list) { SlotsOf(list, j); }
    }
    if Joined(was, size, Slots(list), i) {
      var p :| IsPath(was, size, Slots(list), p) && p[|p| - 1] == i;
      ClosedHasPath(was, size, Slots(list), taken, p, |p| - 1);
    }
  }

  lemma DistinctBlocks(jhash: nat -> nat, mine: nat -> bool, held: Option<nat>, x: Index, list: seq<Pair>)
    requires Sound(jhash, mine, x, held) && ListOk(x, list)
    ensures forall k: nat, l: nat {:trigger Same(list, k, l)} :: k < l < |list| ==> !Same(list, k, l)
  {
    forall k: nat, l: nat | k < l < |list| ensures !Same(list, k, l) {
      assert !Twice(list, k, l);
      if Same(list, k, l) { OneSlot(x, list[k].index, list[l].index); }
    }
  }

  lemma SortedList(x: Index, list: seq<Pair>)
    requires ListOk(x, list)
    requires forall k: nat, l: nat {:trigger Same(list, k, l)} :: k < l < |list| ==> !Same(list, k, l)
    ensures ListOk(x, Sorted(list)) && Slots(Sorted(list)) == Slots(list) && Ascending(Sorted(list)) && |Sorted(list)| == |list|
  {
    var t := Sorted(list);
    SortedAscending(list);
    forall k | 0 <= k < |t| ensures t[k].index < |x.dbn| && t[k].dbn == x.dbn[t[k].index] && x.bits[t[k].index].valid { assert t[k] in list; }
    forall k: nat, l: nat | k < l < |t| ensures !Twice(t, k, l) { AscendingApart(t, k, l); }
    forall i ensures i in Slots(t) <==> i in Slots(list) { if i >= 0 { SameSlots(list, t, i); } else { NoNegative(t, i); NoNegative(list, i); } }
  }

  lemma NoNegative(list: seq<Pair>, i: int)
    requires i < 0
    ensures i !in Slots(list)
  {
  }

  lemma SameSlots(list: seq<Pair>, t: seq<Pair>, i: nat)
    requires forall q :: q in t <==> q in list
    ensures i in Slots(t) <==> i in Slots(list)
  {
    SlotsOf(list, i);
    SlotsOf(t, i);
    if k :| 0 <= k < |list| && list[k].index == i { assert list[k] in t; }
    if k :| 0 <= k < |t| && t[k].index == i { assert t[k] in list; }
  }

  lemma {:induction false} AscendingApart(t: seq<Pair>, k: nat, l: nat)
    requires Ascending(t) && k < l < |t|
    ensures t[k].dbn < t[l].dbn
    decreases l - k
  {
    if k + 1 < l { AscendingApart(t, k + 1, l); }
    assert t[k].dbn < t[k + 1].dbn;
  }

  lemma BothDone(was: Index, size: BlockSize, chosen: seq<Pair>, i: nat, a: set<nat>, b: set<nat>, d: set<nat>)
    requires Done(was, size, chosen, i, a) && a <= b <= d && i < |chosen| && chosen[i].index < |was.dbn|
    requires Settled(was, size, a, b, |was.dbn|) && Settled(was, size, b, d, |was.dbn|)
    requires Closed(was, size, b, chosen[i].index, true) && Closed(was, size, d, chosen[i].index, false)
    ensures Done(was, size, chosen, i + 1, d)
  {
    DoneMore(was, size, chosen, i, a, b);
    DoneMore(was, size, chosen, i, b, d);
    ClosedMore(was, size, b, d, chosen[i].index, true);
  }

  /** The chosen block i is extended on both sides. */
  method ExtendBoth(cacheSet: CacheSet, list: seq<Pair>, i: nat, size: BlockSize, ghost was: Index, ghost chosen: seq<Pair>,
                    ghost mine: nat -> bool, ghost held: Option<nat>) returns (out: seq<Pair>)
    requires cacheSet.Valid() && Sound(cacheSet.jhash, mine, cacheSet.Model(), held) && chosen <= list && i < |chosen|
    requires Growing(was, cacheSet.Model(), size, Slots(chosen), list) && Done(was, size, chosen, i, Slots(list))
    modifies cacheSet.bits
    ensures cacheSet.Valid() && Sound(cacheSet.jhash, mine, cacheSet.Model(), held) && chosen <= out
    ensures Growing(was, cacheSet.Model(), size, Slots(chosen), out) && Done(was, size, chosen, i + 1, Slots(out))
  {
    ghost var a := Slots(list);
    SlotsOf(list, list[i].index);
    out := Extend(cacheSet, list, list[i].index, size, true, was, Slots(chosen), mine, held);
    ghost var b := Slots(out);
    out := Extend(cacheSet, out, out[i].index, size, false, was, Slots(chosen), mine, held);
    BothDone(was, size, chosen, i, a, b, Slots(out));
  }

  /** The finished list, sorted, is what was promised. */
  lemma Finished(jhash: nat -> nat, mine: nat -> bool, held: Option<nat>, was: Index, now: Index, size: BlockSize, list: seq<Pair>, out: seq<Pair>)
    requires Sound(jhash, mine, was, held) && Growing(was, now, size, Slots(list), out) && ListOk(was, list)
    requires Done(was, size, list, |list|, Slots(out))
    ensures ListOk(was, Sorted(out)) && Slots(Sorted(out)) == Slots(out) && Ascending(Sorted(out)) && |Sorted(out)| <= |was.dbn|
    ensures forall i: nat {:trigger Joined(was, size, Slots(list), i)} :: i in Slots(out) <==> Joined(was, size, Slots(list), i)
  {
    forall i: nat ensures i in Slots(out) <==> Joined(was, size, Slots(list), i) { ExactlyJoined(was, now, size, list, out, i); }
    DistinctBlocks(jhash, mine, held, was, out);
    Pigeons(out, |was.dbn|);
    SortedList(was, out);
  }

  /** flashcache_merge_writes: the chosen blocks, all marked DISKWRITEINPROG, come back with
      exactly the idle dirty blocks joined to them by an unbroken run, sorted by block
      without duplicates; those blocks are now marked, and nothing else has changed. */
  method MergeWrites(cacheSet: CacheSet, list: seq<Pair>, size: BlockSize, ghost mine: nat -> bool, ghost held: Option<nat>) returns (out: seq<Pair>)
    requires cacheSet.Valid() && Sound(cacheSet.jhash, mine, cacheSet.Model(), held) && ListOk(cacheSet.Model(), list)
    requires forall i: nat {:trigger cacheSet.bits[i]} :: i < cacheSet.bits.Length && i in Slots(list) ==> cacheSet.bits[i].Busy()
    modifies cacheSet.bits
    ensures cacheSet.Valid() && Sound(cacheSet.jhash, mine, cacheSet.Model(), held)
    ensures ListOk(old(cacheSet.Model()), out) && Ascending(out) && |out| <= cacheSet.bits.Length
    ensures forall i: nat {:trigger Joined(old(cacheSet.Model()), size, Slots(list), i)} ::
              i in Slots(out) <==> Joined(old(cacheSet.Model()), size, Slots(list), i)
    ensures MarkedOnly(old(cacheSet.Model()), cacheSet.Model(), Slots(list), Slots(out))
  {
    ghost var was := cacheSet.Model();
    out := list;
    var i := 0;
    ChosenJoined(was, size, list);
    while i < |list|
      invariant 0 <= i <= |list| && list <= out
      invariant cacheSet.Valid() && Sound(cacheSet.jhash, mine, cacheSet.Model(), held)
      invariant Growing(was, cacheSet.Model(), size, Slots(list), out) && Done(was, size, list, i, Slots(out))
    {
      out := ExtendBoth(cacheSet, out, i, size, was, list, mine, held);
      i := i + 1;
    }
    Finished(cacheSet.jhash, mine, held, was, cacheSet.Model(), size, list, out);
    out := Sorted(out);
  }

  lemma ChosenJoined(was: Index, size: BlockSize, list: seq<Pair>)
    requires ListOk(was, list)
    requires forall i: nat {:trigger was.bits[i]} :: i < |was.bits| && i in Slots(list) ==> was.bits[i].Busy()
    ensures Growing(was, was, size, Slots(list), list) && Done(was, size, list, 0, Slots(list))
  {
    forall i: nat | i in Slots(list) ensures Joined(was, size, Slots(list), i) {
      SlotsOf(list, i);
      JoinedChosen(was, size, Slots(list), i);
    }
  }
}
