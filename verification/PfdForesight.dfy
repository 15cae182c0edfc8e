/** What the prefetch list is worth: it is the detector's pattern going on, and no two of its
    blocks compete for one slot of the prefetch cache. */
module PfdForesight {
  import opened PfdDetector
  import opened PfdGenerator

  // ----- the list is the pattern continued -----

  /** Request i after those seen, if the stream goes on following its pattern. */
  function Ahead(s: Stream, size: nat, i: nat): int { Pattern(s, size, Covered(s) + i) }

  predicate Agree(s: Stream, t: Stream, size: nat, m: nat) { Pattern(s, size, m) == Pattern(t, size, m) }

  /** t reports the pattern of s, k requests longer. */
  ghost predicate Longer(s: Stream, t: Stream, size: nat, k: nat) {
    && Covered(t) == Covered(s) + k && t.stride == s.stride && t.prev.count == s.prev.count
    && forall m: nat {:trigger Agree(s, t, size, m)} :: Agree(s, t, size, m)
  }

  lemma AheadAgain(s: Stream, t: Stream, size: nat, k: nat, i: nat)
    requires Longer(s, t, size, k)
    ensures Ahead(t, size, i) == Ahead(s, size, k + i)
  {
    assert Agree(s, t, size, Covered(s) + k + i);
  }

  lemma LongerStill(s: Stream, t: Stream, u: Stream, size: nat, j: nat, k: nat)
    requires Longer(s, t, size, j) && Longer(t, u, size, k)
    ensures Longer(s, u, size, j + k)
  {
    forall m: nat ensures Agree(s, u, size, m) { assert Agree(s, t, size, m) && Agree(t, u, size, m); }
  }

  /** A stream that goes on as its pattern says is reported with the same pattern, one request
      longer. */
  lemma PatternGoesOn(s: Stream, size: nat, h: seq<nat>)
    requires size > 0 && Describes(s, size, h) && s.curr.count > 0 && Ahead(s, size, 0) >= 0
    ensures Longer(s, Observe(s, size, Ahead(s, size, 0)), size, 1)
  {
    var n, k := s.prev.count, s.strideCount;
    var next := Ahead(s, size, 0);
    var t := Observe(s, size, next);
    if n == 0 {
      assert k * n == 0;
    } else if s.curr.count < n {
      DivIs(Covered(s), n, k, s.curr.count);
    } else {
      Times(k, n);
      DivIs(Covered(s), n, k + 1, 0);
      assert next == s.curr.start + s.stride;
      forall m: nat ensures Agree(s, t, size, m) { Shifted(m / n - k, s.stride); }
    }
  }

  /** The stream after it has gone on for k more requests. */
  function GoneOn(s: Stream, size: nat, k: nat): Stream
    requires size > 0
    decreases k
  {
    if k == 0 || Ahead(s, size, 0) < 0 then s
    else GoneOn(Observe(s, size, Ahead(s, size, 0)), size, k - 1)
  }

  /** Prediction and detection agree: if the stream makes the k requests its pattern foretells,
      the detector still reports that pattern, now covering k more. */
  lemma {:induction false} ForetoldIsDetected(s: Stream, size: nat, h: seq<nat>, k: nat)
    requires size > 0 && Describes(s, size, h) && s.curr.count > 0
    requires forall i: nat {:trigger Ahead(s, size, i)} :: i < k ==> Ahead(s, size, i) >= 0
    ensures Longer(s, GoneOn(s, size, k), size, k)
    decreases k
  {
    if k > 0 {
      var next: nat := Ahead(s, size, 0);
      PatternGoesOn(s, size, h);
      ObserveDescribes(s, size, h, next);
      var t := Observe(s, size, next);
      forall i: nat {:trigger Ahead(t, size, i)} | i < k - 1 ensures Ahead(t, size, i) >= 0 {
        AheadAgain(s, t, size, 1, i);
      }
      ForetoldIsDetected(t, size, h + [next], k - 1);
      LongerStill(s, t, GoneOn(t, size, k - 1), size, 1, k - 1);
    } else {
      forall m: nat ensures Agree(s, s, size, m) {}
    }
  }

  /** Forwards the list is exactly the next requests, in order. */
  lemma ForwardIsNext(s: Stream, size: nat, h: seq<nat>, i: nat)
    requires size > 0 && h != [] && Describes(s, size, h) && s.stride >= 0
    ensures Entry(Report(s, h[|h| - 1]), size, i) == Ahead(s, size, i)
  {
    CurrentRun(s, size, h, s.curr.count - 1);
    RequestIsPattern(s, size, h[|h| - 1], s.curr.count + i);
  }

  /** Where request n stands in a backward list. */
  function BackIndex(info: Info, n: nat): int
    requires info.seqTotal > 0
  {
    if n < info.seqTotal then info.seqTotal - 1 - n
    else Rest(info) + (n / info.seqTotal - 1) * info.seqTotal + (info.seqTotal - 1 - n % info.seqTotal)
  }

  /** The request a backward entry stands for. */
  function BackRequest(info: Info, i: nat): int
    requires info.seqTotal > 0
  {
    BackRun(info, i) * info.seqTotal + BackPlace(info, i)
  }

  /** A place in a list of runs. */
  lemma Whereabouts(info: Info, i: nat) returns (run: nat, down: nat)
    requires 0 < info.seqCount <= info.seqTotal
    ensures down < info.seqTotal
    ensures if run == 0 then i == down < Rest(info) else i == Rest(info) + (run - 1) * info.seqTotal + down
    ensures BackRun(info, i) == run && BackPlace(info, i) == info.seqTotal - 1 - down
  {
    if i < Rest(info) {
      run, down := 0, i;
    } else {
      run, down := 1 + (i - Rest(info)) / info.seqTotal, (i - Rest(info)) % info.seqTotal;
    }
  }

  /** Backwards every entry is one of the requests to come. */
  lemma BackwardIsToCome(info: Info, size: nat, i: nat)
    requires info.stride < 0 < info.seqCount <= info.seqTotal
    ensures BackRequest(info, i) >= info.seqCount
    ensures Entry(info, size, i) == Request(info, size, BackRequest(info, i))
    ensures BackIndex(info, BackRequest(info, i)) == i
  {
    var run, down := Whereabouts(info, i);
    NotNegative(run, info.seqTotal, 0, 0);
    if run > 0 { Times(run - 1, info.seqTotal); NotNegative(run - 1, info.seqTotal, 0, 0); }
    RequestAt(info, size, BackRequest(info, i), run, info.seqTotal - 1 - down);
    DivIs(BackRequest(info, i), info.seqTotal, run, info.seqTotal - 1 - down);
  }

  /** And a list of whole runs misses none of their requests. */
  lemma BackwardMissesNone(info: Info, size: nat, runs: nat, n: nat)
    requires info.stride < 0 < info.seqCount <= info.seqTotal
    requires info.seqCount <= n < (runs + 1) * info.seqTotal
    ensures 0 <= BackIndex(info, n) < Rest(info) + runs * info.seqTotal
    ensures Entry(info, size, BackIndex(info, n)) == Request(info, size, n)
  {
    var run, place := n / info.seqTotal, n % info.seqTotal;
    assert n == run * info.seqTotal + place;
    if run > 0 {
      assert n >= info.seqTotal by { Times(run - 1, info.seqTotal); NotNegative(run - 1, info.seqTotal, 0, 0); }
      assert run <= runs by { if run > runs { Steps(runs, run, info.seqTotal); Times(runs, info.seqTotal); } }
      NotNegative(run - 1, info.seqTotal, 0, 0);
      Times(run - 1, info.seqTotal);
      if run < runs { Steps(run, runs, info.seqTotal); }
    }
    BackAt(info, size, BackIndex(info, n), run, info.seqTotal - 1 - place);
  }

  // ----- no two entries compete for a slot -----

  /** dbn_to_cache_index */
  function SlotOf(dbn: int, size: nat): int
    requires size > 0
  {
    dbn / size % BLOCK_COUNT
  }

  predicate Aligned(info: Info, size: nat)
    requires size > 0
  {
    info.last % size == 0 && info.stride % size == 0
  }

  lemma Multiple(w: int, q: int, s: nat)
    requires s > 0 && w == q * s
    ensures w / s == q && w % s == 0
  {
    DivIs(w, s, q, 0);
  }

  lemma Between(z: int, n: nat, s: nat)
    requires s > 0
    ensures 0 < z * s < n * s ==> 0 < z < n
    ensures z * s == n * s ==> z == n
  {
    if z <= 0 { Mul(z, 0, s); }
    if z >= n { Mul(n, z, s); }
    if z * s == n * s { Cancel(z, n, s); }
  }

  lemma Residues(x: int, y: int)
    ensures 0 < x - y < BLOCK_COUNT ==> x % BLOCK_COUNT != y % BLOCK_COUNT
    ensures x - y == BLOCK_COUNT ==> x % BLOCK_COUNT == y % BLOCK_COUNT
  {
  }

  lemma Undivided(a: int, size: nat)
    requires size > 0 && a % size == 0
    ensures a == a / size * size
  {
  }

  /** Aligned sectors closer than the whole prefetch cache have different slots; as far apart as
      the whole cache, the same. */
  lemma CloseBlocks(a: int, b: int, size: nat)
    requires size > 0 && a % size == 0 && b % size == 0
    ensures 0 < a - b < BLOCK_COUNT * size ==> SlotOf(a, size) != SlotOf(b, size)
    ensures a - b == BLOCK_COUNT * size ==> SlotOf(a, size) == SlotOf(b, size)
  {
    var x, y := a / size, b / size;
    Undivided(a, size);
    Undivided(b, size);
    Combined(x, y, 0, 0, size);
    Between(x - y, BLOCK_COUNT, size);
    Residues(x, y);
  }

  lemma Cancel(x: int, y: int, s: nat)
    requires s > 0 && x * s == y * s
    ensures x == y
  {
    if x < y { Steps(x, y, s); } else if y < x { Steps(y, x, s); }
  }

  lemma Combined(a: int, b: int, c: int, d: int, s: nat)
    ensures a * s - b * s + c * (d * s) + b * s == (a + c * d) * s
    ensures (a - b) * s == a * s - b * s && (a + c * d + b) * s == a * s + c * (d * s) + b * s
  {
    assert c * (d * s) == (c * d) * s;
  }

  lemma PlaceIsAligned(info: Info, size: nat, run: int, place: int)
    requires size > 0 && Aligned(info, size)
    ensures (Start(info, size) + run * info.stride + place * size) % size == 0
  {
    var l, d := info.last / size, info.stride / size;
    Combined(l, info.seqCount - 1, run, d, size);
    Combined(l - (info.seqCount - 1), place, run, d, size);
    Multiple(Start(info, size) + run * info.stride + place * size, l - (info.seqCount - 1) + run * d + place, size);
  }

  /** Two places in runs that are d apart, in sectors. */
  lemma Apart(d: nat, runs: int, places: int, total: int, size: nat)
    requires 0 < total && total * size <= d && -total < places < total && size > 0
    ensures runs > 0 ==> runs * d + places * size > 0
    ensures runs * d + places * size < (runs + 1) * d
  {
    Times(runs, d);
    Steps(places, total, size);
    Steps(-total, places, size);
    if runs > 0 { Mul(1, runs, d); }
  }

  lemma Mul(a: int, b: int, s: nat)
    requires a <= b
    ensures a * s <= b * s
  {
    assert (b - a) * s >= 0;
  }

  /** Runs whose strides fit the prefetch cache. */
  function Fit(info: Info): nat
    requires info.stride != 0
  {
    BLOCK_COUNT / Abs(info.stride)
  }

  lemma StepsFit(info: Info)
    requires info.stride != 0
    ensures MaxStep(info) <= Fit(info) * info.seqTotal
    ensures Fit(info) * Abs(info.stride) <= BLOCK_COUNT
    ensures MaxStep(info) > 0 ==> Fit(info) >= 1
    ensures BLOCK_COUNT == Fit(info) * Abs(info.stride) + BLOCK_COUNT % Abs(info.stride)
  {
    NotNegative(Fit(info), info.seqTotal, 0, 0);
    if Fit(info) == 0 { assert Fit(info) * info.seqTotal == 0; }
  }

  /** Forward entries all lie within one prefetch cache of each other, at any block size. */
  lemma ForwardApart(info: Info, size: nat, i: nat, j: nat)
    requires size > 0 && 0 < info.seqCount <= info.seqTotal && info.seqTotal * size <= info.stride
    requires info.stride > 0 && i < j < Fit(info) * info.seqTotal
    ensures 0 < Entry(info, size, j) - Entry(info, size, i) < Fit(info) * info.stride
  {
    var t, q := info.seqTotal, Fit(info);
    var m, n := info.seqCount + i, info.seqCount + j;
    var a, b := n / t - m / t, n % t - m % t;
    assert n - m == a * t + b by { Combined(n / t, m / t, 0, 0, t); }
    FewRuns(a, b, t, q, n - m);
    Combined(n / t, m / t, 0, 0, size);
    assert Entry(info, size, j) - Entry(info, size, i) == a * info.stride + b * size by {
      Factored(n / t, m / t, info.stride, n % t, m % t, size);
    }
    if a == 0 {
      assert b > 0;
      Mul(1, b, size);
      Mul(b, t - 1, size);
      Times(t - 1, size);
      Mul(1, q, info.stride);
    } else {
      Apart(info.stride, a, b, t, size);
      if a < q { Mul(a + 1, q, info.stride); } else { Mul(b, -1, size); }
    }
  }

  lemma Factored(a: int, b: int, s: int, c: int, d: int, t: int)
    ensures a * s + c * t - (b * s + d * t) == (a - b) * s + (c - d) * t
  {
  }

  lemma FewRuns(a: int, b: int, t: nat, q: nat, gap: nat)
    requires t > 0 && gap == a * t + b && 0 < t + b && b < t && 0 < gap < q * t
    ensures 0 <= a <= q && (a == 0 ==> b > 0) && (a == q ==> b < 0)
  {
    if a < 0 { Mul(a, -1, t); }
    if a > q { Mul(q + 1, a, t); Times(q, t); }
  }

  lemma Downhill(info: Info, i: nat, j: nat, a: nat, d: nat, b: nat, e: nat)
    requires 0 < info.seqCount <= info.seqTotal && info.stride < 0 && i < j < Fit(info) * info.seqTotal
    requires d < info.seqTotal && e < info.seqTotal
    requires if a == 0 then i == d < Rest(info) else i == Rest(info) + (a - 1) * info.seqTotal + d
    requires if b == 0 then j == e < Rest(info) else j == Rest(info) + (b - 1) * info.seqTotal + e
    ensures a <= b <= Fit(info) && (a == b ==> d < e)
  {
    if b < a { if b == 0 { NotNegative(a - 1, info.seqTotal, 0, 0); } else { Steps(b - 1, a - 1, info.seqTotal); } }
    if b > Fit(info) { Mul(Fit(info), b - 1, info.seqTotal); }
  }

  lemma Drop(a: int, d: int, b: int, e: int, stride: int, total: int, size: nat)
    requires size > 0 && total * size <= -stride && 0 <= d < total && 0 <= e < total && a <= b && (a == b ==> d < e)
    ensures var gap := a * stride + (total - 1 - d) * size - (b * stride + (total - 1 - e) * size);
            gap == (b - a) * -stride + (e - d) * size && 0 < gap < (b - a + 1) * -stride
  {
    Factored(a, b, stride, total - 1 - d, total - 1 - e, size);
    Negated(a - b, stride);
    Apart(-stride, b - a, e - d, total, size);
    if a == b { Mul(1, e - d, size); }
  }

  lemma Negated(a: int, b: int)
    ensures a * b == -a * -b
  {
  }

  /** Backward entries descend, and no further than the runs that fit and one run's length. */
  lemma BackwardApart(info: Info, size: nat, i: nat, j: nat) returns (runs: int, places: int)
    requires size > 0 && 0 < info.seqCount <= info.seqTotal && info.seqTotal * size <= -info.stride
    requires info.stride < 0 && i < j < Fit(info) * info.seqTotal
    ensures runs == BackRun(info, j) - BackRun(info, i) && places == BackPlace(info, i) - BackPlace(info, j)
    ensures Entry(info, size, i) - Entry(info, size, j) == runs * -info.stride + places * size
    ensures 0 <= runs <= BackRun(info, j) <= Fit(info)
    ensures 0 < info.seqTotal + places && places < info.seqTotal
    ensures 0 < Entry(info, size, i) - Entry(info, size, j) < (runs + 1) * -info.stride
  {
    var a: int, d: int := Whereabouts(info, i);
    var b: int, e: int := Whereabouts(info, j);
    runs, places := b - a, e - d;
    Downhill(info, i, j, a, d, b, e);
    Drop(a, d, b, e, info.stride, info.seqTotal, size);
  }

  /** The exact condition under which a list of k entries evicts one of its own: one-sector
      blocks read backwards, when the list reaches the place one prefetch cache below the top of
      the run being read. */
  predicate EvictsItself(info: Info, size: nat, k: nat) {
    && size == 1 && info.stride < 0 && info.seqCount < info.seqTotal && k > 0
    && Rest(info) + (Fit(info) - 1) * info.seqTotal + BLOCK_COUNT % Abs(info.stride) < k
  }

  ghost predicate AllApart(info: Info, size: nat, k: nat)
    requires size > 0 && (info.stride < 0 ==> info.seqTotal > 0)
  {
    forall i, j :: 0 <= i < j < k ==> SlotOf(Entry(info, size, i), size) != SlotOf(Entry(info, size, j), size)
  }

  lemma EntryIsAligned(info: Info, size: nat, i: nat)
    requires size > 0 && Aligned(info, size) && 0 < info.seqCount && (info.stride != 0 ==> info.seqCount <= info.seqTotal)
    ensures Entry(info, size, i) % size == 0
  {
    if info.stride < 0 {
      PlaceIsAligned(info, size, BackRun(info, i), BackPlace(info, i));
    } else if info.seqTotal == 0 {
      PlaceIsAligned(info, size, 0, info.seqCount + i);
    } else {
      PlaceIsAligned(info, size, (info.seqCount + i) / info.seqTotal, (info.seqCount + i) % info.seqTotal);
    }
  }

  lemma PairApart(info: Info, size: nat, disk: nat, i: nat, j: nat)
    requires size > 0 && Legal(info, size, disk) && Aligned(info, size) && i < j < MaxStep(info)
    requires info.stride >= 0 || size >= 2
    ensures SlotOf(Entry(info, size, i), size) != SlotOf(Entry(info, size, j), size)
  {
    var x, y := Entry(info, size, i), Entry(info, size, j);
    EntryIsAligned(info, size, i);
    EntryIsAligned(info, size, j);
    Mul(1, size, BLOCK_COUNT);
    if info.seqTotal == 0 {
      Combined(info.seqCount + j, info.seqCount + i, 0, 0, size);
      Mul(1, j - i, size);
      Steps(j - i, BLOCK_COUNT, size);
      CloseBlocks(y, x, size);
    } else if info.stride > 0 {
      StepsFit(info);
      ForwardApart(info, size, i, j);
      CloseBlocks(y, x, size);
    } else {
      StepsFit(info);
      var runs, places := BackwardApart(info, size, i, j);
      Mul(runs + 1, Fit(info) + 1, -info.stride);
      Times(Fit(info), -info.stride);
      Mul(1, Fit(info), -info.stride);
      Mul(2, size, BLOCK_COUNT);
      CloseBlocks(x, y, size);
    }
  }

  lemma OneSector(dbn: int)
    ensures SlotOf(dbn, 1) == dbn % BLOCK_COUNT
  {
  }

  /** One-sector blocks: two backward entries clash only if they are one prefetch cache apart,
      and that reaches down to the last run that fits. */
  lemma OneSectorApart(info: Info, disk: nat, k: nat, i: nat, j: nat)
    requires Legal(info, 1, disk) && info.stride < 0 && i < j < k <= MaxStep(info) && !EvictsItself(info, 1, k)
    ensures SlotOf(Entry(info, 1, i), 1) != SlotOf(Entry(info, 1, j), 1)
  {
    var q, d, t := Fit(info), -info.stride, info.seqTotal;
    StepsFit(info);
    var runs, places := BackwardApart(info, 1, i, j);
    var gap := Entry(info, 1, i) - Entry(info, 1, j);
    Times(q, d);
    if runs < q { Mul(runs + 1, q, d); }
    if gap == BLOCK_COUNT {
      assert runs == q && places == BLOCK_COUNT % d;
      var a: int, u: int := Whereabouts(info, i);
      var b: int, w: int := Whereabouts(info, j);
      assert a == 0 && b == q && w >= places;
    }
    Mul(1, q, d);
    OneSector(Entry(info, 1, i));
    OneSector(Entry(info, 1, j));
    Apart2(Entry(info, 1, i), Entry(info, 1, j));
  }

  lemma Apart2(a: int, b: int)
    requires 0 < a - b < 2 * BLOCK_COUNT && a - b != BLOCK_COUNT
    ensures a % BLOCK_COUNT != b % BLOCK_COUNT
  {
  }

  lemma SelfEviction(info: Info, disk: nat, k: nat) returns (j: nat)
    requires Legal(info, 1, disk) && k <= MaxStep(info) && EvictsItself(info, 1, k)
    ensures 0 < j < k && SlotOf(Entry(info, 1, 0), 1) == SlotOf(Entry(info, 1, j), 1)
  {
    var x := BLOCK_COUNT % Abs(info.stride);
    StepsFit(info);
    j := ClashAt(info, x, MaxStep(info));
    ClashApart(info, j, x);
    Residues(Entry(info, 1, 0), Entry(info, 1, j));
    OneSector(Entry(info, 1, 0));
    OneSector(Entry(info, 1, j));
  }

  lemma ClashAt(info: Info, x: nat, steps: nat) returns (j: nat)
    requires 0 < info.seqCount < info.seqTotal && info.stride < 0 && Fit(info) >= 1
    requires Rest(info) + (Fit(info) - 1) * info.seqTotal + x < steps <= Fit(info) * info.seqTotal
    ensures j == Rest(info) + (Fit(info) - 1) * info.seqTotal + x && j > 0 && x < info.seqTotal
  {
    Times(Fit(info) - 1, info.seqTotal);
    NotNegative(Fit(info) - 1, info.seqTotal, 0, 0);
    j := Rest(info) + (Fit(info) - 1) * info.seqTotal + x;
  }

  lemma ClashApart(info: Info, j: nat, x: nat)
    requires 0 < info.seqCount < info.seqTotal && info.stride < 0 && Fit(info) >= 1 && x < info.seqTotal
    requires j == Rest(info) + (Fit(info) - 1) * info.seqTotal + x
    ensures Entry(info, 1, 0) - Entry(info, 1, j) == Fit(info) * Abs(info.stride) + x
  {
    BackAt(info, 1, 0, 0, 0);
    BackAt(info, 1, j, Fit(info), x);
    Negated(Fit(info), info.stride);
    Factored(0, Fit(info), info.stride, info.seqTotal - 1, info.seqTotal - 1 - x, 1);
  }

  /** No list evicts one of its own blocks, except when EvictsItself says so; block sizes of two
      sectors or more never do. */
  lemma NoSelfEviction(info: Info, size: nat, disk: nat, k: nat)
    requires size > 0 && Legal(info, size, disk) && Aligned(info, size) && k <= MaxStep(info)
    ensures AllApart(info, size, k) <==> !EvictsItself(info, size, k)
  {
    if EvictsItself(info, size, k) {
      var j := SelfEviction(info, disk, k);
    } else {
      forall i, j | 0 <= i < j < k ensures SlotOf(Entry(info, size, i), size) != SlotOf(Entry(info, size, j), size) {
        if size == 1 && info.stride < 0 { OneSectorApart(info, disk, k, i, j); } else { PairApart(info, size, disk, i, j); }
      }
    }
  }

  // ----- for every trace -----

  predicate AlignedTrace(size: nat, disk: nat, h: seq<nat>)
    requires size > 0
  {
    forall i :: 0 <= i < |h| ==> h[i] < disk && h[i] % size == 0
  }

  lemma AlignedDifference(a: int, b: int, size: nat)
    requires size > 0 && a % size == 0 && b % size == 0
    ensures (a - b) % size == 0
  {
    Combined(a / size, b / size, 0, 0, size);
    Multiple(a - b, a / size - b / size, size);
  }

  lemma StrideIsAligned(s: Stream, size: nat, disk: nat, h: seq<nat>)
    requires size > 0 && Describes(s, size, h) && AlignedTrace(size, disk, h)
    ensures s.stride % size == 0
  {
    if s.prev.count > 0 {
      var i := RunBefore(s, size, h);
      CurrentRun(s, size, h, 0);
      AlignedDifference(s.curr.start, h[i], size);
    }
  }

  /** The run before the current one was read, too. */
  lemma RunBefore(s: Stream, size: nat, h: seq<nat>) returns (i: nat)
    requires size > 0 && Describes(s, size, h) && s.prev.count > 0
    ensures i < |h| && h[i] == s.curr.start - s.stride
  {
    var m := (s.strideCount - 1) * s.prev.count;
    NotNegative(s.strideCount - 1, s.prev.count, 0, 0);
    Times(s.strideCount - 1, s.prev.count);
    assert InPattern(s, size, h, m);
    DivIs(m, s.prev.count, s.strideCount - 1, 0);
    i := |h| - Covered(s) + m;
  }

  /** Whatever blocks a process has read, the list made for it is sound: its entries are blocks
      of the disk, and with blocks of two sectors or more no two of them share a slot. */
  lemma PrefetchOfTrace(size: nat, disk: nat, h: seq<nat>, k: nat)
    requires size > 0 && h != [] && AlignedTrace(size, disk, h)
    requires k <= MaxStep(Report(Watched(size, h), h[|h| - 1]))
    ensures var info := Report(Watched(size, h), h[|h| - 1]);
            && Legal(info, size, disk) && Aligned(info, size)
            && (AllApart(info, size, k) <==> !EvictsItself(info, size, k))
            && (size >= 2 ==> AllApart(info, size, k))
  {
    var s := Watched(size, h);
    WatchedDescribes(size, h);
    DetectorIsLegal(s, size, h, disk);
    StrideIsAligned(s, size, disk, h);
    NoSelfEviction(Report(s, h[|h| - 1]), size, disk, k);
  }

  /** ... and as long as the requests covered call for: what has been followed is continued for as
      many requests again, until the disk ends or the prefetch cache is full. */
  lemma LengthOfTrace(size: nat, disk: nat, h: seq<nat>, k: nat)
    requires size > 0 && h != [] && forall i :: 0 <= i < |h| ==> h[i] < disk
    ensures var s := Watched(size, h);
      var info := Report(s, h[|h| - 1]);
      && Legal(info, size, disk)
      && (IsCount(info, size, disk, MaxStep(info), k) && (k > 0 ==> Entry(info, size, k - 1) < disk) ==>
            Lasts(info, size, disk, Covered(s), k) && (s.stride >= 0 ==> Request(info, size, info.seqCount + k) == Ahead(s, size, k)))
  {
    var s := Watched(size, h);
    var info := Report(s, h[|h| - 1]);
    WatchedDescribes(size, h);
    DetectorIsLegal(s, size, h, disk);
    if IsCount(info, size, disk, MaxStep(info), k) && (k > 0 ==> Entry(info, size, k - 1) < disk) { CountLasts(info, size, disk, k); }
    if s.stride >= 0 { ForwardIsNext(s, size, h, k); }
  }

  lemma OneMore(size: nat, h: seq<nat>, sector: nat)
    requires size > 0
    ensures Watched(size, h + [sector]) == Observe(Watched(size, h), size, sector)
  {
    assert (h + [sector])[..|h|] == h;
  }

  /** A run of n one-sector reads. */
  lemma {:induction false} OneRun(start: nat, n: nat)
    requires n > 0
    ensures Watched(1, seq(n, i requires 0 <= i => start + i)) == Stream(0, 0, Run(start, n), Run(0, 0))
  {
    var h := seq(n - 1, i requires 0 <= i => start + i);
    assert seq(n, i requires 0 <= i => start + i) == h + [start + n - 1];
    OneMore(1, h, start + n - 1);
    if n > 1 { OneRun(start, n - 1); } else { assert h == []; }
  }

  /** One-sector blocks do evict each other: four sectors read upwards, then a jump 16384
      sectors down, and the first and the last block to fetch share a slot. */
  lemma OneSectorEvicts(start: nat)
    requires start >= BLOCK_COUNT
    ensures var h := seq(4, i requires 0 <= i => start + i) + [start - BLOCK_COUNT];
            var info := Report(Watched(1, h), start - BLOCK_COUNT);
            EvictsItself(info, 1, 4) && MaxStep(info) == 4
            && SlotOf(Entry(info, 1, 0), 1) == SlotOf(Entry(info, 1, 3), 1)
  {
    var up := seq(4, i requires 0 <= i => start + i);
    OneRun(start, 4);
    OneMore(1, up, start - BLOCK_COUNT);
    var info := Report(Watched(1, up + [start - BLOCK_COUNT]), start - BLOCK_COUNT);
    assert info == Info(start - BLOCK_COUNT, 1, 4, -BLOCK_COUNT, 1);
    BackAt(info, 1, 0, 0, 0);
    BackAt(info, 1, 3, 1, 0);
    Residues(Entry(info, 1, 0), Entry(info, 1, 3));
  }
}
