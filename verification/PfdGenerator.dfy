/** What the prefetcher fetches ahead: the requests that would continue the stream's pattern. */
module PfdGenerator {
  import opened PfdDetector

  const THRESHOLD_STEP := 4
  const MAX_STEP := 256
  const BLOCK_COUNT := 16384

  /** The first request of the run being read. */
  function Start(info: Info, size: nat): int { info.last - (info.seqCount - 1) * size }

  /** Request n of the pattern, counted from the first of the run being read. */
  function Request(info: Info, size: nat, n: nat): int {
    if info.seqTotal == 0 then Start(info, size) + n * size
    else Start(info, size) + n / info.seqTotal * info.stride + n % info.seqTotal * size
  }

  /** How far ahead to fetch: as far as the pattern has been followed, within the caps. */
  function MaxStep(info: Info): nat {
    var seen := info.strideCount * info.seqTotal + info.seqCount;
    if seen < THRESHOLD_STEP then 0
    else
      var steps := if seen > MAX_STEP then MAX_STEP else seen;
      if info.stride == 0 then steps
      else
        var fit := BLOCK_COUNT / Abs(info.stride) * info.seqTotal;
        if steps > fit then fit else steps
  }

  /** Requests still missing from the run being read. */
  function Rest(info: Info): int { info.seqTotal - info.seqCount }

  /** Where entry i of a backward prefetch lies: first what is left of the run being read,
      then the runs below it, each from its top. */
  function BackRun(info: Info, i: nat): int
    requires info.seqTotal > 0
  {
    if i < Rest(info) then 0 else 1 + (i - Rest(info)) / info.seqTotal
  }

  function BackPlace(info: Info, i: nat): int
    requires info.seqTotal > 0
  {
    if i < Rest(info) then info.seqTotal - 1 - i else info.seqTotal - 1 - (i - Rest(info)) % info.seqTotal
  }

  function Back(info: Info, size: nat, i: nat): int
    requires info.seqTotal > 0
  {
    Start(info, size) + BackRun(info, i) * info.stride + BackPlace(info, i) * size
  }

  /** Entry i of the prefetch list. */
  function Entry(info: Info, size: nat, i: nat): int
    requires info.stride < 0 ==> info.seqTotal > 0
  {
    if info.stride < 0 then Back(info, size, i) else Request(info, size, info.seqCount + i)
  }

  function Least(a: nat, b: nat): nat { if a < b then a else b }

  /** What the detector guarantees of the counters it reports, on a disk of the given size. */
  predicate Legal(info: Info, size: nat, disk: nat) {
    && info.seqCount > 0 && info.last < disk && 0 <= Start(info, size)
    && (info.seqTotal == 0 ==> info.stride == 0 && info.strideCount == 0)
    && (info.seqTotal > 0 ==>
         && info.seqCount <= info.seqTotal && Abs(info.stride) >= info.seqTotal * size
         && 0 <= Start(info, size) - info.stride
         && Start(info, size) - info.stride + (info.seqTotal - 1) * size < disk)
  }

  predicate Right(info: Info, size: nat, disk: nat, i: nat, v: int)
    requires info.stride < 0 ==> info.seqTotal > 0
  {
    v == Entry(info, size, i) && 0 <= v < disk
  }

  /** k is how many entries are to be fetched. Forward, the list ends at the end of the disk;
      backward, a run that would reach below sector 0 is dropped whole. */
  predicate IsCount(info: Info, size: nat, disk: nat, steps: nat, k: nat)
    requires info.stride < 0 ==> info.seqTotal > 0
  {
    && k <= steps
    && (k < steps ==>
         if info.stride < 0 then
           && k >= Rest(info) && (k - Rest(info)) % info.seqTotal == 0
           && Entry(info, size, Least(k + info.seqTotal, steps) - 1) < 0
         else Entry(info, size, k) >= disk)
  }

  // ----- how long the list is -----

  /** The whole strides that fit the 16384 sectors of the prefetch cache. */
  predicate WholeStrides(d: int, m: nat) { m * Abs(d) <= 16384 < (m + 1) * Abs(d) }

  /** The next run below the k entries listed would have a block below sector 0 among the first `most`. */
  predicate RunsOut(info: Info, size: nat, most: nat, k: nat)
    requires info.seqTotal > 0
  {
    && k >= Rest(info) && (k - Rest(info)) % info.seqTotal == 0
    && Start(info, size) + ((k - Rest(info)) / info.seqTotal + 1) * info.stride + (k + info.seqTotal - Least(k + info.seqTotal, most)) * size < 0
  }

  /** Whether k entries are what n requests that follow the pattern call for. With less than four
      nothing is listed. A plain stream is continued for as many again, 256 at most, while the disk
      lasts; and so is a strided one while the disk and the whole strides that fit last. */
  ghost predicate Lasts(info: Info, size: nat, disk: nat, n: nat, k: nat)
    requires size > 0 && info.last < disk && (info.stride < 0 ==> info.seqTotal > 0)
  {
    if n < 4 then k == 0
    else if info.stride == 0 then k == Least(Least(n, 256), (disk - 1 - info.last) / size)
    else exists m: nat {:trigger WholeStrides(info.stride, m)} :: WholeStrides(info.stride, m) && Within(info, size, disk, Least(Least(n, 256), m * info.seqTotal), k)
  }

  predicate Within(info: Info, size: nat, disk: nat, most: nat, k: nat)
    requires info.stride < 0 ==> info.seqTotal > 0
  {
    k <= most && (k < most ==> if info.stride < 0 then RunsOut(info, size, most, k) else Request(info, size, info.seqCount + k) >= disk)
  }

  lemma StridesThatFit(d: int)
    requires d != 0
    ensures WholeStrides(d, BLOCK_COUNT / Abs(d))
  {
    assert BLOCK_COUNT == BLOCK_COUNT / Abs(d) * Abs(d) + BLOCK_COUNT % Abs(d);
    Times(BLOCK_COUNT / Abs(d), Abs(d));
  }

  lemma CountWithin(info: Info, size: nat, disk: nat, most: nat, k: nat)
    requires size > 0 && 0 < info.seqCount && info.stride != 0 && info.seqCount <= info.seqTotal && IsCount(info, size, disk, most, k)
    ensures Within(info, size, disk, most, k)
  {
    if k < most && info.stride < 0 {
      NextRunAt(info, size, k, (k - Rest(info)) / info.seqTotal, Least(k + info.seqTotal, most) - 1 - k);
    }
  }

  lemma NextRunAt(info: Info, size: nat, k: nat, q: nat, down: nat)
    requires info.stride < 0 < info.seqCount <= info.seqTotal && k - Rest(info) == q * info.seqTotal && down < info.seqTotal
    ensures Entry(info, size, k + down) == Start(info, size) + (q + 1) * info.stride + (info.seqTotal - 1 - down) * size
  {
    BackAt(info, size, k + down, q + 1, down);
  }

  lemma PlainCount(info: Info, size: nat, disk: nat, most: nat, k: nat)
    requires size > 0 && info.last < disk && info.seqCount > 0 && info.seqTotal == 0 && info.stride == 0 && IsCount(info, size, disk, most, k)
    requires k > 0 ==> Entry(info, size, k - 1) < disk
    ensures k == Least(most, (disk - 1 - info.last) / size)
  {
    var room := disk - 1 - info.last;
    Times(info.seqCount - 1, size);
    if k > 0 { assert Entry(info, size, k - 1) == info.last + k * size by { Combine(info.seqCount - 1, k, size); } }
    assert Entry(info, size, k) == info.last + (k + 1) * size by { Combine(info.seqCount - 1, k + 1, size); }
    assert room == room / size * size + room % size;
    if room / size < k { Steps(room / size, k, size); }
    if k < room / size { Steps(k, room / size, size); Times(k, size); }
  }

  lemma Combine(a: int, b: int, c: int)
    ensures (a + b) * c == a * c + b * c
  {
  }

  /** The generator stops at nothing else. */
  lemma CountLasts(info: Info, size: nat, disk: nat, k: nat)
    requires size > 0 && Legal(info, size, disk) && IsCount(info, size, disk, MaxStep(info), k)
    requires k > 0 ==> Entry(info, size, k - 1) < disk
    ensures Lasts(info, size, disk, info.strideCount * info.seqTotal + info.seqCount, k)
  {
    if info.strideCount * info.seqTotal + info.seqCount >= 4 {
      if info.stride == 0 {
        PlainCount(info, size, disk, MaxStep(info), k);
      } else {
        StridesThatFit(info.stride);
        NotNegative(BLOCK_COUNT / Abs(info.stride), info.seqTotal, 0, 0);
        CountWithin(info, size, disk, MaxStep(info), k);
      }
    }
  }

  lemma DetectorIsLegal(s: Stream, size: nat, h: seq<nat>, disk: nat)
    requires size > 0 && h != [] && Describes(s, size, h) && forall i :: 0 <= i < |h| ==> h[i] < disk
    ensures Legal(Report(s, h[|h| - 1]), size, disk)
  {
    CurrentRun(s, size, h, s.curr.count - 1);
    if s.prev.count > 0 {
      var m := (s.strideCount - 1) * s.prev.count + s.prev.count - 1;
      assert InPattern(s, size, h, m) by {
        assert s.strideCount * s.prev.count == (s.strideCount - 1) * s.prev.count + s.prev.count;
        assert (s.strideCount - 1) * s.prev.count >= 0;
      }
      DivIs(m, s.prev.count, s.strideCount - 1, s.prev.count - 1);
    }
  }

  /** The requests to come are the pattern continued. */
  lemma RequestIsPattern(s: Stream, size: nat, sector: nat, n: nat)
    requires sector == s.curr.start + (s.curr.count - 1) * size
    ensures Request(Report(s, sector), size, n) == Pattern(s, size, s.strideCount * s.prev.count + n)
  {
    if s.prev.count > 0 {
      DivIs(s.strideCount * s.prev.count + n, s.prev.count, s.strideCount + n / s.prev.count, n % s.prev.count) by {
        assert (s.strideCount + n / s.prev.count) * s.prev.count == s.strideCount * s.prev.count + n / s.prev.count * s.prev.count;
      }
    } else {
      assert s.strideCount * s.prev.count == 0;
    }
  }

  // ----- the generator -----

  /** No stride: straight on. */
  method Onwards(info: Info, size: nat, disk: nat, steps: nat, arr: array<int>) returns (k: nat)
    requires size > 0 && Legal(info, size, disk) && info.seqTotal == 0 && steps <= arr.Length
    modifies arr
    ensures IsCount(info, size, disk, steps, k)
    ensures forall i: nat {:trigger Right(info, size, disk, i, arr[i])} :: i < k ==> Right(info, size, disk, i, arr[i])
    ensures forall i :: k <= i < arr.Length ==> arr[i] == old(arr[i])
  {
    var dbn: int := info.last;
    k := 0;
    while k < steps
      invariant k <= steps && dbn == Start(info, size) + (info.seqCount + k - 1) * size
      invariant forall i: nat {:trigger Right(info, size, disk, i, arr[i])} :: i < k ==> Right(info, size, disk, i, arr[i])
      invariant forall i :: k <= i < arr.Length ==> arr[i] == old(arr[i])
    {
      Times(info.seqCount + k - 1, size);
      dbn := dbn + size;
      assert dbn == Entry(info, size, k);
      if dbn >= disk { return; }
      assert dbn >= 0 by { assert (info.seqCount + k) * size >= 0; }
      arr[k] := dbn;
      k := k + 1;
    }
  }

  lemma Times(a: int, b: int)
    ensures (a + 1) * b == a * b + b
  {
  }

  lemma RequestAt(info: Info, size: nat, n: nat, run: nat, place: nat)
    requires place < info.seqTotal && n == run * info.seqTotal + place
    ensures Request(info, size, n) == Start(info, size) + run * info.stride + place * size
  {
    DivIs(n, info.seqTotal, run, place);
  }

  /** Stride forwards: the rest of the run, then the next runs. */
  method Upwards(info: Info, size: nat, disk: nat, steps: nat, arr: array<int>) returns (k: nat)
    requires size > 0 && 0 < info.seqCount <= info.seqTotal && 0 <= Start(info, size) && info.stride > 0 && steps <= arr.Length
    modifies arr
    ensures IsCount(info, size, disk, steps, k)
    ensures forall i: nat {:trigger Right(info, size, disk, i, arr[i])} :: i < k ==> Right(info, size, disk, i, arr[i])
    ensures forall i :: k <= i < arr.Length ==> arr[i] == old(arr[i])
  {
    var i: nat, j: nat := 0, info.seqCount;
    var dbn: int := info.last;
    ghost var run: nat := 0;
    while true
      invariant i <= steps && j <= info.seqTotal && info.seqCount + i == run * info.seqTotal + j
      invariant dbn == Start(info, size) + run * info.stride + (j - 1) * size
      invariant forall m: nat {:trigger Right(info, size, disk, m, arr[m])} :: m < i ==> Right(info, size, disk, m, arr[m])
      invariant forall m :: i <= m < arr.Length ==> arr[m] == old(arr[m])
      decreases steps - i, j
    {
      while j < info.seqTotal
        invariant i <= steps && j <= info.seqTotal && info.seqCount + i == run * info.seqTotal + j
        invariant dbn == Start(info, size) + run * info.stride + (j - 1) * size
        invariant forall m: nat {:trigger Right(info, size, disk, m, arr[m])} :: m < i ==> Right(info, size, disk, m, arr[m])
        invariant forall m :: i <= m < arr.Length ==> arr[m] == old(arr[m])
      {
        if i >= steps { return i; }
        Times(j - 1, size);
        RequestAt(info, size, info.seqCount + i, run, j);
        dbn := dbn + size;
        if dbn >= disk { return i; }
        NotNegative(run, info.stride, j, size);
        arr[i] := dbn;
        j := j + 1;
        i := i + 1;
      }
      Times(run, info.seqTotal);
      Times(run, info.stride);
      Times(info.seqTotal - 1, size);
      j := 0;
      dbn := dbn + info.stride - info.seqTotal * size;
      run := run + 1;
    }
  }

  lemma NotNegative(a: nat, b: nat, c: nat, d: nat)
    ensures a * b >= 0 && c * d >= 0
  {
  }

  lemma BackWhere(info: Info, i: nat, run: nat, down: nat)
    requires 0 < info.seqCount <= info.seqTotal && down < info.seqTotal
    requires if run == 0 then i == down < Rest(info) else i == Rest(info) + (run - 1) * info.seqTotal + down
    ensures BackRun(info, i) == run && BackPlace(info, i) == info.seqTotal - 1 - down
  {
    if run > 0 {
      NotNegative(run - 1, info.seqTotal, 0, 0);
      DivIs(i - Rest(info), info.seqTotal, run - 1, down);
    }
  }

  /** Entry i lies in the given run, at the given place from its top. */
  lemma BackAt(info: Info, size: nat, i: nat, run: nat, down: nat)
    requires info.stride < 0 < info.seqCount <= info.seqTotal && down < info.seqTotal
    requires if run == 0 then i == down < Rest(info) else i == Rest(info) + (run - 1) * info.seqTotal + down
    ensures Entry(info, size, i) == Start(info, size) + run * info.stride + (info.seqTotal - 1 - down) * size
  {
    BackWhere(info, i, run, down);
  }

  lemma LowerInRun(info: Info, size: nat, i: nat, run: nat, down: nat, more: nat)
    requires info.stride < 0 < info.seqCount <= info.seqTotal && down + more < info.seqTotal
    requires run > 0 && i == Rest(info) + (run - 1) * info.seqTotal + down
    ensures Entry(info, size, i + more) == Entry(info, size, i) - more * size <= Entry(info, size, i)
  {
    BackAt(info, size, i, run, down);
    BackAt(info, size, i + more, run, down + more);
    Spread(info.seqTotal - 1 - down, more, size);
  }

  lemma Spread(a: int, b: nat, c: nat)
    ensures (a - b) * c == a * c - b * c <= a * c
  {
  }

  /** Once an entry of a run is below sector 0, so are those further down. */
  lemma RunIsDropped(info: Info, size: nat, disk: nat, steps: nat, i: nat, run: nat, down: nat)
    requires info.stride < 0 < info.seqCount <= info.seqTotal && down < info.seqTotal && i < steps
    requires run > 0 && i == Rest(info) + (run - 1) * info.seqTotal + down && Entry(info, size, i) < 0
    ensures i >= down && IsCount(info, size, disk, steps, i - down)
  {
    NotNegative(run - 1, info.seqTotal, 0, 0);
    var k: nat := i - down;
    var e := Least(k + info.seqTotal, steps) - 1;
    LowerInRun(info, size, i, run, down, e - i);
    DivIs(k - Rest(info), info.seqTotal, run - 1, 0);
  }

  /** A higher run bounds the lower ones. */
  lemma BelowDisk(run: nat, stride: int, place: int, total: nat, size: nat, start: int, disk: nat)
    requires stride < 0 && 0 <= place < total && start - stride + (total - 1) * size < disk
    ensures start + run * stride + place * size < disk
  {
    assert run * stride <= 0;
    assert (total - 1 - place) * size >= 0;
  }

  /** One block above the top of a run, and the index of the first entry of the run. */
  function RunTop(info: Info, size: nat, run: nat): int { Start(info, size) + run * info.stride + info.seqTotal * size }
  function RunBase(info: Info, run: nat): int { if run == 0 then 0 else Rest(info) + (run - 1) * info.seqTotal }

  /** Requests of the current run that were made already. */
  function Made(info: Info, run: nat): nat { if run == 0 then info.seqCount else 0 }

  predicate Below(info: Info, size: nat, disk: nat, i: nat, first: nat, top: int)
    requires info.stride < 0 < info.seqTotal
  {
    Entry(info, size, i) == top - (i - first + 1) * size < disk
  }

  /** The entries of a run descend block by block from its top. */
  lemma RunDescends(info: Info, size: nat, disk: nat, run: nat, i: nat)
    requires size > 0 && info.stride < 0 < info.seqCount <= info.seqTotal
    requires Start(info, size) - info.stride + (info.seqTotal - 1) * size < disk
    requires 0 <= RunBase(info, run) <= i < RunBase(info, run) + (info.seqTotal - Made(info, run))
    ensures Below(info, size, disk, i, RunBase(info, run), RunTop(info, size, run))
  {
    var down: nat := i - RunBase(info, run);
    BackAt(info, size, i, run, down);
    BelowDisk(run, info.stride, info.seqTotal - 1 - down, info.seqTotal, size, Start(info, size), disk);
    Spread(info.seqTotal, down + 1, size);
  }

  lemma NextRun(info: Info, size: nat, run: nat)
    requires 0 < info.seqCount <= info.seqTotal
    ensures RunTop(info, size, run + 1) == RunTop(info, size, run) + info.stride
    ensures 0 <= RunBase(info, run) && RunBase(info, run + 1) == RunBase(info, run) + (info.seqTotal - Made(info, run))
  {
    Times(run, info.stride);
    if run > 0 {
      Times(run - 1, info.seqTotal);
      NotNegative(run - 1, info.seqTotal, 0, 0);
    }
  }

  /** The inner loop: the rest of one run, from the top. It stops the list when enough is listed
      or below sector 0. */
  method ListRun(info: Info, size: nat, disk: nat, steps: nat, arr: array<int>, first: nat, from: nat, top: int)
    returns (i: nat, j: nat, dbn: int, stop: bool)
    requires size > 0 && info.stride < 0 < info.seqTotal && first <= steps <= arr.Length && from <= info.seqTotal
    requires forall m: nat {:trigger Below(info, size, disk, m, first, top)} :: first <= m < first + (info.seqTotal - from) ==> Below(info, size, disk, m, first, top)
    requires forall m: nat {:trigger Right(info, size, disk, m, arr[m])} :: m < first ==> Right(info, size, disk, m, arr[m])
    modifies arr
    ensures first <= i <= steps && forall m: nat {:trigger Right(info, size, disk, m, arr[m])} :: m < i ==> Right(info, size, disk, m, arr[m])
    ensures forall m :: steps <= m < arr.Length ==> arr[m] == old(arr[m])
    ensures j - from == i - first
    ensures !stop ==> i == first + (info.seqTotal - from) && dbn == top - (info.seqTotal - from) * size
    ensures stop && i < steps ==> i < first + (info.seqTotal - from) && Entry(info, size, i) < 0
  {
    i, j, dbn, stop := first, from, top, false;
    while j < info.seqTotal
      invariant from <= j <= info.seqTotal && i == first + (j - from) <= steps && dbn == top - (i - first) * size
      invariant forall m: nat {:trigger Right(info, size, disk, m, arr[m])} :: m < i ==> Right(info, size, disk, m, arr[m])
      invariant forall m :: steps <= m < arr.Length ==> arr[m] == old(arr[m])
    {
      if i >= steps { return i, j, dbn, true; }
      Times(i - first, size);
      assert Below(info, size, disk, i, first, top);
      dbn := dbn - size;
      if dbn < 0 { return i, j, dbn, true; }
      arr[i] := dbn;
      j := j + 1;
      i := i + 1;
    }
  }

  /** Stride backwards: the rest of the run, then the runs below, each from its top. */
  method Downwards(info: Info, size: nat, disk: nat, steps: nat, arr: array<int>) returns (k: nat)
    requires size > 0 && 0 < info.seqCount <= info.seqTotal && 0 <= Start(info, size) && info.stride < 0 && steps <= arr.Length
    requires Start(info, size) - info.stride + (info.seqTotal - 1) * size < disk
    modifies arr
    ensures IsCount(info, size, disk, steps, k)
    ensures forall i: nat {:trigger Right(info, size, disk, i, arr[i])} :: i < k ==> Right(info, size, disk, i, arr[i])
    ensures forall i :: steps <= i < arr.Length ==> arr[i] == old(arr[i])
  {
    var i: nat, j: nat := 0, 0;
    var dbn: int := info.last;
    ghost var run: nat := 0;
    if info.seqTotal == info.seqCount {
      dbn := dbn + info.stride + size;
      run := 1;
    } else {
      dbn := dbn + (info.seqTotal - info.seqCount + 1) * size;
      j := info.seqCount;
    }
    FirstRun(info, size, run);
    while true
      invariant i <= steps && i == RunBase(info, run) && j == Made(info, run) && dbn == RunTop(info, size, run)
      invariant run == 0 ==> j < info.seqTotal
      invariant forall m: nat {:trigger Right(info, size, disk, m, arr[m])} :: m < i ==> Right(info, size, disk, m, arr[m])
      invariant forall m :: steps <= m < arr.Length ==> arr[m] == old(arr[m])
      decreases steps - i
    {
      forall m: nat | i <= m < i + (info.seqTotal - j) ensures Below(info, size, disk, m, i, dbn) { RunDescends(info, size, disk, run, m); }
      ghost var first := i;
      var skip, stop := j, false;
      i, j, dbn, stop := ListRun(info, size, disk, steps, arr, i, j, dbn);
      if stop {
        if i == steps { return i; }
        StopsInRun(info, size, disk, steps, i, run, i - first);
        var whole: int := i - j;
        if whole < 0 { whole := 0; }
        return whole;
      }
      NextRun(info, size, run);
      Spread(info.seqTotal, skip, size);
      dbn := dbn + info.stride;
      dbn := dbn + info.seqTotal * size;
      dbn := dbn - skip * size;
      j := 0;
      run := run + 1;
    }
  }

  lemma FirstRun(info: Info, size: nat, run: nat)
    requires 0 < info.seqCount <= info.seqTotal && run == if info.seqTotal == info.seqCount then 1 else 0
    ensures RunBase(info, run) == 0
    ensures RunTop(info, size, run) == info.last + if run == 1 then info.stride + size else (info.seqTotal - info.seqCount + 1) * size
  {
    Times(info.seqCount - 1, size);
    Times(info.seqTotal - info.seqCount, size);
    Spread(info.seqTotal, info.seqCount, size);
  }

  /** The run in which sector 0 is passed is dropped whole; it is never the current one. */
  lemma StopsInRun(info: Info, size: nat, disk: nat, steps: nat, i: nat, run: nat, down: nat)
    requires 0 <= Start(info, size) && info.stride < 0 < info.seqCount <= info.seqTotal && i < steps && Entry(info, size, i) < 0
    requires i == RunBase(info, run) + down && down < info.seqTotal - Made(info, run)
    ensures i >= down && IsCount(info, size, disk, steps, i - down) && Made(info, run) == 0
  {
    BackAt(info, size, i, run, down);
    NotNegative(info.seqTotal - 1 - down, size, 0, 0);
    assert run > 0;
    RunIsDropped(info, size, disk, steps, i, run, down);
  }

  /** The list itself, of up to so many entries. */
  method List(info: Info, size: nat, disk: nat, steps: nat, arr: array<int>) returns (r: int)
    requires size > 0 && Legal(info, size, disk) && steps <= arr.Length
    modifies arr
    ensures if info.stride < 0 then r <= 0 else r >= 0
    ensures IsCount(info, size, disk, steps, Abs(r))
    ensures forall i: nat {:trigger Right(info, size, disk, i, arr[i])} :: i < Abs(r) ==> Right(info, size, disk, i, arr[i])
    ensures forall i :: steps <= i < arr.Length ==> arr[i] == old(arr[i])
  {
    if info.seqTotal == 0 {
      r := Onwards(info, size, disk, steps, arr);
    } else if info.stride > 0 {
      r := Upwards(info, size, disk, steps, arr);
    } else if info.stride < 0 {
      r := Downwards(info, size, disk, steps, arr);
      r := -r;
    } else {
      r := 0;
    }
  }

  /** The list to fetch. The sign of the result tells the direction, its size the number of
      entries; every entry is a sector of the disk and continues the pattern, and the list is as
      long as the pattern calls for. */
  method GetPrefetchDbns(info: Info, size: nat, disk: nat, arr: array<int>) returns (r: int)
    requires size > 0 && Legal(info, size, disk) && arr.Length >= MAX_STEP
    modifies arr
    ensures if info.stride < 0 then r <= 0 else r >= 0
    ensures IsCount(info, size, disk, MaxStep(info), Abs(r))
    ensures Lasts(info, size, disk, info.strideCount * info.seqTotal + info.seqCount, Abs(r))
    ensures forall i: nat {:trigger Right(info, size, disk, i, arr[i])} :: i < Abs(r) ==> Right(info, size, disk, i, arr[i])
    ensures forall i :: MAX_STEP <= i < arr.Length ==> arr[i] == old(arr[i])
  {
    var steps: int := info.strideCount * info.seqTotal + info.seqCount;
    NotNegative(info.strideCount, info.seqTotal, 0, 0);
    if steps < THRESHOLD_STEP { return 0; }
    if steps > MAX_STEP { steps := MAX_STEP; }
    if info.stride != 0 {
      var distance := info.stride;
      if distance < 0 { distance := -distance; }
      var runs := BLOCK_COUNT / distance;
      distance := runs * info.seqTotal;
      if steps > distance { steps := distance; }
    }
    assert steps == MaxStep(info);
    r := List(info, size, disk, steps, arr);
    if r != 0 { assert Right(info, size, disk, Abs(r) - 1, arr[Abs(r) - 1]); }
    CountLasts(info, size, disk, Abs(r));
  }
}
