/** The prefetcher's view of one stream of reads: the run being read, the run before it, and
    the stride between runs that has repeated. */
module PfdDetector {
  import opened Types

  /** pfd_seq_stat */
  datatype Run = Run(start: nat, count: nat)

  /** pfd_stat without its key. */
  datatype Stream = Stream(stride: int, strideCount: nat, curr: Run, prev: Run)

  /** pfd_stat_info */
  datatype Info = Info(last: nat, seqCount: nat, seqTotal: nat, stride: int, strideCount: nat)

  const FRESH := Stream(0, 0, Run(0, 0), Run(0, 0))

  /** is_bio_fit_seq_stat */
  predicate Fits(r: Run, size: nat, sector: nat) { r.start + r.count * size == sector }

  function Abs(x: int): nat { if x < 0 then -x else x }

  /** What one request makes of its stream. */
  function Observe(s: Stream, size: nat, sector: nat): Stream
    requires size > 0
  {
    if s.curr.count == 0 then
      s.(curr := Run(sector, 1))
    else if Fits(s.curr, size, sector) then
      var t := s.(curr := Run(s.curr.start, s.curr.count + 1));
      if t.prev.count == 0 || t.curr.count <= t.prev.count then t
      else Stream(0, 0, t.curr, Run(t.prev.start, 0))
    else if s.prev.count == 0 then
      if Abs(sector - s.curr.start) / size < s.curr.count then
        Stream(0, 0, Run(sector, 1), s.prev)
      else
        Stream(sector - s.curr.start, 1, Run(sector, 1), s.curr)
    else if s.prev.count == s.curr.count && sector - s.curr.start == s.stride then
      Stream(s.stride, s.strideCount + 1, Run(sector, 1), s.curr)
    else
      Stream(0, 0, Run(sector, 1), Run(s.curr.start, 0))
  }

  /** pfd_stat_update on one stream, in place: the two runs change roles when a jump is seen. */
  method Follow(s: Stream, size: nat, sector: nat) returns (t: Stream)
    requires size > 0
    ensures t == Observe(s, size, sector)
  {
    var stride, strideCount, curr, prev := s.stride, s.strideCount, s.curr, s.prev;
    if curr.count == 0 {
      curr := Run(sector, curr.count + 1);
    } else if Fits(curr, size, sector) {
      curr := curr.(count := curr.count + 1);
      if !(prev.count == 0 || curr.count <= prev.count) {
        prev := prev.(count := 0);
        stride, strideCount := 0, 0;
      }
    } else {
      var jump := sector - curr.start;
      if jump < 0 { jump := -jump; }
      if prev.count == 0 {
        if jump / size < curr.count {
          curr := Run(sector, 1);
          stride, strideCount := 0, 0;
        } else {
          curr, prev := prev, curr;
          curr := Run(sector, 1);
          stride := sector - prev.start;
          strideCount := 1;
        }
      } else if prev.count == curr.count && sector - curr.start == stride {
        curr, prev := prev, curr;
        curr := Run(sector, 1);
        strideCount := strideCount + 1;
      } else {
        curr, prev := prev, curr;
        prev := prev.(count := 0);
        curr := Run(sector, 1);
        stride, strideCount := 0, 0;
      }
    }
    t := Stream(stride, strideCount, curr, prev);
  }

  function Report(s: Stream, sector: nat): Info {
    Info(sector, s.curr.count, s.prev.count, s.stride, s.strideCount)
  }

  /** Requests the pattern covers: the repeated runs and the current one. */
  function Covered(s: Stream): nat { s.strideCount * s.prev.count + s.curr.count }

  /** Request m of the pattern, counted from the first of the runs it covers. */
  function Pattern(s: Stream, size: nat, m: nat): int {
    if s.prev.count == 0 then s.curr.start + m * size
    else s.curr.start + (m / s.prev.count - s.strideCount) * s.stride + m % s.prev.count * size
  }

  predicate InPattern(s: Stream, size: nat, h: seq<nat>, m: nat)
    requires Covered(s) <= |h| && m < Covered(s)
  {
    h[|h| - Covered(s) + m] == Pattern(s, size, m)
  }

  /** The counters describe the requests seen so far: the last Covered(s) of them follow
      exactly the run length and stride reported. */
  ghost predicate Describes(s: Stream, size: nat, h: seq<nat>) {
    && (s.curr.count == 0 <==> h == []) && Covered(s) <= |h|
    && (s.prev.count == 0 ==> s.stride == 0 && s.strideCount == 0)
    && (s.prev.count > 0 ==>
         && 0 < s.curr.count <= s.prev.count && s.strideCount > 0 && Abs(s.stride) >= s.prev.count * size
         && s.stride != s.prev.count * size
         && s.curr.start == s.prev.start + s.stride)
    && forall m: nat {:trigger InPattern(s, size, h, m)} :: m < Covered(s) ==> InPattern(s, size, h, m)
  }

  // ----- every request keeps it so -----

  lemma DivIs(w: int, s: nat, q: int, r: nat)
    requires w == q * s + r && r < s
    ensures w / s == q && w % s == r
  {
    var q', r' := w / s, w % s;
    assert w == q' * s + r';
    if q < q' { Steps(q, q', s); } else if q' < q { Steps(q', q, s); }
  }

  lemma Steps(a: int, b: int, s: nat)
    requires a < b
    ensures a * s + s <= b * s
  {
    assert (b - a - 1) * s >= 0;
  }

  /** A request that starts afresh: only itself is covered. */
  lemma RestartDescribes(size: nat, h: seq<nat>, sector: nat, prev: Run)
    requires prev.count == 0 && size > 0
    ensures Describes(Stream(0, 0, Run(sector, 1), prev), size, h + [sector])
  {
    var t, g := Stream(0, 0, Run(sector, 1), prev), h + [sector];
    assert InPattern(t, size, g, 0);
  }

  /** A request that continues the run. */
  lemma ContinueDescribes(s: Stream, size: nat, h: seq<nat>, sector: nat)
    requires size > 0 && Describes(s, size, h) && s.curr.count > 0 && Fits(s.curr, size, sector)
    requires s.prev.count == 0 || s.curr.count < s.prev.count
    ensures Describes(s.(curr := Run(s.curr.start, s.curr.count + 1)), size, h + [sector])
  {
    var t, g := s.(curr := Run(s.curr.start, s.curr.count + 1)), h + [sector];
    forall m: nat | m < Covered(t) ensures InPattern(t, size, g, m) {
      if m < Covered(s) {
        assert InPattern(s, size, h, m);
      } else if s.prev.count > 0 {
        DivIs(m, s.prev.count, s.strideCount, s.curr.count);
      }
    }
  }

  /** A run that outgrows the one before it: the stride is forgotten, the run is not. */
  lemma OutgrowDescribes(s: Stream, size: nat, h: seq<nat>, sector: nat)
    requires size > 0 && Describes(s, size, h) && s.curr.count > 0 && Fits(s.curr, size, sector) && s.curr.count == s.prev.count
    ensures Describes(Stream(0, 0, Run(s.curr.start, s.curr.count + 1), Run(s.prev.start, 0)), size, h + [sector])
  {
    var t, g := Stream(0, 0, Run(s.curr.start, s.curr.count + 1), Run(s.prev.start, 0)), h + [sector];
    forall m: nat | m < Covered(t) ensures InPattern(t, size, g, m) {
      if m < s.curr.count { CurrentRun(s, size, h, m); }
    }
  }

  /** The last requests are the current run. */
  lemma CurrentRun(s: Stream, size: nat, h: seq<nat>, i: nat)
    requires Describes(s, size, h) && i < s.curr.count
    ensures s.curr.count <= |h| && h[|h| - s.curr.count + i] == s.curr.start + i * size
  {
    var m := s.strideCount * s.prev.count + i;
    assert InPattern(s, size, h, m);
    if s.prev.count > 0 { DivIs(m, s.prev.count, s.strideCount, i); }
  }

  /** A first jump of at least the run's length: two runs make a stride. */
  lemma JumpDescribes(s: Stream, size: nat, h: seq<nat>, sector: nat)
    requires size > 0 && Describes(s, size, h) && s.curr.count > 0 && s.prev.count == 0
    requires Abs(sector - s.curr.start) >= s.curr.count * size && !Fits(s.curr, size, sector)
    ensures Describes(Stream(sector - s.curr.start, 1, Run(sector, 1), s.curr), size, h + [sector])
  {
    var t, g := Stream(sector - s.curr.start, 1, Run(sector, 1), s.curr), h + [sector];
    forall m: nat | m < Covered(t) ensures InPattern(t, size, g, m) {
      if m < s.curr.count {
        assert InPattern(s, size, h, m);
        DivIs(m, s.curr.count, 0, m);
      } else {
        DivIs(m, s.curr.count, 1, 0);
      }
    }
  }

  /** The same jump again after a run of the same length. */
  lemma RepeatDescribes(s: Stream, size: nat, h: seq<nat>, sector: nat)
    requires size > 0 && Describes(s, size, h) && s.prev.count > 0 && s.prev.count == s.curr.count && sector - s.curr.start == s.stride
    ensures Describes(Stream(s.stride, s.strideCount + 1, Run(sector, 1), s.curr), size, h + [sector])
  {
    var t, g := Stream(s.stride, s.strideCount + 1, Run(sector, 1), s.curr), h + [sector];
    var n := s.prev.count;
    assert (s.strideCount + 1) * n == s.strideCount * n + n;
    forall m: nat | m < Covered(t) ensures InPattern(t, size, g, m) {
      if m < Covered(s) {
        assert InPattern(s, size, h, m);
        Shifted(m / n - s.strideCount, s.stride);
      } else {
        DivIs(m, n, s.strideCount + 1, 0);
      }
    }
  }

  lemma Shifted(a: int, stride: int)
    ensures (a - 1) * stride == a * stride - stride
  {
  }

  lemma FarEnough(d: nat, size: nat, count: nat)
    requires size > 0 && d / size >= count
    ensures d >= count * size
  {
    assert d == d / size * size + d % size;
    assert (d / size - count) * size >= 0;
  }

  /** Detector soundness, one request: the counters go on describing the stream. */
  lemma ObserveDescribes(s: Stream, size: nat, h: seq<nat>, sector: nat)
    requires size > 0 && Describes(s, size, h)
    ensures Describes(Observe(s, size, sector), size, h + [sector])
  {
    if s.curr.count == 0 {
      RestartDescribes(size, h, sector, s.prev);
    } else if Fits(s.curr, size, sector) {
      if s.prev.count == 0 || s.curr.count < s.prev.count {
        ContinueDescribes(s, size, h, sector);
      } else {
        OutgrowDescribes(s, size, h, sector);
      }
    } else if s.prev.count == 0 {
      if Abs(sector - s.curr.start) / size < s.curr.count {
        RestartDescribes(size, h, sector, s.prev);
      } else {
        FarEnough(Abs(sector - s.curr.start), size, s.curr.count);
        JumpDescribes(s, size, h, sector);
      }
    } else if s.prev.count == s.curr.count && sector - s.curr.start == s.stride {
      RepeatDescribes(s, size, h, sector);
    } else {
      RestartDescribes(size, h, sector, Run(s.curr.start, 0));
    }
  }

  /** The stream after a whole trace. */
  function Watched(size: nat, h: seq<nat>): Stream
    requires size > 0
  {
    if h == [] then FRESH else Observe(Watched(size, h[..|h| - 1]), size, h[|h| - 1])
  }

  /** Detector soundness: over any trace of requests the reported counters are those of a
      pattern its last requests follow exactly. */
  lemma {:induction false} WatchedDescribes(size: nat, h: seq<nat>)
    requires size > 0
    ensures Describes(Watched(size, h), size, h)
  {
    if h != [] {
      var n := |h| - 1;
      WatchedDescribes(size, h[..n]);
      ObserveDescribes(Watched(size, h[..n]), size, h[..n], h[n]);
      assert h[..n] + [h[n]] == h;
    }
  }

  // ----- whatever is regular is seen -----

  /** r whole runs of n blocks, d sectors apart, and c requests of one more. */
  ghost predicate Strided(h: seq<nat>, size: nat, start: nat, n: nat, d: int, r: nat, c: nat) {
    |h| == r * n + c && n > 0 && forall k: nat {:trigger h[k]} :: k < |h| ==> h[k] == start + k / n * d + k % n * size
  }

  /** The stream counts r runs of n blocks at stride d, and c requests of the next. */
  predicate Counts(s: Stream, at: int, n: nat, d: int, r: nat, c: nat) {
    s.curr.start == at && s.curr.count == c && s.strideCount == r && s.stride == (if r == 0 then 0 else d) && s.prev.count == if r == 0 then 0 else n
  }

  lemma NextCounted(s: Stream, size: nat, at: int, n: nat, d: int, r: nat, c: nat, sector: nat)
    requires size > 0 && Counts(s, at, n, d, r, c) && 0 < c < n && sector == at + c * size
    ensures Counts(Observe(s, size, sector), at, n, d, r, c + 1)
  {
  }

  lemma JumpCounted(s: Stream, size: nat, at: int, n: nat, d: int, r: nat, sector: nat)
    requires size > 0 && n > 0 && Counts(s, at, n, d, r, n) && sector == at + d && d != n * size && Abs(d) >= n * size
    ensures Counts(Observe(s, size, sector), at + d, n, d, r + 1, 1)
  {
    FarJump(d, size, n);
  }

  lemma WatchedLast(size: nat, g: seq<nat>, h: seq<nat>)
    requires size > 0 && h != []
    ensures Watched(size, g + h) == Observe(Watched(size, g + h[..|h| - 1]), size, h[|h| - 1])
  {
    assert (g + h)[..|g + h| - 1] == g + h[..|h| - 1];
  }

  /** Without its last request the trace is still of that kind. */
  lemma StridedBefore(h: seq<nat>, size: nat, start: nat, n: nat, d: int, r: nat, c: nat)
    requires Strided(h, size, start, n, d, r, c) && 0 < c <= n
    ensures h != [] && h[|h| - 1] == start + r * d + (c - 1) * size
    ensures if c > 1 then Strided(h[..|h| - 1], size, start, n, d, r, c - 1) else r > 0 ==> Strided(h[..|h| - 1], size, start, n, d, r - 1, n)
  {
    assert r * n >= 0 && (r - 1) * n + n == r * n;
    DivIs(|h| - 1, n, r, c - 1);
  }

  lemma {:induction false} StridesCounted(size: nat, h: seq<nat>, start: nat, n: nat, d: int, r: nat, c: nat)
    requires size > 0 && Strided(h, size, start, n, d, r, c) && 0 < c <= n && Abs(d) >= n * size && d != n * size
    ensures Counts(Watched(size, h), start + r * d, n, d, r, c)
    decreases |h|
  {
    StridedBefore(h, size, start, n, d, r, c);
    var m := |h| - 1;
    if c > 1 {
      StridesCounted(size, h[..m], start, n, d, r, c - 1);
      NextCounted(Watched(size, h[..m]), size, start + r * d, n, d, r, c - 1, h[m]);
    } else if r > 0 {
      Shifted(r, d);
      StridesCounted(size, h[..m], start, n, d, r - 1, n);
      JumpCounted(Watched(size, h[..m]), size, start + (r - 1) * d, n, d, r - 1, h[m]);
    }
  }

  /** Detector completeness: a reader that has made such requests is reported with that run length,
      that stride and those counts, in either direction. */
  lemma StridesAreSeen(size: nat, h: seq<nat>, start: nat, n: nat, d: int, r: nat, c: nat)
    requires size > 0 && Strided(h, size, start, n, d, r, c) && 0 < c <= n && Abs(d) >= n * size && d != n * size
    ensures h != [] && Report(Watched(size, h), h[|h| - 1]) == Info(h[|h| - 1], c, if r == 0 then 0 else n, if r == 0 then 0 else d, r)
  {
    assert r * n >= 0;
    StridesCounted(size, h, start, n, d, r, c);
  }

  /** What is known of the stream r jumps of d later, whatever came before: the first jump starts a
      run, the second one forgets any other pattern, and all further ones are counted. */
  predicate Settles(s: Stream, size: nat, at: int, n: nat, d: int, r: nat, c: nat) {
    && s.curr.count > 0 && s.curr.start + (s.curr.count - 1) * size == at + (c - 1) * size
    && (if r == 0 then s.curr.count >= c else s.curr.count == c && s.curr.start == at)
    && (r == 2 && s.prev.count > 0 ==> s.prev.count == n && s.stride == d && s.strideCount > 0)
    && (r > 2 ==> s.prev.count == n && s.stride == d && s.strideCount >= r - 2)
  }

  lemma NextSettles(s: Stream, size: nat, at: int, n: nat, d: int, r: nat, c: nat, sector: nat)
    requires size > 0 && Settles(s, size, at, n, d, r, c) && 0 < c < n && sector == at + c * size
    ensures Settles(Observe(s, size, sector), size, at, n, d, r, c + 1)
  {
    Shifted(s.curr.count, size);
    Shifted(c, size);
  }

  lemma JumpSettles(s: Stream, size: nat, at: int, n: nat, d: int, r: nat, sector: nat)
    requires size > 0 && n > 0 && Settles(s, size, at, n, d, r, n) && sector == at + d && d != n * size && Abs(d) >= n * size
    ensures Settles(Observe(s, size, sector), size, at + d, n, d, r + 1, 1)
  {
    Shifted(s.curr.count, size);
    Shifted(n, size);
    assert !Fits(s.curr, size, sector);
    if r > 0 { FarJump(d, size, n); }
  }

  lemma EndOfRun(size: nat, h: seq<nat>)
    requires size > 0 && h != []
    ensures var s := Watched(size, h); s.curr.count > 0 && s.curr.start + (s.curr.count - 1) * size == h[|h| - 1]
  {
    WatchedDescribes(size, h);
    CurrentRun(Watched(size, h), size, h, Watched(size, h).curr.count - 1);
  }

  lemma {:induction false} SoonSettled(size: nat, g: seq<nat>, h: seq<nat>, start: nat, n: nat, d: int, r: nat, c: nat)
    requires size > 0 && Strided(h, size, start, n, d, r, c) && 0 < c <= n && Abs(d) >= n * size && d != n * size
    ensures Settles(Watched(size, g + h), size, start + r * d, n, d, r, c)
    decreases |h|
  {
    StridedBefore(h, size, start, n, d, r, c);
    var m := |h| - 1;
    WatchedLast(size, g, h);
    if c > 1 {
      SoonSettled(size, g, h[..m], start, n, d, r, c - 1);
      NextSettles(Watched(size, g + h[..m]), size, start + r * d, n, d, r, c - 1, h[m]);
    } else if r > 0 {
      Shifted(r, d);
      SoonSettled(size, g, h[..m], start, n, d, r - 1, n);
      JumpSettles(Watched(size, g + h[..m]), size, start + (r - 1) * d, n, d, r - 1, h[m]);
    } else {
      EndOfRun(size, g + h);
    }
  }

  /** And whatever the reader has done before: consecutive requests are all counted as one run, and
      of the jumps between such runs all but the first two. */
  lemma StridesAreSeenSoon(size: nat, g: seq<nat>, h: seq<nat>, start: nat, n: nat, d: int, r: nat, c: nat)
    requires size > 0 && Strided(h, size, start, n, d, r, c) && 0 < c <= n && Abs(d) >= n * size && d != n * size
    ensures h != [] && r * n + c == |h|
    ensures var info := Report(Watched(size, g + h), h[|h| - 1]);
      && (if r == 0 then info.seqCount >= c else info.seqCount == c)
      && (r > 2 ==> info.seqTotal == n && info.stride == d && info.strideCount >= r - 2)
  {
    assert r * n >= 0;
    SoonSettled(size, g, h, start, n, d, r, c);
  }

  lemma FarJump(d: int, size: nat, n: nat)
    requires size > 0 && Abs(d) >= n * size
    ensures Abs(d) / size >= n
  {
    assert Abs(d) == Abs(d) / size * size + Abs(d) % size;
    if Abs(d) / size < n { Steps(Abs(d) / size, n, size); }
  }
}
