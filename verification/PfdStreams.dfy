/** The streams the prefetcher watches: the last COUNT readers, kept most recent first in a
    doubly linked queue of fixed entries. */
module PfdStreams {
  import opened Types
  import opened Links
  import opened PfdDetector

  const COUNT := 64   // PFD_STAT_COUNT
  const NIL := -1

  /** A cache device and its block size. */
  datatype Target = Target(id: nat, blockSize: nat)

  /** pfd_stat; no target means unused. */
  datatype Elm = Elm(tgt: Option<Target>, pid: int, stream: Stream)

  const UNUSED := Elm(None, -1, FRESH)

  // ----- what is kept: the recent readers, each with its requests since it was taken in -----

  datatype Known = Known(tgt: Target, pid: int, history: seq<nat>) {
    predicate Is(t: Target, p: int) { tgt == t && pid == p }
  }

  /** Where a reader stands among the recent ones; one past them if it is not there. */
  function Find(r: seq<Known>, t: Target, p: int): (k: nat)
    ensures k <= |r|
    ensures k < |r| ==> r[k].Is(t, p)
    ensures forall j :: 0 <= j < k ==> !r[j].Is(t, p)
  {
    if r == [] then 0 else if r[0].Is(t, p) then 0 else 1 + Find(r[1..], t, p)
  }

  /** The recent readers after one more request. */
  function Touch(r: seq<Known>, t: Target, p: int, sector: nat): seq<Known> {
    var k := Find(r, t, p);
    if k < |r| then [r[k].(history := r[k].history + [sector])] + r[..k] + r[k + 1..]
    else [Known(t, p, [sector])] + (if |r| < COUNT then r else r[..COUNT - 1])
  }

  predicate Different(r: seq<Known>, j: nat, k: nat)
    requires j < |r| && k < |r|
  {
    !r[j].Is(r[k].tgt, r[k].pid)
  }

  ghost predicate Sound(r: seq<Known>) {
    && |r| <= COUNT
    && (forall j: nat, k: nat {:trigger Different(r, j, k)} :: j < k < |r| ==> Different(r, j, k))
    && forall k {:trigger r[k]} :: 0 <= k < |r| ==> r[k].history != [] && r[k].tgt.blockSize > 0
  }

  lemma TouchAt(r: seq<Known>, t: Target, p: int, sector: nat, j: nat)
    requires j < |Touch(r, t, p, sector)|
    ensures var k := Find(r, t, p);
            Touch(r, t, p, sector)[j] ==
              if j == 0 then (if k < |r| then r[k].(history := r[k].history + [sector]) else Known(t, p, [sector]))
              else if j <= k then r[j - 1] else r[j]
    ensures j > 0 ==> j - 1 < |r| && (j > Find(r, t, p) ==> j < |r|)
  {
  }

  /** No reader is ever listed twice, and none without a request. */
  lemma TouchSound(r: seq<Known>, t: Target, p: int, sector: nat)
    requires Sound(r) && t.blockSize > 0
    ensures Sound(Touch(r, t, p, sector))
  {
    var s := Touch(r, t, p, sector);
    var k := Find(r, t, p);
    forall i: nat, j: nat | i < j < |s| ensures Different(s, i, j) {
      TouchAt(r, t, p, sector, i);
      TouchAt(r, t, p, sector, j);
      var j' := if j <= k then j - 1 else j;
      if i == 0 {
        if k < |r| { if j' < k { assert Different(r, j', k); } else { assert Different(r, k, j'); } }
      } else {
        assert Different(r, if i <= k then i - 1 else i, j');
      }
    }
    forall j | 0 <= j < |s| ensures s[j].history != [] && s[j].tgt.blockSize > 0 { TouchAt(r, t, p, sector, j); }
  }

  // ----- over a whole trace -----

  datatype Read = Read(tgt: Target, pid: int, sector: nat)

  function Recents(trace: seq<Read>): seq<Known> {
    if trace == [] then []
    else
      var read := trace[|trace| - 1];
      Touch(Recents(trace[..|trace| - 1]), read.tgt, read.pid, read.sector)
  }

  /** All that one reader has read. */
  function Of(trace: seq<Read>, t: Target, p: int): seq<nat> {
    if trace == [] then []
    else
      var read := trace[|trace| - 1];
      Of(trace[..|trace| - 1], t, p) + if read.tgt == t && read.pid == p then [read.sector] else []
  }

  predicate Suffix(h: seq<nat>, all: seq<nat>) { |h| <= |all| && h == all[|all| - |h|..] }

  lemma LongerSuffix(h: seq<nat>, all: seq<nat>, x: nat)
    requires Suffix(h, all)
    ensures Suffix(h + [x], all + [x])
  {
  }

  /** One more request of any reader: `was` is what reader k of the new queue had read before. */
  lemma TouchSuffix(r: seq<Known>, t: Target, p: int, sector: nat, k: nat, was: seq<nat>)
    requires Sound(r) && k < |Touch(r, t, p, sector)|
    requires var f := Find(r, t, p); var i := if k == 0 then f else if k <= f then k - 1 else k;
             i < |r| ==> Suffix(r[i].history, was)
    ensures var known := Touch(r, t, p, sector)[k];
            Suffix(known.history, was + if known.Is(t, p) then [sector] else [])
  {
    var f := Find(r, t, p);
    TouchAt(r, t, p, sector, k);
    if k == 0 {
      if f < |r| { LongerSuffix(r[f].history, was, sector); }
    } else {
      var i := if k <= f then k - 1 else k;
      assert i > f ==> Different(r, f, i);
      assert was + [] == was;
    }
  }

  /** A stream's requests are the last its reader has made, none missing. */
  lemma {:induction false} HistoryIsSuffix(trace: seq<Read>, k: nat)
    requires Positive(trace) && k < |Recents(trace)|
    ensures var known := Recents(trace)[k]; Suffix(known.history, Of(trace, known.tgt, known.pid))
  {
    var before, read := trace[..|trace| - 1], trace[|trace| - 1];
    var r, known := Recents(before), Recents(trace)[k];
    var f := Find(r, read.tgt, read.pid);
    TouchAt(r, read.tgt, read.pid, read.sector, k);
    RecentsSound(before);
    var i := if k == 0 then f else if k <= f then k - 1 else k;
    if i < |r| { HistoryIsSuffix(before, i); }
    TouchSuffix(r, read.tgt, read.pid, read.sector, k, Of(before, known.tgt, known.pid));
  }

  predicate Positive(trace: seq<Read>) { forall i :: 0 <= i < |trace| ==> trace[i].tgt.blockSize > 0 }

  lemma {:induction false} RecentsSound(trace: seq<Read>)
    requires Positive(trace)
    ensures Sound(Recents(trace))
  {
    if trace != [] {
      var n := |trace| - 1;
      RecentsSound(trace[..n]);
      TouchSound(Recents(trace[..n]), trace[n].tgt, trace[n].pid, trace[n].sector);
    }
  }

  /** The readers by how recently they have read, without any limit. */
  function Place(l: seq<(Target, int)>, x: (Target, int)): (k: nat)
    ensures k <= |l| && (k < |l| ==> l[k] == x) && forall j :: 0 <= j < k ==> l[j] != x
  {
    if l == [] then 0 else if l[0] == x then 0 else 1 + Place(l[1..], x)
  }

  function Forward(l: seq<(Target, int)>, x: (Target, int)): seq<(Target, int)> {
    var k := Place(l, x);
    [x] + l[..k] + if k < |l| then l[k + 1..] else []
  }

  function ByRecency(trace: seq<Read>): seq<(Target, int)> {
    if trace == [] then []
    else Forward(ByRecency(trace[..|trace| - 1]), (trace[|trace| - 1].tgt, trace[|trace| - 1].pid))
  }

  function Keys(r: seq<Known>): seq<(Target, int)> { seq(|r|, i requires 0 <= i < |r| => (r[i].tgt, r[i].pid)) }

  function Kept(l: seq<(Target, int)>): seq<(Target, int)> { if |l| <= COUNT then l else l[..COUNT] }

  lemma ForwardAt(l: seq<(Target, int)>, x: (Target, int), j: nat)
    requires j < |Forward(l, x)|
    ensures |Forward(l, x)| == if Place(l, x) < |l| then |l| else |l| + 1
    ensures j > 0 ==> (if j <= Place(l, x) then j - 1 else j) < |l|
    ensures Forward(l, x)[j] == if j == 0 then x else l[if j <= Place(l, x) then j - 1 else j]
  {
  }

  lemma FindIsPlace(r: seq<Known>, l: seq<(Target, int)>, t: Target, p: int)
    requires Keys(r) == Kept(l)
    ensures Find(r, t, p) == if Place(l, (t, p)) < |r| then Place(l, (t, p)) else |r|
  {
    forall j | 0 <= j < |r| ensures r[j].Is(t, p) <==> l[j] == (t, p) { assert Keys(r)[j] == l[j]; }
  }

  lemma TouchForwards(r: seq<Known>, l: seq<(Target, int)>, t: Target, p: int, sector: nat)
    requires Keys(r) == Kept(l)
    ensures Keys(Touch(r, t, p, sector)) == Kept(Forward(l, (t, p)))
  {
    FindIsPlace(r, l, t, p);
    ForwardAt(l, (t, p), 0);
    var f := Find(r, t, p);
    var s, m := Touch(r, t, p, sector), Forward(l, (t, p));
    assert |s| == |Kept(m)|;
    forall j | 0 <= j < |s| ensures Keys(s)[j] == m[j] {
      TouchAt(r, t, p, sector, j);
      ForwardAt(l, (t, p), j);
      if j > 0 { assert Keys(r)[if j <= f then j - 1 else j] == l[if j <= f then j - 1 else j]; }
    }
  }

  /** The queue is exact: it knows the COUNT readers that have read most recently, in that
      order, and no other. */
  lemma {:induction false} MostRecentAreKnown(trace: seq<Read>)
    ensures Keys(Recents(trace)) == Kept(ByRecency(trace))
  {
    if trace != [] {
      var n := |trace| - 1;
      MostRecentAreKnown(trace[..n]);
      TouchForwards(Recents(trace[..n]), ByRecency(trace[..n]), trace[n].tgt, trace[n].pid, trace[n].sector);
    }
  }

  // ----- how the queue keeps it -----

  predicate HoldsAt(elms: seq<Elm>, order: seq<nat>, r: seq<Known>, k: nat)
    requires k < |order| && order[k] < |elms|
  {
    var e := elms[order[k]];
    if k < |r| then
      && r[k].tgt.blockSize > 0 && e.tgt == Some(r[k].tgt) && e.pid == r[k].pid
      && e.stream == Watched(r[k].tgt.blockSize, r[k].history)
    else e.tgt == None
  }

  /** The used entries come first and are the recent readers in order. */
  ghost predicate Holds(elms: seq<Elm>, order: seq<nat>, r: seq<Known>) {
    && |elms| == |order| == COUNT && Sound(r)
    && (forall k {:trigger order[k]} :: 0 <= k < COUNT ==> order[k] < COUNT)
    && forall k: nat {:trigger HoldsAt(elms, order, r, k)} :: k < COUNT ==> HoldsAt(elms, order, r, k)
  }

  /** l with its element k brought to the front. */
  function Fronted(l: seq<nat>, k: nat): seq<nat>
    requires k < |l|
  {
    [l[k]] + Without(l, k)
  }

  lemma FrontedAt(l: seq<nat>, k: nat, j: nat)
    requires k < |l| && j < |l|
    ensures |Fronted(l, k)| == |l| && Fronted(l, k)[j] == l[if j == 0 then k else if j <= k then j - 1 else j]
  {
  }

  /** A known reader: its entry goes to the front. */
  lemma KnownHolds(elms: seq<Elm>, order: seq<nat>, r: seq<Known>, k: nat, sector: nat, e: Elm)
    requires Holds(elms, order, r) && Distinct(order) && k < |r|
    requires var x := elms[order[k]]; e == x.(stream := Observe(x.stream, r[k].tgt.blockSize, sector))
    ensures k == Find(r, r[k].tgt, r[k].pid)
    ensures Holds(elms[order[k] := e], Fronted(order, k), Touch(r, r[k].tgt, r[k].pid, sector))
  {
    var t, p := r[k].tgt, r[k].pid;
    assert HoldsAt(elms, order, r, k);
    var f := Find(r, t, p);
    assert f < k ==> Different(r, f, k);
    TouchSound(r, t, p, sector);
    OneMoreRequest(t.blockSize, r[k].history, sector);
    var s, elms', order' := Touch(r, t, p, sector), elms[order[k] := e], Fronted(order, k);
    forall j: nat | j < COUNT ensures order'[j] < COUNT && HoldsAt(elms', order', s, j) {
      FrontedAt(order, k, j);
      var i := if j == 0 then k else if j <= k then j - 1 else j;
      assert HoldsAt(elms, order, r, i);
      Links.Apart(order, i, k);
      if j == 0 {
        assert s[0] == r[k].(history := r[k].history + [sector]);
      } else {
        if j < |s| { TouchAt(r, t, p, sector, j); }
        assert order'[j] != order[k] && HoldsAt(elms', order', s, j);
      }
    }
  }

  lemma OneMoreRequest(size: nat, h: seq<nat>, sector: nat)
    requires size > 0
    ensures Watched(size, h + [sector]) == Observe(Watched(size, h), size, sector)
  {
    assert (h + [sector])[..|h|] == h;
  }

  /** A new reader takes the last entry, used or not. */
  lemma NewHolds(elms: seq<Elm>, order: seq<nat>, r: seq<Known>, t: Target, p: int, sector: nat, e: Elm)
    requires Holds(elms, order, r) && Distinct(order) && Find(r, t, p) == |r| && t.blockSize > 0
    requires e == Elm(Some(t), p, Observe(FRESH, t.blockSize, sector))
    ensures Holds(elms[order[COUNT - 1] := e], Fronted(order, COUNT - 1), Touch(r, t, p, sector))
  {
    TouchSound(r, t, p, sector);
    OneMoreRequest(t.blockSize, [], sector);
    assert [] + [sector] == [sector];
    var s, elms', order' := Touch(r, t, p, sector), elms[order[COUNT - 1] := e], Fronted(order, COUNT - 1);
    forall j: nat | j < COUNT ensures order'[j] < COUNT && HoldsAt(elms', order', s, j) {
      FrontedAt(order, COUNT - 1, j);
      var i := if j == 0 then COUNT - 1 else j - 1;
      assert HoldsAt(elms, order, r, i);
      Links.Apart(order, i, COUNT - 1);
      if j < |s| { TouchAt(r, t, p, sector, j); }
    }
  }

  /** The links after bringing x to the front. */
  lemma FrontThreaded(next: seq<int>, prev: seq<int>, l: seq<nat>, k: nat)
    requires Threaded(NIL, next, prev, l) && 0 < k < |l|
    ensures var x := l[k];
            && x < |next| && (prev[x] == NIL || 0 <= prev[x] < |next|) && (next[x] == NIL || 0 <= next[x] < |next|)
            && x != l[0] && l[0] < |prev|
            && Threaded(NIL, NextPushed(NextCut(NIL, next, prev, x), l[0], x), PrevPushed(NIL, PrevCut(NIL, next, prev, x), l[0], x), Fronted(l, k))
            && (if next[x] == NIL then prev[x] else Last(NIL, l)) == Last(NIL, Fronted(l, k))
  {
    var x := l[k];
    LinkBounds(NIL, next, prev, l, k);
    Links.Apart(l, 0, k);
    RemoveThreaded(NIL, next, prev, l, k);
    RemoveEnds(NIL, next, prev, l, k);
    WithoutDistinct(l, k);
    WithoutAt(l, k, 0);
    var n, p := NextRemoved(NIL, next, prev, x), PrevRemoved(NIL, next, prev, x);
    PushThreaded(NIL, n, p, Without(l, k), x);
    assert NextPushed(n, l[0], x) == NextPushed(NextCut(NIL, next, prev, x), l[0], x);
    assert PrevPushed(NIL, p, l[0], x) == PrevPushed(NIL, PrevCut(NIL, next, prev, x), l[0], x);
  }

  /** pfd_stat_queue */
  class StreamQueue {
    const elms: array<Elm>
    const next: array<int>
    const prev: array<int>
    var head: int
    var tail: int
    ghost var order: seq<nat>
    ghost var recent: seq<Known>

    ghost predicate Linked()
      reads this, next, prev
    {
      && elms.Length == next.Length == prev.Length == COUNT && next != prev && |order| == COUNT
      && Threaded(NIL, next[..], prev[..], order) && head == First(NIL, order) && tail == Last(NIL, order)
    }

    ghost predicate Valid()
      reads this, elms, next, prev
    {
      Linked() && Holds(elms[..], order, recent)
    }

    /** pfd_stat_elm_to_head */
    method ElmToHead(x: nat, ghost k: nat)
      requires Linked() && k < COUNT && x == order[k]
      modifies this`head, this`tail, this`order, next, prev
      ensures Linked() && order == Fronted(old(order), k)
    {
      if head == x {
        Links.Apart(order, 0, k);
        assert Fronted(order, 0) == order;
        return;
      }
      FrontThreaded(next[..], prev[..], order, k);
      LinkBounds(NIL, next[..], prev[..], order, k);
      LinkBounds(NIL, next[..], prev[..], order, COUNT - 1);
      Links.Apart(order, k, COUNT - 1);
      ghost var wasNext, wasPrev := next[..], prev[..];
      if next[x] != NIL { prev[next[x]] := prev[x]; }
      assert prev[..] == PrevCut(NIL, wasNext, wasPrev, x);
      if prev[x] != NIL { next[prev[x]] := next[x]; }
      assert next[..] == NextCut(NIL, wasNext, wasPrev, x);
      if tail == x { tail := prev[x]; }
      prev[head] := x;
      next[x] := head;
      prev[x] := NIL;
      assert next[..] == NextPushed(NextCut(NIL, wasNext, wasPrev, x), head, x);
      assert prev[..] == PrevPushed(NIL, PrevCut(NIL, wasNext, wasPrev, x), head, x);
      head := x;
      order := Fronted(order, k);
    }

    /** reset_pfd_stat_queue */
    constructor ()
      ensures Valid() && recent == [] && fresh(elms) && fresh(next) && fresh(prev)
    {
      elms := new Elm[COUNT](i => UNUSED);
      next := new int[COUNT](i => if i != COUNT - 1 then i + 1 else NIL);
      prev := new int[COUNT](i => if i != 0 then i - 1 else NIL);
      head, tail := 0, COUNT - 1;
      order := seq(COUNT, i => i);
      recent := [];
      new;
      forall j: nat, k: nat | j < k < COUNT ensures Differ(order, j, k) {}
      forall k | 0 <= k < COUNT ensures LinkAt(NIL, next[..], prev[..], order, k) {}
      forall k: nat | k < COUNT ensures HoldsAt(elms[..], order, recent, k) {}
    }

    /** pfd_stat_queue_search */
    method Search(t: Target, p: int) returns (x: int, ghost k: nat)
      requires Valid()
      ensures k == Find(recent, t, p)
      ensures if k < |recent| then x == order[k] else x == NIL
    {
      x, k := head, 0;
      while x != NIL
        invariant k <= COUNT && x == (if k < COUNT then order[k] else NIL) && k <= |recent|
        invariant forall j :: 0 <= j < k ==> !recent[j].Is(t, p)
        decreases COUNT - k
      {
        LinkBounds(NIL, next[..], prev[..], order, k);
        assert HoldsAt(elms[..], order, recent, k) && LinkAt(NIL, next[..], prev[..], order, k);
        if elms[x].tgt == Some(t) && elms[x].pid == p { return; }
        if elms[x].tgt == None { x := NIL; return; }
        x := next[x];
        k := k + 1;
      }
    }

    /** pfd_stat_update: the request joins its reader's stream, and the counters returned are
        those of all the requests of that reader still remembered. */
    method Update(t: Target, p: int, sector: nat) returns (info: Info)
      requires Valid() && t.blockSize > 0
      modifies this, elms, next, prev
      ensures Valid() && recent == Touch(old(recent), t, p, sector)
      ensures info == Report(Watched(t.blockSize, recent[0].history), sector)
    {
      var x, k := Search(t, p);
      if x != NIL {
        assert HoldsAt(elms[..], order, recent, k);
        KnownHolds(elms[..], order, recent, k, sector, elms[x].(stream := Observe(elms[x].stream, t.blockSize, sector)));
      } else {
        k := COUNT - 1;
        x := tail;
        NewHolds(elms[..], order, recent, t, p, sector, Elm(Some(t), p, Observe(FRESH, t.blockSize, sector)));
        elms[x] := Elm(Some(t), p, FRESH);
      }
      ElmToHead(x, k);
      var stream := Follow(elms[x].stream, t.blockSize, sector);
      elms[x] := elms[x].(stream := stream);
      recent := Touch(recent, t, p, sector);
      assert elms[..] == old(elms[..])[x := elms[x]];
      assert HoldsAt(elms[..], order, recent, 0);
      info := Report(elms[x].stream, sector);
    }
  }
}
