/** The pending table: 32 doubly linked buckets of pending jobs, keyed by the slot a job
    waits for. Jobs are named by their place in the job pool; -1 is the null pointer. New
    jobs go to the head of their bucket; a drain takes out all jobs of one slot. */
module PendingQueue {
  import opened Links

  const BUCKETS := 32
  const NIL := -1

  /** The jobs of a bucket that wait for slot i, first come first: the list has the last one
      at its head. */
  function Matching(l: seq<nat>, slotOf: seq<nat>, i: nat): seq<nat> {
    if l == [] then [] else Matching(l[1..], slotOf, i) + (if At(slotOf, l[0]) == i then [l[0]] else [])
  }

  /** ... and the rest. */
  function Others(l: seq<nat>, slotOf: seq<nat>, i: nat): seq<nat> {
    if l == [] then [] else (if At(slotOf, l[0]) == i then [] else [l[0]]) + Others(l[1..], slotOf, i)
  }

  function At(slotOf: seq<nat>, x: nat): int { if x < |slotOf| then slotOf[x] else -1 }

  /** The list after its first k jobs have been visited, and what has been taken from it. */
  function Left(l: seq<nat>, slotOf: seq<nat>, i: nat, k: nat): seq<nat>
    decreases k
  {
    if k == 0 || l == [] then l else (if At(slotOf, l[0]) == i then [] else [l[0]]) + Left(l[1..], slotOf, i, k - 1)
  }

  function Taken(l: seq<nat>, slotOf: seq<nat>, i: nat, k: nat): seq<nat>
    decreases k
  {
    if k == 0 || l == [] then [] else Taken(l[1..], slotOf, i, k - 1) + if At(slotOf, l[0]) == i then [l[0]] else []
  }

  lemma {:induction false} LeftTaken(l: seq<nat>, slotOf: seq<nat>, i: nat, k: nat)
    requires k <= |l|
    ensures Left(l, slotOf, i, k) == Others(l[..k], slotOf, i) + l[k..] && Taken(l, slotOf, i, k) == Matching(l[..k], slotOf, i)
    decreases k
  {
    if k > 0 {
      LeftTaken(l[1..], slotOf, i, k - 1);
      assert l[1..][..k - 1] == l[..k][1..] && l[1..][k - 1..] == l[k..];
    }
  }

  lemma AllTaken(l: seq<nat>, slotOf: seq<nat>, i: nat)
    ensures Left(l, slotOf, i, |l|) == Others(l, slotOf, i) && Taken(l, slotOf, i, |l|) == Matching(l, slotOf, i)
  {
    LeftTaken(l, slotOf, i, |l|);
    assert l[..|l|] == l && l[|l|..] == [];
  }

  /** m is what one reads following next from `head` on. */
  ghost predicate Chained(next: seq<int>, head: int, m: seq<nat>)
    decreases m
  {
    if m == [] then head == NIL else head == m[0] < |next| && Chained(next, next[m[0]], m[1..])
  }

  lemma {:induction false} MatchingSplit(a: seq<nat>, b: seq<nat>, slotOf: seq<nat>, i: nat)
    ensures Matching(a + b, slotOf, i) == Matching(b, slotOf, i) + Matching(a, slotOf, i)
  {
    if a == [] {
      assert a + b == b;
    } else {
      var x := if At(slotOf, a[0]) == i then [a[0]] else [];
      MatchingSplit(a[1..], b, slotOf, i);
      assert (a + b)[1..] == a[1..] + b;
      assert Matching(a + b, slotOf, i) == (Matching(b, slotOf, i) + Matching(a[1..], slotOf, i)) + x;
    }
  }

  lemma {:induction false} OthersSplit(a: seq<nat>, b: seq<nat>, slotOf: seq<nat>, i: nat)
    ensures Others(a + b, slotOf, i) == Others(a, slotOf, i) + Others(b, slotOf, i)
  {
    if a == [] {
      assert a + b == b;
    } else {
      var x := if At(slotOf, a[0]) == i then [] else [a[0]];
      OthersSplit(a[1..], b, slotOf, i);
      assert (a + b)[1..] == a[1..] + b;
      assert Others(a + b, slotOf, i) == x + (Others(a[1..], slotOf, i) + Others(b, slotOf, i));
    }
  }

  /** Taking out the jobs of slot i leaves those of every other slot, in order. */
  lemma {:induction false} OthersMatching(l: seq<nat>, slotOf: seq<nat>, i: nat, j: nat)
    ensures Matching(Others(l, slotOf, i), slotOf, j) == if j == i then [] else Matching(l, slotOf, j)
  {
    if l != [] {
      var x := if At(slotOf, l[0]) == i then [] else [l[0]];
      OthersMatching(l[1..], slotOf, i, j);
      MatchingSplit(x, Others(l[1..], slotOf, i), slotOf, j);
    }
  }

  lemma {:induction false} MatchingMember(l: seq<nat>, slotOf: seq<nat>, i: nat, x: nat)
    ensures x in Matching(l, slotOf, i) <==> x in l && At(slotOf, x) == i
    ensures x in Others(l, slotOf, i) <==> x in l && At(slotOf, x) != i
    ensures |Matching(l, slotOf, i)| + |Others(l, slotOf, i)| == |l|
  {
    if l != [] {
      MatchingMember(l[1..], slotOf, i, x);
      assert l == [l[0]] + l[1..];
    }
  }

  /** The jobs of other slots do not depend on what job x waits for, nor on links. */
  lemma {:induction false} MatchingElsewhere(l: seq<nat>, slotOf: seq<nat>, i: nat, x: nat, v: nat)
    requires x !in l && x < |slotOf|
    ensures Matching(l, slotOf[x := v], i) == Matching(l, slotOf, i)
  {
    if l != [] {
      assert l == [l[0]] + l[1..];
      MatchingElsewhere(l[1..], slotOf, i, x, v);
    }
  }

  lemma {:induction false} ChainedElsewhere(next: seq<int>, next': seq<int>, head: int, m: seq<nat>)
    requires Chained(next, head, m) && |next'| == |next| && forall x: nat :: x in m && x < |next| ==> next'[x] == next[x]
    ensures Chained(next', head, m)
    decreases m
  {
    if m != [] { ChainedElsewhere(next, next', next[m[0]], m[1..]); }
  }

  function Total(lists: seq<seq<nat>>): nat {
    if lists == [] then 0 else Total(lists[..|lists| - 1]) + |lists[|lists| - 1]|
  }

  lemma {:induction false} TotalUpdate(lists: seq<seq<nat>>, b: nat, l: seq<nat>)
    requires b < |lists|
    ensures Total(lists[b := l]) == Total(lists) - |lists[b]| + |l|
  {
    var n := |lists| - 1;
    if b == n {
      assert lists[b := l][..n] == lists[..n];
    } else {
      TotalUpdate(lists[..n], b, l);
      assert lists[b := l][..n] == lists[..n][b := l];
    }
  }

  function Empty(n: nat): seq<seq<nat>> { seq(n, k => []) }

  lemma {:induction false} EmptyTotal(n: nat)
    ensures Total(Empty(n)) == 0
  {
    if n > 0 {
      EmptyTotal(n - 1);
      assert Empty(n)[..n - 1] == Empty(n - 1);
    }
  }

  predicate InBucket(lists: seq<seq<nat>>, slotOf: seq<nat>, b: nat, k: nat)
    requires b < |lists| && k < |lists[b]|
  {
    lists[b][k] < |slotOf| && slotOf[lists[b][k]] % BUCKETS == b
  }

  /** Each bucket has the jobs whose slot hashes to it. */
  ghost predicate Keyed(lists: seq<seq<nat>>, slotOf: seq<nat>) {
    |lists| == BUCKETS && forall b: nat, k: nat {:trigger InBucket(lists, slotOf, b, k)} :: b < BUCKETS && k < |lists[b]| ==> InBucket(lists, slotOf, b, k)
  }

  /** The jobs taken are on no list any more, and all others where they were. */
  ghost predicate Freed(was: seq<int>, now: seq<int>, jobs: seq<nat>) {
    |was| == |now| && forall x: nat {:trigger now[x]} :: x < |now| ==> now[x] == if x in jobs then -1 else was[x]
  }

  lemma FreedMore(was: seq<int>, mid: seq<int>, now: seq<int>, jobs: seq<nat>, jobs': seq<nat>, node: nat)
    requires Freed(was, mid, jobs) && node < |mid|
    requires (jobs' == jobs && now == mid) || (jobs' == [node] + jobs && now == mid[node := -1])
    ensures Freed(was, now, jobs')
  {
  }

  class PendingTable {
    const slotOf: array<nat>    // job->index
    const inval: array<bool>    // job->action
    const bio: array<nat>       // job->bio
    const prev: array<int>
    const next: array<int>
    const heads: array<int>     // pending_job_hashbuckets
    var count: int              // pending_jobs_count
    ghost var lists: seq<seq<nat>>
    ghost var home: seq<int>

    ghost predicate Valid()
      reads this, slotOf, inval, bio, prev, next, heads
    {
      Sound() && count == Total(lists)
    }

    ghost predicate Sound()
      reads this, slotOf, inval, bio, prev, next, heads
    {
      && prev != next && prev != heads && next != heads && slotOf != bio
      && slotOf.Length == inval.Length == bio.Length == prev.Length == next.Length == |home| && heads.Length == BUCKETS
      && Strung(NIL, next[..], prev[..], heads[..], lists) && Homed(lists, home) && Keyed(lists, slotOf[..])
    }

    /** The jobs waiting for slot i, first come first. */
    ghost function Waiting(i: nat): seq<nat>
      reads this, slotOf
      requires |lists| == BUCKETS
    {
      Matching(lists[i % BUCKETS], slotOf[..], i)
    }

    constructor (pool: nat)
      ensures Valid() && slotOf.Length == pool && count == 0 && home == seq(pool, k => -1)
      ensures forall i: nat {:trigger Waiting(i)} :: Waiting(i) == []
      ensures fresh(slotOf) && fresh(inval) && fresh(bio) && fresh(prev) && fresh(next) && fresh(heads)
    {
      slotOf := new nat[pool](k => 0);
      inval := new bool[pool](k => false);
      bio := new nat[pool](k => 0);
      prev := new int[pool](k => NIL);
      next := new int[pool](k => NIL);
      heads := new int[BUCKETS](k => NIL);
      count := 0;
      lists, home := Empty(BUCKETS), seq(pool, k => -1);
      EmptyTotal(BUCKETS);
    }

    /** flashcache_enq_pending: the job is the last of its slot, and nobody else's turn changes. */
    method Enqueue(job: nat, index: nat, invalidate: bool, request: nat)
      requires Valid() && job < slotOf.Length && home[job] == -1
      modifies slotOf, inval, bio, prev, next, heads, `count, `lists, `home
      ensures Valid() && home == old(home)[job := index % BUCKETS] && count == old(count) + 1
      ensures slotOf[..] == old(slotOf[..])[job := index] && inval[..] == old(inval[..])[job := invalidate] && bio[..] == old(bio[..])[job := request]
      ensures forall i: nat {:trigger Waiting(i)} :: Waiting(i) == old(Waiting(i)) + if i == index then [job] else []
      ensures forall x: nat {:trigger next[x]} :: x < next.Length && x != job && old(home)[x] == -1 ==> next[x] == old(next[x])
    {
      var b := index % BUCKETS;
      ghost var slots, l := slotOf[..], [job] + lists[b];
      PushStrung(NIL, next[..], prev[..], heads[..], lists, home, b, job);
      PushHomed(lists, home, b, job, l);
      PushKeyed(lists, home, slots, b, job, index);
      TotalUpdate(lists, b, l);
      forall i: nat ensures Matching(lists[b := l][i % BUCKETS], slots[job := index], i) == Waiting(i) + if i == index then [job] else [] {
        PushWaiting(lists, home, slots, job, index, i);
      }
      inval[job], slotOf[job], bio[job] := invalidate, index, request;
      LinkFirst(job, heads[b]);
      heads[b] := job;
      count := count + 1;
      lists, home := lists[b := l], home[job := b];
    }

    /** flashcache_deq_pending: exactly the jobs of the slot come out, first come first, on a
        list of their own linked by next; everybody else keeps their turn. */
    method Dequeue(index: nat) returns (list: int, ghost jobs: seq<nat>)
      requires Valid()
      modifies prev, next, heads, `count, `lists, `home
      ensures Valid() && jobs == old(Waiting(index)) && Chained(next[..], list, jobs) && count == old(count) - |jobs|
      ensures forall i: nat {:trigger Waiting(i)} :: Waiting(i) == if i == index then [] else old(Waiting(i))
      ensures Freed(old(home), home, jobs)
    {
      ghost var l := lists[index % BUCKETS];
      var moved;
      list, jobs, moved := Sweep(index);
      TotalUpdate(old(lists), index % BUCKETS, Others(l, slotOf[..], index));
      MatchingMember(l, slotOf[..], index, 0);
      forall i: nat ensures Waiting(i) == if i == index then [] else old(Waiting(i)) { OthersMatching(l, slotOf[..], index, i); }
      count := count - moved;
    }

    /** The walk along the bucket. */
    method Sweep(index: nat) returns (list: int, ghost jobs: seq<nat>, moved: nat)
      requires Sound()
      modifies prev, next, heads, `lists, `home
      ensures Sound() && lists == old(lists)[index % BUCKETS := Others(old(lists)[index % BUCKETS], slotOf[..], index)]
      ensures jobs == old(Waiting(index)) && Chained(next[..], list, jobs) && moved == |jobs|
      ensures Freed(old(home), home, jobs)
    {
      var b := index % BUCKETS;
      ghost var l, k, slots := lists[b], 0, slotOf[..];
      var node := heads[b];
      list, jobs, moved := NIL, [], 0;
      NotNil(l);
      assert lists[b := l] == lists;
      while node != NIL
        invariant 0 <= k <= |l| && node == (if k < |l| then l[k] else NIL)
        invariant Sound() && lists == old(lists)[b := Left(l, slots, index, k)]
        invariant jobs == Taken(l, slots, index, k) && moved == |jobs| && Chained(next[..], list, jobs)
        invariant Freed(old(home), home, jobs)
        decreases |l| - k
      {
        ghost var h, j := home, jobs;
        var after;
        list, jobs, moved, after := Visit(node, index, list, jobs, moved, l, k);
        FreedMore(old(home), h, home, j, jobs, node);
        node, k := after, k + 1;
      }
      AllTaken(l, slots, index);
    }

    /** One turn of the loop. */
    method Visit(node: nat, index: nat, list: int, ghost jobs: seq<nat>, moved: nat, ghost l: seq<nat>, ghost k: nat)
        returns (list': int, ghost jobs': seq<nat>, moved': nat, after: int)
      requires Sound() && k < |l| && node == l[k] < next.Length
      requires lists[index % BUCKETS] == Left(l, slotOf[..], index, k)
      requires jobs == Taken(l, slotOf[..], index, k) && moved == |jobs| && Chained(next[..], list, jobs)
      requires forall x: nat {:trigger home[x]} :: x < |home| && x in jobs ==> home[x] == -1
      modifies prev, next, heads, `lists, `home
      ensures Sound() && lists == old(lists)[index % BUCKETS := Left(l, slotOf[..], index, k + 1)]
      ensures jobs' == Taken(l, slotOf[..], index, k + 1) && moved' == |jobs'| && Chained(next[..], list', jobs')
      ensures after == After(NIL, l, k)
      ensures (jobs' == jobs && home == old(home)) || (jobs' == [node] + jobs && home == old(home)[node := -1])
      ensures node < |old(home)|
    {
      var b := index % BUCKETS;
      ghost var p := Visited(l, slotOf[..], index, k);
      assert LinkAt(NIL, next[..], prev[..], lists[b], p) && home[lists[b][p]] == b;
      after := next[node];
      list', jobs', moved' := list, jobs, moved;
      if slotOf[node] == index {
        MoveOver(node, list, jobs, b);
        list', jobs', moved' := node, [node] + jobs, moved + 1;
      } else {
        assert lists[b := lists[b]] == lists;
      }
    }

    /** A node moves from its bucket to the head of the private list. */
    method MoveOver(node: nat, list: int, ghost jobs: seq<nat>, ghost b: nat)
      requires Sound() && node < next.Length && b < BUCKETS && home[node] == b && slotOf[node] % BUCKETS == b
      requires Chained(next[..], list, jobs) && forall x: nat :: x in jobs && x < |home| ==> home[x] == -1
      modifies prev, next, heads, `lists, `home
      ensures Sound() && lists == old(lists)[b := Delete(old(lists)[b], node)] && home == old(home)[node := -1]
      ensures Chained(next[..], node, [node] + jobs)
    {
      ghost var n := next[..];
      TakeOut(node, b);
      Detach(node, list);
      ChainedElsewhere(n, next[..], list, jobs);
      assert ([node] + jobs)[1..] == jobs;
    }

    lemma NotNil(l: seq<nat>)
      requires Sound() && exists b: nat :: b < BUCKETS && lists[b] == l
      ensures forall k {:trigger l[k]} :: 0 <= k < |l| ==> l[k] < next.Length
    {
      var b: nat :| b < BUCKETS && lists[b] == l;
      Indices(NIL, next[..], prev[..], lists[b]);
    }

    /** A node of bucket b is unlinked from its neighbours. */
    method TakeOut(x: nat, ghost b: nat)
      requires Sound() && x < next.Length && b < BUCKETS && home[x] == b && slotOf[x] % BUCKETS == b
      modifies prev, next, heads, `lists, `home
      ensures Sound() && lists == old(lists)[b := Delete(old(lists)[b], x)] && home == old(home)[x := -1]
      ensures forall y: nat {:trigger next[y]} :: y < next.Length && old(home)[y] == -1 ==> next[y] == old(next[y])
    {
      assert Listed(lists, home, x);
      ghost var k := Position(lists[b], x);
      ghost var n, q, h := next[..], prev[..], heads[..];
      DeleteIsWithout(lists[b], k);
      LinkBounds(NIL, n, q, lists[b], k);
      CutStrung(NIL, n, q, h, lists, home, b, k);
      RemoveHomed(lists, home, b, k);
      RemoveKeyed(lists, slotOf[..], b, k);
      CutApart(n, q, lists, home, b, k);
      if prev[x] == NIL { heads[slotOf[x] % BUCKETS] := next[x]; }
      assert heads[..] == h[b := HeadRemoved(NIL, h[b], n, q, x)];
      Unlink(x);
      lists, home := lists[b := Delete(lists[b], x)], home[x := -1];
    }

    method Unlink(x: nat)
      requires prev != next && x < prev.Length == next.Length && prev[x] != x && next[x] != x
      requires (prev[x] == NIL || 0 <= prev[x] < next.Length) && (next[x] == NIL || 0 <= next[x] < next.Length)
      modifies prev, next
      ensures next[..] == NextCut(NIL, old(next[..]), old(prev[..]), x) && prev[..] == PrevCut(NIL, old(next[..]), old(prev[..]), x)
    {
      if prev[x] != NIL { next[prev[x]] := next[x]; }
      if next[x] != NIL { prev[next[x]] := prev[x]; }
    }

    /** The node goes to the head of the private list. */
    method Detach(x: nat, list: int)
      requires Sound() && x < next.Length && home[x] == -1
      modifies prev, next
      ensures Sound() && next[..] == old(next[..])[x := list]
    {
      ghost var n, q := next[..], prev[..];
      prev[x] := NIL;
      next[x] := list;
      forall m, j | 0 <= m < |lists| && 0 <= j < |lists[m]| ensures lists[m][j] != x { assert home[lists[m][j]] == m; }
      StrungAgree(NIL, n, q, next[..], prev[..], heads[..], lists);
    }

    method LinkFirst(job: nat, head: int)
      requires prev != next && job < prev.Length == next.Length && (head == NIL || 0 <= head < next.Length)
      modifies prev, next
      ensures next[..] == NextPushed(old(next[..]), head, job) && prev[..] == PrevPushed(NIL, old(prev[..]), head, job)
    {
      prev[job] := NIL;
      next[job] := head;
      if head != NIL { prev[head] := job; }
    }
  }

  lemma PushKeyed(lists: seq<seq<nat>>, home: seq<int>, slotOf: seq<nat>, b: nat, job: nat, index: nat)
    requires Keyed(lists, slotOf) && Homed(lists, home) && |home| == |slotOf| && job < |home| && home[job] == -1 && b == index % BUCKETS
    ensures Keyed(lists[b := [job] + lists[b]], slotOf[job := index])
  {
    var lists', slotOf' := lists[b := [job] + lists[b]], slotOf[job := index];
    forall c: nat, k: nat | c < BUCKETS && k < |lists'[c]| ensures InBucket(lists', slotOf', c, k) {
      NoHome(lists, home, c, job);
      if c != b { assert InBucket(lists, slotOf, c, k); } else if k > 0 { assert InBucket(lists, slotOf, c, k - 1); }
    }
  }

  lemma PushWaiting(lists: seq<seq<nat>>, home: seq<int>, slotOf: seq<nat>, job: nat, index: nat, i: nat)
    requires |lists| == BUCKETS && Homed(lists, home) && |home| == |slotOf| && job < |home| && home[job] == -1
    ensures var b := index % BUCKETS;
      Matching(lists[b := [job] + lists[b]][i % BUCKETS], slotOf[job := index], i)
      == Matching(lists[i % BUCKETS], slotOf, i) + if i == index then [job] else []
  {
    var b, c := index % BUCKETS, i % BUCKETS;
    NoHome(lists, home, c, job);
    MatchingElsewhere(lists[c], slotOf, i, job, index);
    if b == c { assert ([job] + lists[b])[1..] == lists[b]; }
  }

  /** What one turn of the loop does to the two lists: job k sits in the remaining list with
      the same successor, and leaves it if it waits for the slot. */
  lemma Visited(l: seq<nat>, slotOf: seq<nat>, i: nat, k: nat) returns (p: nat)
    requires k < |l|
    ensures var a := Left(l, slotOf, i, k);
      && p < |a| && a[p] == l[k] && After(NIL, a, p) == After(NIL, l, k)
      && (if At(slotOf, l[k]) == i
          then (Distinct(a) ==> Left(l, slotOf, i, k + 1) == Delete(a, l[k])) && Taken(l, slotOf, i, k + 1) == [l[k]] + Taken(l, slotOf, i, k)
          else Left(l, slotOf, i, k + 1) == a && Taken(l, slotOf, i, k + 1) == Taken(l, slotOf, i, k))
  {
    var o := Others(l[..k], slotOf, i);
    p := |o|;
    LeftTaken(l, slotOf, i, k);
    LeftTaken(l, slotOf, i, k + 1);
    assert l[..k + 1] == l[..k] + [l[k]];
    OthersSplit(l[..k], [l[k]], slotOf, i);
    MatchingSplit(l[..k], [l[k]], slotOf, i);
    if At(slotOf, l[k]) == i && Distinct(Left(l, slotOf, i, k)) { TakenOut(Left(l, slotOf, i, k), p, o, l[k..]); }
  }

  lemma TakenOut(cur: seq<nat>, p: nat, a: seq<nat>, r: seq<nat>)
    requires Distinct(cur) && r != [] && cur == a + r && p == |a|
    ensures Delete(cur, cur[p]) == a + r[1..]
  {
    DeleteIsWithout(cur, p);
    assert cur[..p] == a && cur[p + 1..] == r[1..];
  }

  lemma RemoveKeyed(lists: seq<seq<nat>>, slotOf: seq<nat>, b: nat, k: nat)
    requires Keyed(lists, slotOf) && b < BUCKETS && k < |lists[b]|
    ensures Keyed(lists[b := Without(lists[b], k)], slotOf)
  {
    var lists' := lists[b := Without(lists[b], k)];
    forall c: nat, j: nat | c < BUCKETS && j < |lists'[c]| ensures InBucket(lists', slotOf, c, j) {
      if c == b {
        WithoutAt(lists[b], k, j);
        assert InBucket(lists, slotOf, b, if j < k then j else j + 1);
      } else {
        assert InBucket(lists, slotOf, c, j);
      }
    }
  }

  /** Unlinking does not touch the next link of a job that is on no bucket. */
  lemma CutApart(next: seq<int>, prev: seq<int>, lists: seq<seq<nat>>, home: seq<int>, b: nat, k: nat)
    requires Homed(lists, home) && |home| == |next| == |prev| && b < |lists| && k < |lists[b]| && Threaded(NIL, next, prev, lists[b])
    ensures var x := lists[b][k];
      x < |next| && (prev[x] == NIL || 0 <= prev[x] < |next|)
      && forall y: nat {:trigger home[y]} :: y < |next| && home[y] == -1 ==> NextCut(NIL, next, prev, x)[y] == next[y]
  {
    LinkBounds(NIL, next, prev, lists[b], k);
    assert LinkAt(NIL, next, prev, lists[b], k);
    if k > 0 { assert home[lists[b][k - 1]] == b; }
  }
}
