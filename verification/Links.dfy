/** Doubly linked lists threaded through two arrays of slot indices, with `nul` as
    the end mark, which is no index. A slot is on at most one of several lists that share the links. */
module Links {
  const NULL := 0xFFFF   // FLASHCACHE_NULL

  predicate Differ(l: seq<nat>, j: nat, k: nat)
    requires j < |l| && k < |l|
  {
    l[j] != l[k]
  }

  ghost predicate Distinct(l: seq<nat>) {
    forall j: nat, k: nat {:trigger Differ(l, j, k)} :: j < k < |l| ==> Differ(l, j, k)
  }

  lemma Apart(l: seq<nat>, j: nat, k: nat)
    requires Distinct(l) && j < |l| && k < |l|
    ensures l[j] == l[k] <==> j == k
  {
    if j < k { assert Differ(l, j, k); } else if k < j { assert Differ(l, k, j); }
  }

  function First(nul: int, l: seq<nat>): int { if l == [] then nul else l[0] }
  function Last(nul: int, l: seq<nat>): int { if l == [] then nul else l[|l| - 1] }
  function After(nul: int, l: seq<nat>, k: nat): int { if k + 1 < |l| then l[k + 1] else nul }
  function Before(nul: int, l: seq<nat>, k: nat): int { if 0 < k <= |l| then l[k - 1] else nul }

  ghost predicate LinkAt(nul: int, next: seq<int>, prev: seq<int>, l: seq<nat>, k: nat)
    requires k < |l| && l[k] < |next| == |prev|
  {
    next[l[k]] == After(nul, l, k) && prev[l[k]] == Before(nul, l, k)
  }

  /** The links of the slots of l spell l. */
  ghost predicate Threaded(nul: int, next: seq<int>, prev: seq<int>, l: seq<nat>) {
    && |next| == |prev| && !(0 <= nul < |next|) && Distinct(l)
    && (forall k {:trigger l[k]} :: 0 <= k < |l| ==> l[k] < |next|)
    && (forall k {:trigger LinkAt(nul, next, prev, l, k)} :: 0 <= k < |l| ==> LinkAt(nul, next, prev, l, k))
  }

  lemma Indices(nul: int, next: seq<int>, prev: seq<int>, l: seq<nat>)
    requires Threaded(nul, next, prev, l)
    ensures forall k {:trigger l[k]} :: 0 <= k < |l| ==> l[k] < |next| && l[k] != nul
  {
  }

  /** l without its element k. */
  function Without(l: seq<nat>, k: nat): seq<nat>
    requires k < |l|
  {
    l[..k] + l[k + 1..]
  }

  function Position(l: seq<nat>, x: nat): (k: nat)
    requires x in l
    ensures k < |l| && l[k] == x
  {
    if l[0] == x then 0 else 1 + Position(l[1..], x)
  }

  predicate Listed(lists: seq<seq<nat>>, home: seq<int>, x: nat)
    requires x < |home|
  {
    home[x] != -1 ==> 0 <= home[x] < |lists| && x in lists[home[x]]
  }

  /** l without x. */
  function Delete(l: seq<nat>, x: nat): seq<nat> {
    if l == [] then [] else if l[0] == x then l[1..] else [l[0]] + Delete(l[1..], x)
  }

  lemma {:induction false} DeleteIsWithout(l: seq<nat>, k: nat)
    requires Distinct(l) && k < |l|
    ensures Delete(l, l[k]) == Without(l, k)
  {
    if k > 0 {
      var r := l[1..];
      assert Differ(l, 0, k);
      forall i: nat, j: nat | i < j < |r| ensures Differ(r, i, j) { assert Differ(l, i + 1, j + 1); }
      DeleteIsWithout(r, k - 1);
      assert r[k - 1] == l[k] && Without(l, k) == [l[0]] + Without(r, k - 1);
    }
  }

  /** `home[x]` is the list x is on, or -1. */
  ghost predicate Homed(lists: seq<seq<nat>>, home: seq<int>) {
    && (forall k, j {:trigger lists[k][j]} :: 0 <= k < |lists| && 0 <= j < |lists[k]| ==> lists[k][j] < |home| && home[lists[k][j]] == k)
    && (forall x: nat {:trigger Listed(lists, home, x)} :: x < |home| ==> Listed(lists, home, x))
  }

  ghost predicate Strung(nul: int, next: seq<int>, prev: seq<int>, heads: seq<int>, lists: seq<seq<nat>>) {
    |heads| == |lists| && |next| == |prev| && !(0 <= nul < |next|)
    && forall k {:trigger lists[k]} :: 0 <= k < |lists| ==> heads[k] == First(nul, lists[k]) && Threaded(nul, next, prev, lists[k])
  }

  /** A slot on no list has both links nul. */
  ghost predicate Bare(nul: int, next: seq<int>, prev: seq<int>, home: seq<int>) {
    |next| == |prev| == |home|
    && forall x {:trigger home[x]} {:trigger next[x]} :: 0 <= x < |home| && home[x] == -1 ==> next[x] == nul && prev[x] == nul
  }

  /** Several lists over the same links. */
  ghost predicate Linked(nul: int, next: seq<int>, prev: seq<int>, heads: seq<int>, lists: seq<seq<nat>>, home: seq<int>) {
    Strung(nul, next, prev, heads, lists) && Homed(lists, home) && Bare(nul, next, prev, home)
  }

  lemma MoreDistinct(l: seq<nat>, x: nat)
    requires Distinct(l) && x !in l
    ensures Distinct([x] + l) && Distinct(l + [x])
  {
    forall j: nat, k: nat | j < k < |l| + 1 ensures Differ([x] + l, j, k) {
      if j > 0 { assert Differ(l, j - 1, k - 1); } else { assert ([x] + l)[k] in l; }
    }
    forall j: nat, k: nat | j < k < |l| + 1 ensures Differ(l + [x], j, k) {
      if k < |l| { assert Differ(l, j, k); } else { assert (l + [x])[j] in l; }
    }
  }

  lemma LessDistinct(l: seq<nat>)
    requires Distinct(l) && l != []
    ensures Distinct(l[1..]) && l[0] !in l[1..] && Distinct(l[..|l| - 1]) && l[|l| - 1] !in l[..|l| - 1]
  {
    var n := |l| - 1;
    assert Without(l, 0) == l[1..] && Without(l, n) == l[..n];
    WithoutDistinct(l, 0);
    WithoutDistinct(l, n);
  }

  /** What pushing x on the front of list k does to the links. */
  function NextPushed(next: seq<int>, head: int, x: nat): seq<int>
    requires x < |next|
  {
    next[x := head]
  }

  function PrevPushed(nul: int, prev: seq<int>, head: int, x: nat): seq<int>
    requires x < |prev| && (head == nul || 0 <= head < |prev|)
  {
    if head == nul then prev[x := nul] else prev[x := nul][head := x]
  }

  lemma PushThreaded(nul: int, next: seq<int>, prev: seq<int>, l: seq<nat>, x: nat)
    requires Threaded(nul, next, prev, l) && x < |next| && x !in l
    ensures Threaded(nul, NextPushed(next, First(nul, l), x), PrevPushed(nul, prev, First(nul, l), x), [x] + l)
  {
    var next', prev', l' := NextPushed(next, First(nul, l), x), PrevPushed(nul, prev, First(nul, l), x), [x] + l;
    MoreDistinct(l, x);
    forall k | 0 <= k < |l'| ensures l'[k] < |next'| && LinkAt(nul, next', prev', l', k) {
      if k > 0 { assert l'[k] == l[k - 1] && l'[k] != x && LinkAt(nul, next, prev, l, k - 1) && (k > 1 ==> Differ(l, 0, k - 1)); }
    }
  }

  lemma PushOther(nul: int, next: seq<int>, prev: seq<int>, l: seq<nat>, m: seq<nat>, x: nat)
    requires Threaded(nul, next, prev, l) && Threaded(nul, next, prev, m) && x < |next| && x !in m
    requires l != [] ==> l[0] !in m
    ensures Threaded(nul, NextPushed(next, First(nul, l), x), PrevPushed(nul, prev, First(nul, l), x), m)
  {
    forall k | 0 <= k < |m| ensures LinkAt(nul, NextPushed(next, First(nul, l), x), PrevPushed(nul, prev, First(nul, l), x), m, k) { assert LinkAt(nul, next, prev, m, k); }
  }

  lemma PushHomed(lists: seq<seq<nat>>, home: seq<int>, k: nat, x: nat, l: seq<nat>)
    requires Homed(lists, home) && k < |lists| && x < |home| && home[x] == -1
    requires l == [x] + lists[k] || l == lists[k] + [x]
    ensures Homed(lists[k := l], home[x := k])
  {
    var lists', home' := lists[k := l], home[x := k];
    forall n, j | 0 <= n < |lists'| && 0 <= j < |lists'[n]| ensures lists'[n][j] < |home'| && home'[lists'[n][j]] == n {
      if n == k && lists'[n][j] != x { assert lists'[n][j] in lists[k]; }
    }
    forall y: nat | y < |home'| ensures Listed(lists', home', y) { assert Listed(lists, home, y); }
  }

  lemma HomedApart(lists: seq<seq<nat>>, home: seq<int>, m: nat, n: nat, x: nat)
    requires Homed(lists, home) && m < |lists| && n < |lists| && m != n && x in lists[m]
    ensures x !in lists[n] && x < |home| && home[x] == m
  {
    assert home[lists[m][Position(lists[m], x)]] == m;
  }

  lemma NoHome(lists: seq<seq<nat>>, home: seq<int>, n: nat, x: nat)
    requires Homed(lists, home) && n < |lists| && x < |home| && home[x] == -1
    ensures x !in lists[n]
  {
  }

  lemma PushStrung(nul: int, next: seq<int>, prev: seq<int>, heads: seq<int>, lists: seq<seq<nat>>, home: seq<int>, k: nat, x: nat)
    requires Strung(nul, next, prev, heads, lists) && Homed(lists, home) && |home| == |next|
    requires k < |lists| && x < |home| && home[x] == -1
    ensures heads[k] == nul || 0 <= heads[k] < |prev|
    ensures Strung(nul, NextPushed(next, heads[k], x), PrevPushed(nul, prev, heads[k], x), heads[k := x], lists[k := [x] + lists[k]])
  {
    NoHome(lists, home, k, x);
    PushThreaded(nul, next, prev, lists[k], x);
    forall n | 0 <= n < |lists| && n != k ensures Threaded(nul, NextPushed(next, heads[k], x), PrevPushed(nul, prev, heads[k], x), lists[n]) {
      NoHome(lists, home, n, x);
      if lists[k] != [] { HomedApart(lists, home, k, n, lists[k][0]); }
      PushOther(nul, next, prev, lists[k], lists[n], x);
    }
  }

  lemma PushBare(nul: int, next: seq<int>, prev: seq<int>, lists: seq<seq<nat>>, home: seq<int>, k: nat, x: nat)
    requires Bare(nul, next, prev, home) && Homed(lists, home)
    requires k < |lists| && x < |home| && home[x] == -1
    requires lists[k] != [] ==> lists[k][0] < |prev|
    requires First(nul, lists[k]) == nul ==> lists[k] == []
    ensures Bare(nul, NextPushed(next, First(nul, lists[k]), x), PrevPushed(nul, prev, First(nul, lists[k]), x), home[x := k])
  {
    if lists[k] != [] { assert home[lists[k][0]] == k; }
  }

  lemma PushLinked(nul: int, next: seq<int>, prev: seq<int>, heads: seq<int>, lists: seq<seq<nat>>, home: seq<int>, k: nat, x: nat)
    requires Linked(nul, next, prev, heads, lists, home) && k < |lists| && x < |home| && home[x] == -1
    ensures heads[k] == nul || 0 <= heads[k] < |prev|
    ensures Linked(nul, NextPushed(next, heads[k], x), PrevPushed(nul, prev, heads[k], x), heads[k := x], lists[k := [x] + lists[k]], home[x := k])
  {
    PushStrung(nul, next, prev, heads, lists, home, k, x);
    PushHomed(lists, home, k, x, [x] + lists[k]);
    PushBare(nul, next, prev, lists, home, k, x);
  }

  /** What taking x out does to the links of its neighbours ... */
  function NextCut(nul: int, next: seq<int>, prev: seq<int>, x: nat): seq<int>
    requires x < |next| == |prev| && (prev[x] == nul || 0 <= prev[x] < |next|)
  {
    if prev[x] != nul then next[prev[x] := next[x]] else next
  }

  function PrevCut(nul: int, next: seq<int>, prev: seq<int>, x: nat): seq<int>
    requires x < |next| == |prev| && (next[x] == nul || 0 <= next[x] < |next|)
  {
    if next[x] != nul then prev[next[x] := prev[x]] else prev
  }

  /** ... and then to its own. */
  function NextRemoved(nul: int, next: seq<int>, prev: seq<int>, x: nat): seq<int>
    requires x < |next| == |prev| && (prev[x] == nul || 0 <= prev[x] < |next|)
  {
    NextCut(nul, next, prev, x)[x := nul]
  }

  function PrevRemoved(nul: int, next: seq<int>, prev: seq<int>, x: nat): seq<int>
    requires x < |next| == |prev| && (next[x] == nul || 0 <= next[x] < |next|)
  {
    PrevCut(nul, next, prev, x)[x := nul]
  }

  function HeadRemoved(nul: int, head: int, next: seq<int>, prev: seq<int>, x: nat): int
    requires x < |next| == |prev|
  {
    if prev[x] == nul then next[x] else head
  }

  lemma LinkBounds(nul: int, next: seq<int>, prev: seq<int>, l: seq<nat>, k: nat)
    requires Threaded(nul, next, prev, l) && k < |l|
    ensures l[k] < |next| && (prev[l[k]] == nul || 0 <= prev[l[k]] < |next|) && (next[l[k]] == nul || 0 <= next[l[k]] < |next|)
    ensures prev[l[k]] != l[k] && next[l[k]] != l[k]
    ensures (prev[l[k]] == nul <==> k == 0) && (next[l[k]] == nul <==> k == |l| - 1)
  {
    assert LinkAt(nul, next, prev, l, k);
    if k > 0 { assert l[k - 1] < |next| && Differ(l, k - 1, k); }
    if k + 1 < |l| { assert l[k + 1] < |next| && Differ(l, k, k + 1); }
  }

  lemma WithoutAt(l: seq<nat>, k: nat, j: nat)
    requires k < |l| && j < |l| - 1
    ensures Without(l, k)[j] == l[if j < k then j else j + 1]
  {
  }

  lemma WithoutDistinct(l: seq<nat>, k: nat)
    requires Distinct(l) && k < |l|
    ensures Distinct(Without(l, k)) && l[k] !in Without(l, k)
  {
    var m := Without(l, k);
    forall i: nat, j: nat | i < j < |m| ensures Differ(m, i, j) {
      WithoutAt(l, k, i);
      WithoutAt(l, k, j);
      assert Differ(l, if i < k then i else i + 1, if j < k then j else j + 1);
    }
    forall i: nat | i < |m| ensures m[i] != l[k] {
      WithoutAt(l, k, i);
      if i < k { assert Differ(l, i, k); } else { assert Differ(l, k, i + 1); }
    }
  }

  lemma RemoveThreaded(nul: int, next: seq<int>, prev: seq<int>, l: seq<nat>, k: nat)
    requires Threaded(nul, next, prev, l) && k < |l|
    ensures prev[l[k]] == nul || 0 <= prev[l[k]] < |next|
    ensures next[l[k]] == nul || 0 <= next[l[k]] < |next|
    ensures Threaded(nul, NextRemoved(nul, next, prev, l[k]), PrevRemoved(nul, next, prev, l[k]), Without(l, k))
  {
    var x := l[k];
    var m := Without(l, k);
    LinkBounds(nul, next, prev, l, k);
    var next', prev' := NextRemoved(nul, next, prev, x), PrevRemoved(nul, next, prev, x);
    WithoutDistinct(l, k);
    forall j | 0 <= j < |m| ensures m[j] < |next| && LinkAt(nul, next', prev', m, j) {
      var i := if j < k then j else j + 1;
      WithoutAt(l, k, j);
      Apart(l, i, k);
      assert LinkAt(nul, next, prev, l, i) && LinkAt(nul, next, prev, l, k);
      if k > 0 { Apart(l, i, k - 1); }
      if k + 1 < |l| { Apart(l, i, k + 1); }
    }
  }

  lemma RemoveEnds(nul: int, next: seq<int>, prev: seq<int>, l: seq<nat>, k: nat)
    requires Threaded(nul, next, prev, l) && k < |l|
    ensures HeadRemoved(nul, First(nul, l), next, prev, l[k]) == First(nul, Without(l, k))
    ensures (if next[l[k]] == nul then prev[l[k]] else Last(nul, l)) == Last(nul, Without(l, k))
  {
    var m := Without(l, k);
    assert LinkAt(nul, next, prev, l, k);
    if |l| > 1 {
      WithoutAt(l, k, 0);
      WithoutAt(l, k, |l| - 2);
      assert l[0] < |next| && l[|l| - 1] < |next|;
      if k > 0 { assert l[k - 1] < |next|; }
      if k + 1 < |l| { assert l[k + 1] < |next|; }
    }
  }

  lemma RemoveOther(nul: int, next: seq<int>, prev: seq<int>, l: seq<nat>, k: nat, m: seq<nat>)
    requires Threaded(nul, next, prev, l) && k < |l| && Threaded(nul, next, prev, m)
    requires forall j {:trigger l[j]} :: 0 <= j < |l| ==> l[j] !in m
    ensures prev[l[k]] == nul || 0 <= prev[l[k]] < |next|
    ensures next[l[k]] == nul || 0 <= next[l[k]] < |next|
    ensures Threaded(nul, NextRemoved(nul, next, prev, l[k]), PrevRemoved(nul, next, prev, l[k]), m)
  {
    LinkBounds(nul, next, prev, l, k);
    forall j | 0 <= j < |m| ensures LinkAt(nul, NextRemoved(nul, next, prev, l[k]), PrevRemoved(nul, next, prev, l[k]), m, j) {
      assert LinkAt(nul, next, prev, m, j) && LinkAt(nul, next, prev, l, k) && m[j] in m;
      assert (k > 0 ==> l[k - 1] != m[j]) && (k + 1 < |l| ==> l[k + 1] != m[j]);
    }
  }

  lemma WithoutMembers(l: seq<nat>, k: nat, y: nat)
    requires Distinct(l) && k < |l|
    ensures y in Without(l, k) <==> y in l && y != l[k]
  {
    if y in l && y != l[k] {
      var j :| 0 <= j < |l| && l[j] == y;
      assert Without(l, k)[if j < k then j else j - 1] == y;
    }
    if y in Without(l, k) {
      var j :| 0 <= j < |l| - 1 && Without(l, k)[j] == y;
      Apart(l, if j < k then j else j + 1, k);
    }
  }

  lemma RemoveHomed(lists: seq<seq<nat>>, home: seq<int>, n: nat, k: nat)
    requires Homed(lists, home) && n < |lists| && k < |lists[n]| && Distinct(lists[n])
    ensures lists[n][k] < |home| && Homed(lists[n := Without(lists[n], k)], home[lists[n][k] := -1])
  {
    var x := lists[n][k];
    var lists', home' := lists[n := Without(lists[n], k)], home[x := -1];
    WithoutDistinct(lists[n], k);
    forall m, j | 0 <= m < |lists'| && 0 <= j < |lists'[m]| ensures lists'[m][j] < |home'| && home'[lists'[m][j]] == m {
      if m == n { WithoutAt(lists[n], k, j); }
    }
    forall y: nat | y < |home'| ensures Listed(lists', home', y) {
      assert Listed(lists, home, y);
      WithoutMembers(lists[n], k, y);
    }
  }

  lemma RemoveStrung(nul: int, next: seq<int>, prev: seq<int>, heads: seq<int>, lists: seq<seq<nat>>, home: seq<int>, n: nat, k: nat)
    requires Strung(nul, next, prev, heads, lists) && Homed(lists, home) && n < |lists| && k < |lists[n]|
    ensures var x := lists[n][k];
      x < |next| == |prev| && (prev[x] == nul || 0 <= prev[x] < |next|) && (next[x] == nul || 0 <= next[x] < |next|)
      && Strung(nul, NextRemoved(nul, next, prev, x), PrevRemoved(nul, next, prev, x), heads[n := HeadRemoved(nul, heads[n], next, prev, x)],
                lists[n := Without(lists[n], k)])
  {
    var x := lists[n][k];
    RemoveThreaded(nul, next, prev, lists[n], k);
    RemoveEnds(nul, next, prev, lists[n], k);
    var next', prev', l := NextRemoved(nul, next, prev, x), PrevRemoved(nul, next, prev, x), Without(lists[n], k);
    forall m | 0 <= m < |lists| && m != n ensures Threaded(nul, next', prev', lists[m]) { RemoveApart(nul, next, prev, lists, home, n, k, m); }
    OneChanged(nul, next, prev, next', prev', heads, lists, n, HeadRemoved(nul, heads[n], next, prev, x), l);
  }

  lemma OneChanged(nul: int, next: seq<int>, prev: seq<int>, next': seq<int>, prev': seq<int>, heads: seq<int>, lists: seq<seq<nat>>, n: nat, head: int, l: seq<nat>)
    requires Strung(nul, next, prev, heads, lists) && n < |lists| && |next'| == |prev'| && !(0 <= nul < |next'|)
    requires head == First(nul, l) && Threaded(nul, next', prev', l)
    requires forall m {:trigger lists[m]} :: 0 <= m < |lists| && m != n ==> Threaded(nul, next', prev', lists[m])
    ensures Strung(nul, next', prev', heads[n := head], lists[n := l])
  {
  }

  lemma RemoveApart(nul: int, next: seq<int>, prev: seq<int>, lists: seq<seq<nat>>, home: seq<int>, n: nat, k: nat, m: nat)
    requires Homed(lists, home) && n < |lists| && m < |lists| && m != n && k < |lists[n]|
    requires Threaded(nul, next, prev, lists[n]) && Threaded(nul, next, prev, lists[m])
    ensures var x := lists[n][k];
      x < |next| == |prev| && (prev[x] == nul || 0 <= prev[x] < |next|) && (next[x] == nul || 0 <= next[x] < |next|)
      && Threaded(nul, NextRemoved(nul, next, prev, x), PrevRemoved(nul, next, prev, x), lists[m])
  {
    forall j | 0 <= j < |lists[n]| ensures lists[n][j] !in lists[m] { HomedApart(lists, home, n, m, lists[n][j]); }
    RemoveOther(nul, next, prev, lists[n], k, lists[m]);
  }

  lemma RemoveBare(nul: int, next: seq<int>, prev: seq<int>, lists: seq<seq<nat>>, home: seq<int>, n: nat, k: nat)
    requires Bare(nul, next, prev, home) && Homed(lists, home) && n < |lists| && k < |lists[n]| && Threaded(nul, next, prev, lists[n])
    ensures var x := lists[n][k];
      && (prev[x] == nul || 0 <= prev[x] < |next|) && (next[x] == nul || 0 <= next[x] < |next|)
      && Bare(nul, NextRemoved(nul, next, prev, x), PrevRemoved(nul, next, prev, x), home[x := -1])
  {
    var x := lists[n][k];
    LinkBounds(nul, next, prev, lists[n], k);
    assert LinkAt(nul, next, prev, lists[n], k);
    var next', prev', home' := NextRemoved(nul, next, prev, x), PrevRemoved(nul, next, prev, x), home[x := -1];
    forall y | 0 <= y < |home'| && home'[y] == -1 ensures next'[y] == nul && prev'[y] == nul {
      if y != x {
        assert home[y] == -1 && next[y] == nul;
        NoHome(lists, home, n, y);
        assert k > 0 ==> lists[n][k - 1] in lists[n];
        assert k + 1 < |lists[n]| ==> lists[n][k + 1] in lists[n];
      }
    }
  }

  lemma RemoveLinked(nul: int, next: seq<int>, prev: seq<int>, heads: seq<int>, lists: seq<seq<nat>>, home: seq<int>, n: nat, k: nat)
    requires Linked(nul, next, prev, heads, lists, home) && n < |lists| && k < |lists[n]|
    ensures var x := lists[n][k];
      x < |next| == |prev| && (prev[x] == nul || 0 <= prev[x] < |next|) && (next[x] == nul || 0 <= next[x] < |next|)
      && Linked(nul, NextRemoved(nul, next, prev, x), PrevRemoved(nul, next, prev, x), heads[n := HeadRemoved(nul, heads[n], next, prev, x)],
                lists[n := Without(lists[n], k)], home[x := -1])
  {
    RemoveStrung(nul, next, prev, heads, lists, home, n, k);
    RemoveHomed(lists, home, n, k);
    RemoveBare(nul, next, prev, lists, home, n, k);
  }

  // ----- lists with a tail, whose removed slots keep stale links -----

  lemma CutStrung(nul: int, next: seq<int>, prev: seq<int>, heads: seq<int>, lists: seq<seq<nat>>, home: seq<int>, n: nat, k: nat)
    requires Strung(nul, next, prev, heads, lists) && Homed(lists, home) && n < |lists| && k < |lists[n]|
    ensures var x := lists[n][k];
      x < |next| == |prev| && (prev[x] == nul || 0 <= prev[x] < |next|) && (next[x] == nul || 0 <= next[x] < |next|)
      && Strung(nul, NextCut(nul, next, prev, x), PrevCut(nul, next, prev, x), heads[n := HeadRemoved(nul, heads[n], next, prev, x)],
                lists[n := Without(lists[n], k)])
  {
    var x := lists[n][k];
    var lists' := lists[n := Without(lists[n], k)];
    RemoveStrung(nul, next, prev, heads, lists, home, n, k);
    WithoutDistinct(lists[n], k);
    forall m, j | 0 <= m < |lists'| && 0 <= j < |lists'[m]| ensures lists'[m][j] != x {
      if m != n { HomedApart(lists, home, m, n, lists[m][j]); }
    }
    StrungAgree(nul, NextRemoved(nul, next, prev, x), PrevRemoved(nul, next, prev, x), NextCut(nul, next, prev, x), PrevCut(nul, next, prev, x),
                heads[n := HeadRemoved(nul, heads[n], next, prev, x)], lists');
  }

  lemma StrungAgree(nul: int, next: seq<int>, prev: seq<int>, next': seq<int>, prev': seq<int>, heads: seq<int>, lists: seq<seq<nat>>)
    requires Strung(nul, next, prev, heads, lists) && |next'| == |prev'| == |next|
    requires forall m, j {:trigger lists[m][j]} :: 0 <= m < |lists| && 0 <= j < |lists[m]| && lists[m][j] < |next| ==>
               next'[lists[m][j]] == next[lists[m][j]] && prev'[lists[m][j]] == prev[lists[m][j]]
    ensures Strung(nul, next', prev', heads, lists)
  {
    forall m | 0 <= m < |lists| ensures heads[m] == First(nul, lists[m]) && Threaded(nul, next', prev', lists[m]) {
      assert Threaded(nul, next, prev, lists[m]);
      forall k | 0 <= k < |lists[m]| ensures LinkAt(nul, next', prev', lists[m], k) { assert LinkAt(nul, next, prev, lists[m], k) && lists[m][k] < |next|; }
    }
  }

  /** What appending x after the tail does to the links. */
  function NextAppended(nul: int, next: seq<int>, tail: int, x: nat): seq<int>
    requires x < |next| && (tail == nul || 0 <= tail < |next|)
  {
    if tail == nul then next[x := nul] else next[x := nul][tail := x]
  }

  function PrevAppended(prev: seq<int>, tail: int, x: nat): seq<int>
    requires x < |prev|
  {
    prev[x := tail]
  }

  lemma AppendThreaded(nul: int, next: seq<int>, prev: seq<int>, l: seq<nat>, x: nat)
    requires Threaded(nul, next, prev, l) && x < |next| && x !in l
    ensures Last(nul, l) == nul || 0 <= Last(nul, l) < |next|
    ensures Threaded(nul, NextAppended(nul, next, Last(nul, l), x), PrevAppended(prev, Last(nul, l), x), l + [x])
  {
    var n := |l|;
    var next', prev', l' := next, prev, l + [x];
    if l == [] {
      next', prev' := next[x := nul], prev[x := nul];
    } else {
      assert l[n - 1] < |next| && l[n - 1] != nul;
      next', prev' := next[x := nul][l[n - 1] := x], prev[x := l[n - 1]];
    }
    assert next' == NextAppended(nul, next, Last(nul, l), x) && prev' == PrevAppended(prev, Last(nul, l), x);
    MoreDistinct(l, x);
    forall k | 0 <= k < |l'| ensures l'[k] < |next'| && LinkAt(nul, next', prev', l', k) {
      if k < n { assert l'[k] == l[k] && l[k] != x && (k + 1 < n ==> Differ(l, k, n - 1)) && LinkAt(nul, next, prev, l, k); }
    }
  }

  lemma AppendOther(nul: int, next: seq<int>, prev: seq<int>, l: seq<nat>, m: seq<nat>, x: nat)
    requires Threaded(nul, next, prev, l) && Threaded(nul, next, prev, m) && x < |next| && x !in m
    requires l != [] ==> l[|l| - 1] !in m
    ensures Last(nul, l) == nul || 0 <= Last(nul, l) < |next|
    ensures Threaded(nul, NextAppended(nul, next, Last(nul, l), x), PrevAppended(prev, Last(nul, l), x), m)
  {
    if l != [] { assert l[|l| - 1] < |next|; }
    forall k | 0 <= k < |m| ensures LinkAt(nul, NextAppended(nul, next, Last(nul, l), x), PrevAppended(prev, Last(nul, l), x), m, k) { assert LinkAt(nul, next, prev, m, k); }
  }

  lemma AppendStrung(nul: int, next: seq<int>, prev: seq<int>, heads: seq<int>, lists: seq<seq<nat>>, home: seq<int>, k: nat, x: nat)
    requires Strung(nul, next, prev, heads, lists) && Homed(lists, home) && |home| == |next|
    requires k < |lists| && x < |home| && home[x] == -1
    ensures Last(nul, lists[k]) == nul || 0 <= Last(nul, lists[k]) < |next|
    ensures Strung(nul, NextAppended(nul, next, Last(nul, lists[k]), x), PrevAppended(prev, Last(nul, lists[k]), x),
                   heads[k := if lists[k] == [] then x else heads[k]], lists[k := lists[k] + [x]])
  {
    NoHome(lists, home, k, x);
    AppendThreaded(nul, next, prev, lists[k], x);
    forall n | 0 <= n < |lists| && n != k
      ensures Threaded(nul, NextAppended(nul, next, Last(nul, lists[k]), x), PrevAppended(prev, Last(nul, lists[k]), x), lists[n])
    {
      NoHome(lists, home, n, x);
      if lists[k] != [] { HomedApart(lists, home, k, n, lists[k][|lists[k]| - 1]); }
      AppendOther(nul, next, prev, lists[k], lists[n], x);
    }
  }
}
