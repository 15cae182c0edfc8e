/** A cache from its creation on, over requests, cleanings, power cuts and restarts: whatever the
    mode, its requests are answered as the disk alone would have answered them. */
module Lifetime {
  import opened Types
  import opened Protocol
  import opened Invariant
  import opened Steps
  import opened SetView
  import opened Driver
  import opened HashIndex
  import opened LruLists
  import opened SetDriver
  import opened Startup
  import W = WholeRequest
  import P = Progress
  import Links

  /** What happens to a quiet cache: a request, `skip` being what the cacheability checks say of
      it; the cleaning of a slot; a power cut; a clean removal and restart. */
  datatype Event = Ask(bio: Bio, skip: bool) | CleanUp(i: nat) | Cut | Restart

  /** A disk without a cache: its contents and its answers. */
  function Contents(content: map<nat, Data>, events: seq<Event>): map<nat, Data> {
    if events == [] then content
    else
      var before, e := Contents(content, events[..|events| - 1]), events[|events| - 1];
      if e.Ask? then W.Patched(before, e.bio) else before
  }

  function Answers(content: map<nat, Data>, events: seq<Event>): seq<Data> {
    if events == [] then []
    else
      var before, e := events[..|events| - 1], events[|events| - 1];
      Answers(content, before) + if e.Ask? then [W.Reply(W.BlockOf(Contents(content, before), e.bio.dbn), e.bio)] else []
  }

  lemma OneEvent(content: map<nat, Data>, events: seq<Event>, n: nat)
    requires n < |events|
    ensures events[..n + 1][..n] == events[..n] && events[..n + 1][n] == events[n]
    ensures var before := Contents(content, events[..n]);
            && Contents(content, events[..n + 1]) == (if events[n].Ask? then W.Patched(before, events[n].bio) else before)
            && Answers(content, events[..n + 1])
               == Answers(content, events[..n]) + if events[n].Ask? then [W.Reply(W.BlockOf(before, events[n].bio.dbn), events[n].bio)] else []
  {
    assert events[..n + 1][..n] == events[..n];
  }

  // ----- a cut and a restart of a quiet cache -----

  /** What a power cut leaves of a quiet cache, but for the slots and the counters. */
  method Left(k: Cache) returns (u: State)
    requires k.Valid() && P.AtRest(k.Now())
    ensures |k.md| == |k.c.setOf| && u == Crash(k.c, k.Now()).(slots := u.slots, ctr := u.ctr)
  {
    k.Sizes();
    ReachesShaped(k.c, k.initial, k.run, k.steps, k.Now());
    u := State(k.slots[..], k.ssd, k.disk, k.md, seq(|k.heads|, n => MdHead(MdIdle, [], [])), map[], k.log, k.nextId, k.lost, k.logical, k.torn,
               Counters(k.cached, k.dirty, k.cleaning, k.setDirty, k.setFallow, k.setCleaning));
    NothingCut(k.c, k.Now());
  }

  lemma NothingCut(c: Config, s: State)
    requires s.bios == map[] && |s.md| == |c.setOf|
    ensures var t := Crash(c, s); t.logical == s.logical && t.torn == s.torn && t.lost == s.lost && t.log == s.log
  {
  }

  /** What a clean removal leaves: the record of every slot is stored. */
  method Stored(k: Cache) returns (u: State)
    requires k.Valid()
    ensures k.slots.Length == |k.c.setOf| && u == Remount(k.c, k.Now()).(slots := u.slots, ctr := u.ctr)
  {
    k.Sizes();
    u := State(k.slots[..], k.ssd, k.disk, seq(k.slots.Length, n requires 0 <= n < k.slots.Length reads k, k.slots => Rec(k.slots[n].dbn, k.slots[n].bits.valid, k.slots[n].bits.invalid, k.slots[n].bits.dirty)),
               k.heads, k.bios, k.log, k.nextId, k.lost, k.logical, k.torn,
               Counters(k.cached, k.dirty, k.cleaning, k.setDirty, k.setFallow, k.setCleaning));
  }

  // ----- event by event -----

  /** A cache, the index of a set and its reclaim lists made since, with arrays of their own. */
  twostate predicate New(new k: Cache, new cs: CacheSet, new rs: ReclaimSet) {
    && fresh(k) && fresh(k.slots) && fresh(cs) && fresh(cs.bits) && fresh(cs.dbn) && fresh(cs.hashPrev) && fresh(cs.hashNext) && fresh(cs.buckets)
    && fresh(rs) && fresh(rs.lruPrev) && fresh(rs.lruNext) && fresh(rs.isWarm) && fresh(rs.useCnt)
  }

  /** Nothing is under way, and the index and the lists of set j agree with the slots. */
  ghost predicate Ready(k: Cache, cs: CacheSet, rs: ReclaimSet, j: nat)
    reads k, k.slots, cs, cs.bits, cs.dbn, cs.hashPrev, cs.hashNext, cs.buckets, rs, rs.lruPrev, rs.lruNext, rs.isWarm, rs.useCnt
  {
    InStep(k, cs, j, None) && Reclaims(cs, rs) && P.AtRest(k.Now())
  }

  /** The requests are of set j. */
  predicate Local(c: Config, e: Event, j: nat) { e.Ask? ==> c.hashBlock(e.bio.dbn) == j }

  lemma RestAgain(c: Config, disk: map<nat, Data>, run: seq<State>, steps: seq<Step>, s: State, step: Step)
    requires Reaches(c, disk, run, steps, s) && P.AtRest(s) && (step.CleanRestart? || step.PowerLoss?)
    ensures Enabled(c, s, step) && P.AtRest(Apply(c, s, step)) && Apply(c, s, step).logical == s.logical
  {
    ReachesShaped(c, disk, run, steps, s);
    NothingCut(c, s);
    ReloadRests(c, disk, run, steps, s, step);
    forall i: nat | i < |Apply(c, s, step).slots| ensures Apply(c, s, step).slots[i].work.NoWork? { assert Resting(Apply(c, s, step).slots, i); }
  }

  /** The cache goes down and comes back. */
  method Again(k: Cache, clean: bool, j: nat, start: nat, n: nat, jhash: nat -> nat, hotPct: nat) returns (k': Cache, cs: CacheSet, rs: ReclaimSet)
    requires k.Valid() && P.AtRest(k.Now()) && SetAt(k.c, j, start, n) && 0 < n <= Links.NULL && hotPct <= 100
    ensures Ready(k', cs, rs, j) && k'.c == k.c && k'.logical == k.logical && New(k', cs, rs)
  {
    ghost var step := if clean then CleanRestart else PowerLoss;
    RestAgain(k.c, k.initial, k.run, k.steps, k.Now(), step);
    var u;
    if clean { u := Stored(k); } else { u := Left(k); }
    k', cs, rs := Reload(k, u, clean, step, j, start, n, jhash, hotPct);
  }

  method Next(k: Cache, cs: CacheSet, rs: ReclaimSet, e: Event, j: nat, start: nat, n: nat, jhash: nat -> nat, hotPct: nat, lru: bool, threshold: int)
      returns (k': Cache, cs': CacheSet, rs': ReclaimSet, replies: seq<Data>)
    requires Ready(k, cs, rs, j) && Local(k.c, e, j) && SetAt(k.c, j, start, n) && 0 < n <= Links.NULL && hotPct <= 100
    modifies k, k.slots, cs, cs.bits, cs.dbn, cs.hashPrev, cs.hashNext, cs.buckets, rs, rs.lruPrev, rs.lruNext, rs.isWarm, rs.useCnt
    ensures Ready(k', cs', rs', j) && k'.c == k.c
    ensures k'.logical == if e.Ask? then W.Patched(old(k.logical), e.bio) else old(k.logical)
    ensures replies == if e.Ask? then [W.Reply(W.BlockOf(old(k.logical), e.bio.dbn), e.bio)] else []
    ensures (k' == k && cs' == cs && rs' == rs) || New(k', cs', rs')
  {
    k', cs', rs', replies := k, cs, rs, [];
    if e.Ask? {
      var result := W.Serve(k, cs, rs, e.bio, e.skip, lru, threshold, j);
      replies := [result];
    } else if e.CleanUp? {
      W.CleanOne(k, cs, e.i, j);
    } else {
      k', cs', rs' := Again(k, e.Restart?, j, start, n, jhash, hotPct);
    }
  }

  /** The events up to the m-th have happened, and then it happens too. */
  method Happen(k: Cache, cs: CacheSet, rs: ReclaimSet, events: seq<Event>, m: nat, ghost content: map<nat, Data>,
                j: nat, start: nat, n: nat, jhash: nat -> nat, hotPct: nat, lru: bool, threshold: int)
      returns (k': Cache, cs': CacheSet, rs': ReclaimSet, replies: seq<Data>)
    requires m < |events| && Ready(k, cs, rs, j) && Local(k.c, events[m], j) && SetAt(k.c, j, start, n) && 0 < n <= Links.NULL && hotPct <= 100
    requires k.logical == Contents(content, events[..m])
    modifies k, k.slots, cs, cs.bits, cs.dbn, cs.hashPrev, cs.hashNext, cs.buckets, rs, rs.lruPrev, rs.lruNext, rs.isWarm, rs.useCnt
    ensures Ready(k', cs', rs', j) && k'.c == k.c && k'.logical == Contents(content, events[..m + 1])
    ensures Answers(content, events[..m]) + replies == Answers(content, events[..m + 1])
    ensures (k' == k && cs' == cs && rs' == rs) || New(k', cs', rs')
  {
    OneEvent(content, events, m);
    k', cs', rs', replies := Next(k, cs, rs, events[m], j, start, n, jhash, hotPct, lru, threshold);
  }

  /** The events from the m-th on happen, one after the other. */
  method GoOn(k: Cache, cs: CacheSet, rs: ReclaimSet, events: seq<Event>, m: nat, had: seq<Data>, ghost content: map<nat, Data>,
              j: nat, start: nat, n: nat, jhash: nat -> nat, hotPct: nat, lru: bool, threshold: int)
      returns (answers: seq<Data>)
    requires m <= |events| && Ready(k, cs, rs, j) && SetAt(k.c, j, start, n) && 0 < n <= Links.NULL && hotPct <= 100
    requires forall q {:trigger events[q]} :: m <= q < |events| ==> Local(k.c, events[q], j)
    requires k.logical == Contents(content, events[..m]) && had == Answers(content, events[..m])
    modifies k, k.slots, cs, cs.bits, cs.dbn, cs.hashPrev, cs.hashNext, cs.buckets, rs, rs.lruPrev, rs.lruNext, rs.isWarm, rs.useCnt
    ensures answers == Answers(content, events)
    decreases |events| - m
  {
    if m == |events| {
      assert events[..m] == events;
      return had;
    }
    var k', cs', rs', replies := Happen(k, cs, rs, events, m, content, j, start, n, jhash, hotPct, lru, threshold);
    answers := GoOn(k', cs', rs', events, m + 1, had + replies, content, j, start, n, jhash, hotPct, lru, threshold);
  }

  /** From its creation on the cache answers every request of a set as the disk alone would have,
      in every mode, whatever the index and the reclaim lists have made of it, and whatever
      cleanings, power cuts and restarts there have been between the requests. */
  method Live(config: Config, content: map<nat, Data>, events: seq<Event>, j: nat, start: nat, n: nat, jhash: nat -> nat, hotPct: nat, lru: bool, threshold: int)
      returns (answers: seq<Data>)
    requires WellFormed(config) && SetAt(config, j, start, n) && 0 < n <= Links.NULL && hotPct <= 100
    requires forall m {:trigger events[m]} :: 0 <= m < |events| ==> Local(config, events[m], j)
    ensures answers == Answers(content, events)
  {
    var k, cs, rs := Create(config, content, j, start, n, jhash, hotPct);
    answers := GoOn(k, cs, rs, events, 0, [], content, j, start, n, jhash, hotPct, lru, threshold);
  }
}
