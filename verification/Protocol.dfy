/** The I/O protocol of the cache as a step system.

    A state holds the cache slots with the job or drain each one carries, the
    SSD, the disk, the on-SSD metadata, the per-metadata-block write heads and
    every unfinished request. A step is one critical section of the driver or
    one device I/O taking effect; steps interleave freely. */
module Protocol {
  import opened Types

  /** What is fixed at creation. `setOf` and `mdOf` give the cache set and the
      metadata block of a slot, `hashBlock` the set a block belongs to. */
  datatype Config = Config(mode: Mode, size: nat, mdBlocks: nat,
                           setOf: seq<nat>, mdOf: seq<nat>, sets: nat, hashBlock: nat -> nat)

  ghost predicate WellFormed(c: Config) {
    && |c.setOf| == c.size && |c.mdOf| == c.size
    && (forall i {:trigger c.setOf[i]} :: 0 <= i < c.size ==> c.setOf[i] < c.sets)
    && (forall i {:trigger c.mdOf[i]} :: 0 <= i < c.size ==> c.mdOf[i] < c.mdBlocks)
  }

  /** An entry of the pending table: a request and whether its action is INVALIDATE. */
  datatype Entry = Entry(id: nat, inval: bool)

  /** The job (or drain) that owns a busy slot, and how far its I/O has got. */
  datatype Work =
    | NoWork
    | ReadCache(id: nat, got: Option<Data>)
    | ReadDisk(id: nat, got: Option<Data>)
    | ReadFill(id: nat, data: Data, stored: bool)
    | WriteCache(id: nat, stored: bool, mirrored: bool)
    | MdDirty(id: nat)                              // WRITECACHE handed to md_write
    | WriteDisk(copy: Option<Data>, stored: bool)   // kcopyd cleaning
    | MdClean                                       // WRITEDISK handed to md_write
    | Finish                                        // on the pending-jobs list
    | Limbo                                         // INVALID, pending entries not yet detached
    | Drain(rest: seq<Entry>)                       // replaying detached entries

  datatype Slot = Slot(bits: Bits, dbn: nat, nrQueued: int, pend: seq<Entry>, work: Work)

  /** Progress of the one metadata write of a metadata block. */
  datatype MdIo =
    | MdIdle                                              // nr_in_prog == 0
    | MdScheduled                                         // pushed, not kicked off
    | MdWriting(snap: map<nat, Rec>, applied: set<nat>)   // write in flight
    | MdCompleting                                        // md_write_done walking its list

  /** `active` is the job being written followed by md_io_inprog, `queue` is queued_updates. */
  datatype MdHead = MdHead(io: MdIo, active: seq<nat>, queue: seq<nat>)

  /** Where an unfinished request is held. */
  datatype Place =
    | Fresh              // just submitted, in the hands of its submitter
    | Hand               // in the hands of the worker that completes or replays it
    | OnSlot(i: nat)     // by the job of slot i
    | Queued(i: nat)     // in the pending table for slot i
    | Detached(i: nat)   // on the private list of the drain of slot i
    | Uncached           // by a job with index -1

  /** `pre` is the content its block had when it was submitted, `alone` whether no
      other write of the block has been unfinished at the same time; `ran` and
      `got` describe its current uncached I/O. */
  datatype Flight = Flight(bio: Bio, place: Place, pre: Data, alone: bool, ran: bool, got: Data)

  /** A bio_endio: what a read returned, what a write left in its block. */
  datatype Ack = Ack(id: nat, bio: Bio, pre: Data, alone: bool, result: Data)

  /** The driver's counters, overall and per set. */
  datatype Counters = Counters(cached: int, dirty: int, cleaning: int,
                               setDirty: seq<int>, setFallow: seq<int>, setCleaning: seq<int>)

  /** `logical` is the content of each block after the last acknowledged write of it;
      `torn` are the blocks that have had two unfinished writes at once, or an unfinished
      one at a crash, since the last write of the whole block that met no other; `lost`
      are the requests a crash cut off. */
  datatype State = State(slots: seq<Slot>, ssd: seq<Data>, disk: map<nat, Data>, md: seq<Rec>,
                         heads: seq<MdHead>, bios: map<nat, Flight>, log: seq<Ack>, nextId: nat,
                         lost: set<nat>, logical: map<nat, Data>, torn: set<nat>, ctr: Counters)

  function OnDisk(s: State, b: nat): Data { At(s.disk, b, map[]) }
  function Logical(s: State, b: nat): Data { At(s.logical, b, map[]) }

  // ----- shape of the pieces -----

  predicate Idx(c: Config, s: State, i: nat) {
    |s.slots| == |s.ssd| == |s.md| == c.size && |s.heads| == c.mdBlocks
    && |c.setOf| == |c.mdOf| == c.size && i < c.size && c.mdOf[i] < c.mdBlocks && c.setOf[i] < c.sets
    && |s.ctr.setDirty| == |s.ctr.setFallow| == |s.ctr.setCleaning| == c.sets
  }

  predicate InHand(s: State, x: nat) {
    x in s.bios && (s.bios[x].place == Fresh || s.bios[x].place == Hand)
  }

  function Rest(w: Work): seq<Entry> { if w.Drain? then w.rest else [] }

  function WithSlot(s: State, i: nat, sl: Slot): State
    requires i < |s.slots|
  {
    s.(slots := s.slots[i := sl])
  }

  function WithWork(s: State, i: nat, w: Work): State
    requires i < |s.slots|
  {
    WithSlot(s, i, s.slots[i].(work := w))
  }

  function Moved(s: State, x: nat, p: Place): State {
    if x in s.bios then s.(bios := s.bios[x := s.bios[x].(place := p)]) else s
  }

  function BioOf(s: State, x: nat): Bio {
    if x in s.bios then s.bios[x].bio else Bio(false, 0, true, map[])
  }

  function BumpAt(q: seq<int>, k: nat, d: int): seq<int>
    requires k < |q|
  {
    q[k := q[k] + d]
  }

  /** A write of a whole block that met no other leaves nothing of what was before. */
  function Mended(torn: set<nat>, f: Flight): set<nat> {
    if f.bio.write && f.bio.full && f.alone then torn - {f.bio.dbn} else torn
  }

  /** bio_endio(x): the request leaves and is logged; a write settles its block. */
  function EndBio(s: State, x: nat, result: Data): State {
    if x !in s.bios then s else
    var f := s.bios[x];
    s.(bios := s.bios - {x},
       log := s.log + [Ack(x, f.bio, f.pre, f.alone, result)],
       torn := Mended(s.torn, f),
       logical := if f.bio.write then s.logical[f.bio.dbn := result] else s.logical)
  }

  // ----- primitives: the updates critical sections are made of -----

  /** A request enters flashcache_map. */
  function NewBio(s: State, bio: Bio): State {
    var others := exists y | y in s.bios :: s.bios[y].bio.write && s.bios[y].bio.dbn == bio.dbn;
    var seen := if bio.write
                then map y | y in s.bios :: if s.bios[y].bio.dbn == bio.dbn then s.bios[y].(alone := false) else s.bios[y]
                else s.bios;
    s.(bios := seen[s.nextId := Flight(bio, Fresh, Logical(s, bio.dbn), !others, false, map[])],
       nextId := s.nextId + 1,
       torn := if bio.write && others then s.torn + {bio.dbn} else s.torn)
  }

  /** flashcache_clear_fallow */
  function ClearFallow(c: Config, s: State, i: nat): State
    requires Idx(c, s, i)
  {
    var sl := s.slots[i];
    if c.mode == WriteBack && (sl.bits.fallow1 || sl.bits.fallow2) then
      WithSlot(s, i, sl.(bits := sl.bits.Young())).(
      ctr := if sl.bits.fallow2 then s.ctr.(setFallow := BumpAt(s.ctr.setFallow, c.setOf[i], -1)) else s.ctr)
    else s
  }

  /** flashcache_detect_fallow */
  function DetectFallow(c: Config, s: State, i: nat): State
    requires Idx(c, s, i)
  {
    var sl := s.slots[i];
    if c.mode != WriteBack then s
    else if sl.bits.dirty && !sl.bits.Busy() then
      if !sl.bits.fallow1 then WithSlot(s, i, sl.(bits := sl.bits.(fallow1 := true)))
      else if !sl.bits.fallow2 then
        WithSlot(s, i, sl.(bits := sl.bits.(fallow2 := true))).(
        ctr := s.ctr.(setFallow := BumpAt(s.ctr.setFallow, c.setOf[i], 1)))
      else s
    else s
  }

  /** flashcache_enq_pending */
  function Enqueue(s: State, x: nat, i: nat, inval: bool): State
    requires i < |s.slots|
  {
    var sl := s.slots[i];
    Moved(WithSlot(s, i, sl.(pend := sl.pend + [Entry(x, inval)], nrQueued := sl.nrQueued + 1)), x, Queued(i))
  }

  /** An idle clean slot is invalidated on the spot. */
  function Invalidate(s: State, i: nat): State
    requires i < |s.slots|
  {
    WithSlot(s, i, s.slots[i].(bits := INVALID)).(ctr := s.ctr.(cached := s.ctr.cached - 1))
  }

  /** flashcache_start_uncached_io */
  function StartUncached(s: State, x: nat): State {
    if x in s.bios then s.(bios := s.bios[x := s.bios[x].(place := Uncached, ran := false)]) else s
  }

  /** Mark a slot DISKWRITEINPROG and run flashcache_dirty_writeback on it. */
  function StartClean(c: Config, s: State, i: nat): State
    requires Idx(c, s, i)
  {
    DirtyWriteback(c, ClearFallow(c, s, i), i)
  }

  function DirtyWriteback(c: Config, s: State, i: nat): State
    requires Idx(c, s, i)
  {
    var sl := s.slots[i];
    WithSlot(s, i, sl.(bits := sl.bits.Idle().(diskWrite := true), work := WriteDisk(None, false))).(
    ctr := s.ctr.(cleaning := s.ctr.cleaning + 1, setCleaning := BumpAt(s.ctr.setCleaning, c.setOf[i], 1)))
  }

  function StartReadHit(s: State, x: nat, i: nat): State
    requires i < |s.slots|
  {
    var sl := s.slots[i];
    Moved(WithSlot(s, i, sl.(bits := sl.bits.(cacheRead := true), work := ReadCache(x, None))), x, OnSlot(i))
  }

  function StartWriteHit(s: State, x: nat, i: nat): State
    requires i < |s.slots|
  {
    var sl := s.slots[i];
    Moved(WithSlot(s, i, sl.(bits := sl.bits.(cacheWrite := true), work := WriteCache(x, false, false))), x, OnSlot(i))
  }

  /** The victim slot takes the block's identity. */
  function Claim(s: State, x: nat, v: nat): State
    requires v < |s.slots|
  {
    var sl := s.slots[v];
    var bio := BioOf(s, x);
    var t := s.(ctr := if sl.bits.valid then s.ctr else s.ctr.(cached := s.ctr.cached + 1));
    var sl' := if bio.write
               then sl.(bits := VALID.(cacheWrite := true), dbn := bio.dbn, work := WriteCache(x, false, false))
               else sl.(bits := VALID.(diskRead := true), dbn := bio.dbn, work := ReadDisk(x, None));
    Moved(WithSlot(t, v, sl'), x, OnSlot(v))
  }

  // ----- the request paths -----

  /** flashcache_hash_lookup in the set of b: the VALID slot with that dbn, or none. */
  ghost predicate IsLookup(c: Config, s: State, b: nat, h: Option<nat>) {
    match h
    case Some(i) => i < |s.slots| && |s.slots| == |c.setOf|
                    && c.setOf[i] == c.hashBlock(b) && s.slots[i].bits.valid && s.slots[i].dbn == b
    case None => |s.slots| == |c.setOf|
                 && forall i {:trigger s.slots[i]} :: 0 <= i < |s.slots| && s.slots[i].bits.valid && s.slots[i].dbn == b
                      ==> c.setOf[i] != c.hashBlock(b)
  }

  /** A slot that lookup may return for a miss. */
  predicate Claimable(c: Config, s: State, b: nat, v: nat) {
    v < |s.slots| && |s.slots| == |c.setOf| && c.setOf[v] == c.hashBlock(b)
    && (s.slots[v].bits == INVALID || s.slots[v].bits == VALID)
  }

  /** flashcache_inval_blocks: the state and whether the request was queued. */
  function InvalBlocks(c: Config, s: State, x: nat, h: Option<nat>): (r: (State, bool))
    requires h.Some? ==> Idx(c, s, h.value)
  {
    match h
    case None => (s, false)
    case Some(i) =>
      var sl := s.slots[i];
      if !sl.bits.Busy() && !sl.bits.dirty && sl.nrQueued == 0 then (Invalidate(s, i), false)
      else
        var t := Enqueue(s, x, i, true);
        if sl.bits.dirty && !sl.bits.Busy() then (StartClean(c, t, i), true) else (t, true)
  }

  /** Uncached, after invalidation. */
  function Bypass(c: Config, s: State, x: nat, h: Option<nat>): State
    requires h.Some? ==> Idx(c, s, h.value)
  {
    var (t, queued) := InvalBlocks(c, s, x, h);
    if queued then t else StartUncached(t, x)
  }

  /** flashcache_read_hit / flashcache_write_hit, after find_valid_dbn. */
  function Hit(c: Config, s: State, x: nat, i: nat): State
    requires Idx(c, s, i)
  {
    var t := ClearFallow(c, s, i);
    var sl := t.slots[i];
    if !sl.bits.Busy() && sl.nrQueued == 0 then
      if BioOf(t, x).write then StartWriteHit(t, x, i) else StartReadHit(t, x, i)
    else Enqueue(t, x, i, false)
  }

  /** flashcache_read / flashcache_write on a miss; `v` is the victim, if lookup found one. */
  function Miss(s: State, x: nat, v: Option<nat>, skip: bool): State
    requires v.Some? ==> v.value < |s.slots|
  {
    if v.None? || (skip && !BioOf(s, x).write) then StartUncached(s, x)
    else Claim(s, x, v.value)
  }

  /** flashcache_map. `skip` is what flashcache_uncacheable or write_only_cache say. */
  function Submit(c: Config, s: State, bio: Bio, h: Option<nat>, v: Option<nat>, skip: bool): State
    requires h.Some? ==> Idx(c, s, h.value)
    requires v.Some? ==> v.value < |s.slots|
  {
    var x := s.nextId;
    var t := NewBio(s, bio);
    if !bio.full || (bio.write && (c.mode == WriteAround || skip)) then Bypass(c, t, x, h)
    else if h.Some? then Hit(c, t, x, h.value)
    else Miss(t, x, v, skip)
  }

  // ----- completions -----

  /** The tail of a job: clear the I/O bits, or leave them and go on the pending-jobs list. */
  function Release(s: State, i: nat): State
    requires i < |s.slots|
  {
    var sl := s.slots[i];
    if sl.nrQueued > 0 then WithWork(s, i, Finish)
    else WithSlot(s, i, sl.(bits := sl.bits.Idle(), work := NoWork))
  }

  /** flashcache_md_write */
  function MdWrite(c: Config, s: State, i: nat): State
    requires Idx(c, s, i)
  {
    var m := c.mdOf[i];
    var h := s.heads[m];
    s.(heads := s.heads[m := if h.io != MdIdle then h.(queue := h.queue + [i])
                             else MdHead(MdScheduled, [i], [])])
  }

  /** flashcache_io_callback */
  function IoCallback(c: Config, s: State, i: nat): State
    requires Idx(c, s, i)
  {
    match s.slots[i].work
    case ReadDisk(x, got) =>
      if got.Some? then WithWork(s, i, ReadFill(x, got.value, false)) else s
    case ReadCache(x, got) =>
      if got.Some? then Release(EndBio(s, x, got.value), i) else s
    case ReadFill(x, data, _) =>
      Release(EndBio(s, x, data), i)
    case WriteCache(x, _, _) =>
      if c.mode == WriteBack then
        if !s.slots[i].bits.dirty then MdWrite(c, WithWork(s, i, MdDirty(x)), i)
        else Release(EndBio(s, x, s.ssd[i]), i)
      else Release(EndBio(s, x, OnDisk(s, s.slots[i].dbn)), i)
    case _ => s
  }

  /** flashcache_kcopyd_callback */
  function KcopydCallback(c: Config, s: State, i: nat): State
    requires Idx(c, s, i)
  {
    MdWrite(c, WithWork(s, i, MdClean), i)
  }

  /** What kickoff writes for slot k: the job's outcome for a job of the batch, else the in-core word. */
  function Snapshot(s: State, batch: seq<nat>, k: nat): Rec
    requires k < |s.slots|
  {
    var sl := s.slots[k];
    if k in batch then Rec(sl.dbn, true, false, sl.work.MdDirty?)
    else Rec(sl.dbn, sl.bits.valid, sl.bits.invalid, sl.bits.dirty)
  }

  /** flashcache_md_write_kickoff */
  function MdKickoff(c: Config, s: State, m: nat): State
    requires m < |s.heads| && |s.slots| == |c.mdOf|
  {
    var h := s.heads[m];
    var batch := h.active + h.queue;
    var snap := map k | 0 <= k < |s.slots| && c.mdOf[k] == m :: Snapshot(s, batch, k);
    s.(heads := s.heads[m := MdHead(MdWriting(snap, {}), batch, [])])
  }

  /** flashcache_md_write_done takes the whole batch off the head. */
  function MdDone(s: State, m: nat): State
    requires m < |s.heads|
  {
    s.(heads := s.heads[m := s.heads[m].(io := MdCompleting)])
  }

  /** ... then finishes one job of the list ... */
  function MdDoneOne(c: Config, s: State, m: nat): State
    requires m < |s.heads| && s.heads[m].active != [] && Idx(c, s, s.heads[m].active[0])
  {
    MdDoneJob(c, s, s.heads[m].active[0]).(heads := s.heads[m := s.heads[m].(active := s.heads[m].active[1..])])
  }

  function MdDoneJob(c: Config, s: State, i: nat): State
    requires Idx(c, s, i)
  {
    var sl := s.slots[i];
    match sl.work
    case MdDirty(x) =>
      var grow := if sl.bits.dirty then 0 else 1;
      var t := WithSlot(s, i, sl.(bits := sl.bits.(dirty := true))).(
               ctr := s.ctr.(dirty := s.ctr.dirty + grow, setDirty := BumpAt(s.ctr.setDirty, c.setOf[i], grow)));
      Release(EndBio(t, x, t.ssd[i]), i)
    case _ =>
      var t := WithSlot(s, i, sl.(bits := sl.bits.(dirty := false))).(
               ctr := s.ctr.(dirty := s.ctr.dirty - 1, setDirty := BumpAt(s.ctr.setDirty, c.setOf[i], -1),
                             cleaning := s.ctr.cleaning - 1, setCleaning := BumpAt(s.ctr.setCleaning, c.setOf[i], -1)));
      Release(t, i)
  }

  /** ... and at last starts the next queued update, or lets the head go idle. */
  function MdNext(s: State, m: nat): State
    requires m < |s.heads|
  {
    var h := s.heads[m];
    s.(heads := s.heads[m := if h.queue != [] then MdHead(MdScheduled, [h.queue[0]], h.queue[1..])
                             else MdHead(MdIdle, [], [])])
  }

  /** flashcache_do_pending_noerror, up to the first unlock. */
  function DoPending(c: Config, s: State, i: nat): State
    requires Idx(c, s, i)
  {
    var sl := s.slots[i];
    if sl.bits.dirty then StartClean(c, s, i)
    else WithSlot(s, i, sl.(bits := sl.bits.(valid := false, invalid := true), work := Limbo)).(
         ctr := s.ctr.(cached := s.ctr.cached - 1))
  }

  /** flashcache_deq_pending */
  function Dequeue(s: State, i: nat): State
    requires i < |s.slots|
  {
    var sl := s.slots[i];
    var moved := set e | e in sl.pend :: e.id;
    WithSlot(s, i, sl.(pend := [], work := Drain(sl.pend))).(
    bios := map y | y in s.bios :: if y in moved then s.bios[y].(place := Detached(i)) else s.bios[y])
  }

  function DetachNext(s: State, i: nat): State
    requires i < |s.slots| && s.slots[i].work.Drain? && s.slots[i].work.rest != []
  {
    var sl := s.slots[i];
    var x := sl.work.rest[0].id;
    var t := WithSlot(s, i, sl.(work := Drain(sl.work.rest[1..]), nrQueued := sl.nrQueued - 1));
    if x in t.bios then t.(bios := t.bios[x := t.bios[x].(place := Hand, ran := false)]) else t
  }

  /** One turn of the loop of flashcache_do_pending_noerror. */
  function DrainOne(c: Config, s: State, i: nat, h: Option<nat>): State
    requires i < |s.slots| && s.slots[i].work.Drain? && s.slots[i].work.rest != []
    requires h.Some? ==> Idx(c, s, h.value)
  {
    var e := s.slots[i].work.rest[0];
    var t := DetachNext(s, i);
    if e.inval then Bypass(c, t, e.id, h)
    else StartUncached(t, e.id)
  }

  function DrainEnd(s: State, i: nat): State
    requires i < |s.slots|
  {
    WithSlot(s, i, s.slots[i].(bits := s.slots[i].bits.Idle(), work := NoWork))
  }

  /** A request in hand is finished: a read returns what it got, a write leaves the disk's content. */
  function EndInHand(s: State, x: nat): State {
    EndBio(s, x, if BioOf(s, x).write then OnDisk(s, BioOf(s, x).dbn) else if x in s.bios then s.bios[x].got else map[])
  }

  /** flashcache_uncached_io_complete */
  function UncachedComplete(c: Config, s: State, x: nat, h: Option<nat>): State
    requires h.Some? ==> Idx(c, s, h.value)
  {
    var (t, queued) := InvalBlocks(c, Moved(s, x, Hand), x, h);
    if queued then t else EndInHand(t, x)
  }

  // ----- device I/O taking effect -----

  function FxReadCache(s: State, i: nat): State
    requires i < |s.slots| && i < |s.ssd| && s.slots[i].work.ReadCache?
  {
    WithWork(s, i, ReadCache(s.slots[i].work.id, Some(s.ssd[i])))
  }

  function FxReadDisk(s: State, i: nat): State
    requires i < |s.slots| && s.slots[i].work.ReadDisk?
  {
    WithWork(s, i, ReadDisk(s.slots[i].work.id, Some(OnDisk(s, s.slots[i].dbn))))
  }

  function FxReadFill(s: State, i: nat): State
    requires i < |s.slots| && i < |s.ssd| && s.slots[i].work.ReadFill?
  {
    var ReadFill(x, data, _) := s.slots[i].work;
    WithWork(s, i, ReadFill(x, data, true)).(ssd := s.ssd[i := data])
  }

  function FxWriteCache(s: State, i: nat): State
    requires i < |s.slots| && i < |s.ssd| && s.slots[i].work.WriteCache?
  {
    var WriteCache(x, _, mirrored) := s.slots[i].work;
    WithWork(s, i, WriteCache(x, true, mirrored)).(ssd := s.ssd[i := BioOf(s, x).payload])
  }

  /** The disk half of a write-through write. */
  function FxMirror(s: State, i: nat): State
    requires i < |s.slots| && s.slots[i].work.WriteCache?
  {
    var WriteCache(x, stored, _) := s.slots[i].work;
    WithWork(s, i, WriteCache(x, stored, true)).(disk := s.disk[s.slots[i].dbn := BioOf(s, x).payload])
  }

  function FxCopyRead(s: State, i: nat): State
    requires i < |s.slots| && i < |s.ssd|
  {
    WithWork(s, i, WriteDisk(Some(s.ssd[i]), false))
  }

  function FxCopyWrite(s: State, i: nat): State
    requires i < |s.slots| && s.slots[i].work.WriteDisk? && s.slots[i].work.copy.Some?
  {
    var data := s.slots[i].work.copy.value;
    WithWork(s, i, WriteDisk(Some(data), true)).(disk := s.disk[s.slots[i].dbn := data])
  }

  function FxUncached(s: State, x: nat): State {
    if x !in s.bios then s else
    var f := s.bios[x];
    if f.bio.write
    then s.(disk := s.disk[f.bio.dbn := Patch(OnDisk(s, f.bio.dbn), f.bio)], bios := s.bios[x := f.(ran := true)])
    else s.(bios := s.bios[x := f.(ran := true, got := OnDisk(s, f.bio.dbn))])
  }

  /** The metadata write of block m reaches the record of slot k. */
  function FxMetadata(s: State, m: nat, k: nat): State
    requires m < |s.heads| && s.heads[m].io.MdWriting? && k in s.heads[m].io.snap && k < |s.md|
  {
    var io := s.heads[m].io;
    s.(md := s.md[k := io.snap[k]], heads := s.heads[m := s.heads[m].(io := io.(applied := io.applied + {k}))])
  }

  // ----- crash and reload -----

  /** What flashcache_writeback_load keeps of a record: all of it after a clean
      shutdown, only DIRTY records after an unclean one. */
  function Reloaded(r: Rec, clean: bool): Slot {
    if clean || r.dirty
    then Slot(INVALID.(invalid := r.invalid, valid := r.valid, dirty := r.dirty), r.dbn, 0, [], NoWork)
    else Slot(INVALID, 0, 0, [], NoWork)
  }

  ghost function Recovered(s: State, b: nat): Data {
    if exists i :: 0 <= i < |s.md| && i < |s.ssd| && s.md[i].dirty && s.md[i].dbn == b
    then var i :| 0 <= i < |s.md| && i < |s.ssd| && s.md[i].dirty && s.md[i].dbn == b; s.ssd[i]
    else OnDisk(s, b)
  }

  function Count(slots: seq<Slot>, q: Slot -> bool): nat {
    if slots == [] then 0 else Count(slots[..|slots| - 1], q) + (if q(slots[|slots| - 1]) then 1 else 0)
  }

  function CountIn(slots: seq<Slot>, setOf: seq<nat>, set_: nat, q: Slot -> bool): nat
    requires |slots| == |setOf|
  {
    if slots == [] then 0
    else
      var n := |slots| - 1;
      CountIn(slots[..n], setOf[..n], set_, q) + (if setOf[n] == set_ && q(slots[n]) then 1 else 0)
  }

  predicate IsCached(sl: Slot) { sl.bits.valid }
  predicate IsDirty(sl: Slot) { sl.bits.dirty }
  predicate IsFallow(sl: Slot) { sl.bits.fallow2 }
  predicate IsCleaning(sl: Slot) { sl.work.WriteDisk? || sl.work.MdClean? }

  /** The counting loop at the end of flashcache_ctr. */
  function Recount(c: Config, slots: seq<Slot>): Counters
    requires |slots| == |c.setOf|
  {
    Counters(Count(slots, IsCached), Count(slots, IsDirty), 0,
             seq(c.sets, k requires 0 <= k => CountIn(slots, c.setOf, k, IsDirty)),
             seq(c.sets, k => 0), seq(c.sets, k => 0))
  }

  /** Power loss at any point, then a reload from the SSD. Unfinished requests are gone. */
  ghost function Crash(c: Config, s: State): State
    requires |s.md| == |c.setOf|
  {
    var slots := seq(|s.md|, k requires 0 <= k < |s.md| => Reloaded(s.md[k], false));
    var cut := set x | x in s.bios && s.bios[x].bio.write :: s.bios[x].bio.dbn;
    s.(slots := slots,
       heads := seq(|s.heads|, k => MdHead(MdIdle, [], [])),
       bios := map[], lost := s.lost + s.bios.Keys,
       torn := s.torn + cut,
       logical := s.logical + (map b | b in cut :: Recovered(s, b)),
       ctr := Recount(c, slots))
  }

  /** Fast removal of a quiet cache followed by a reload: every record is stored and loaded. */
  function Remount(c: Config, s: State): State
    requires |s.slots| == |c.setOf|
  {
    var md := seq(|s.slots|, k requires 0 <= k < |s.slots| => Snapshot(s, [], k));
    var slots := seq(|md|, k requires 0 <= k < |md| => Reloaded(md[k], true));
    s.(md := md, slots := slots, ctr := Recount(c, slots))
  }
}
