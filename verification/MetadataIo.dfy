/** The on-SSD metadata as it is stored at a clean removal and loaded at a restart: slot
    records packed 32 to a sector, moved through one 256 KB buffer. */
module MetadataIo {
  import opened Types
  import P = Protocol

  const IO_BYTES := 262144       // METADATA_IO_BLOCKSIZE
  const RECORD_BYTES := 16       // sizeof(struct flash_cacheblock)
  const SECTOR_BYTES := 512
  const BUFFER := 16384          // records in the buffer
  const PER_SECTOR := 32         // records in a sector

  const WORD := 0x1_0000_0000_0000_0000   // sector_t is 64 bits
  const INTS := 0x1_0000_0000             // an int is 32
  const COUNTED := 0x8000_0000            // slots an int counts before it turns negative

  /** How a store or a load ends: as it should, in a panic, or by touching memory in front of the slots. */
  datatype Ending = Done | Panicked | OutOfBounds

  /** An int after n increments from zero, for as long as it is compared. */
  function Counter(n: nat): int { if n < COUNTED then n else -COUNTED }

  /** An int as the 64-bit number it is compared as. */
  function Unsigned(i: int): int { if i < 0 then i + WORD else i }

  function Counted(size: nat): nat { if size < COUNTED then size else COUNTED }

  /** What flashcache_ctr accepts: a power of two up to 128 sectors. */
  predicate LegalBlock(m: nat) { PowerOfTwo(m) && m <= 128 }

  predicate PowerOfTwo(n: nat) { n == 1 || (n > 1 && n % 2 == 0 && PowerOfTwo(n / 2)) }

  lemma LegalBlocks(m: nat)
    requires LegalBlock(m)
    ensures m == 1 || m == 2 || m == 4 || m == 8 || m == 16 || m == 32 || m == 64 || m == 128
  {
    if m > 1 { LegalBlocks(m / 2); }
  }

  function SlotsPerBlock(m: nat): nat { m * SECTOR_BYTES / RECORD_BYTES }

  function BlocksPerIo(m: nat): nat
    requires m > 0
  {
    IO_BYTES / (m * SECTOR_BYTES)
  }

  lemma BlockFacts(m: nat)
    requires LegalBlock(m)
    ensures SlotsPerBlock(m) == PER_SECTOR * m && SlotsPerBlock(m) * BlocksPerIo(m) == BUFFER
    ensures m > 0 && BlocksPerIo(m) * m == BUFFER / PER_SECTOR
  {
    LegalBlocks(m);
  }

  /** The SSD, sector by sector, as far as its sectors hold slot records. */
  type Ssd = map<nat, seq<Rec>>

  /** The record of slot i: metadata block 1 + i / SlotsPerBlock, and so many records into it. */
  function RecAt(ssd: Ssd, m: nat, i: nat): Rec
    requires m > 0
  {
    var sector := m * (1 + i / SlotsPerBlock(m)) + i % SlotsPerBlock(m) / PER_SECTOR;
    var offset := i % SlotsPerBlock(m) % PER_SECTOR;
    if sector in ssd && offset < |ssd[sector]| then ssd[sector][offset] else Rec(0, false, false, false)
  }

  /** Blocks are contiguous, so that is record i counted from sector m. */
  lemma RecPlace(m: nat, i: nat)
    requires LegalBlock(m)
    ensures m * (1 + i / SlotsPerBlock(m)) + i % SlotsPerBlock(m) / PER_SECTOR == m + i / PER_SECTOR
    ensures i % SlotsPerBlock(m) % PER_SECTOR == i % PER_SECTOR
  {
    BlockFacts(m);
    PlaceOf(m, SlotsPerBlock(m), i);
  }

  lemma PlaceOf(m: nat, s: nat, i: nat)
    requires m > 0 && s == PER_SECTOR * m
    ensures m * (1 + i / s) + i % s / PER_SECTOR == m + i / PER_SECTOR && i % s % PER_SECTOR == i % PER_SECTOR
  {
    var q, r := i / s, i % s;
    assert i == q * s + r;
    Times(q, PER_SECTOR, m);
    Split(q * m, r);
  }

  lemma Split(a: nat, r: nat)
    ensures (PER_SECTOR * a + r) / PER_SECTOR == a + r / PER_SECTOR && (PER_SECTOR * a + r) % PER_SECTOR == r % PER_SECTOR
  {
  }

  /** Sectors of metadata so many slots take: m for each begun block. */
  function Sectors(m: nat, size: nat): nat {
    var s := SlotsPerBlock(m);
    if s == 0 then 0 else size / s * m + if size % s != 0 then m else 0
  }

  /** One dm_io write of `count` sectors from the buffer. */
  function Written(ssd: Ssd, buf: seq<Rec>, sector: nat, count: nat): Ssd
    requires count * PER_SECTOR <= |buf|
  {
    if count == 0 then ssd
    else Written(ssd, buf, sector, count - 1)[sector + count - 1 := buf[(count - 1) * PER_SECTOR..count * PER_SECTOR]]
  }

  lemma {:induction false} WrittenIs(ssd: Ssd, buf: seq<Rec>, sector: nat, count: nat, d: nat)
    requires count * PER_SECTOR <= |buf|
    ensures sector <= d < sector + count ==>
      d in Written(ssd, buf, sector, count) && Written(ssd, buf, sector, count)[d] == buf[(d - sector) * PER_SECTOR..(d - sector + 1) * PER_SECTOR]
    ensures !(sector <= d < sector + count) ==>
      (d in Written(ssd, buf, sector, count) <==> d in ssd) && (d in ssd ==> Written(ssd, buf, sector, count)[d] == ssd[d])
    decreases count
  {
    if count > 0 { WrittenIs(ssd, buf, sector, count - 1, d); }
  }

  /** Record k counted from sector `base`. */
  function Flat(ssd: Ssd, base: nat, k: nat): Rec {
    var d := base + k / PER_SECTOR;
    if d in ssd && k % PER_SECTOR < |ssd[d]| then ssd[d][k % PER_SECTOR] else Rec(0, false, false, false)
  }

  /** After writing whole sectors of the buffer at record `from`, its records are there, and
      those before are as they were. */
  lemma WrittenFlat(ssd: Ssd, buf: seq<Rec>, base: nat, from: nat, count: nat, k: nat)
    requires count * PER_SECTOR <= |buf| && from % PER_SECTOR == 0 && k < from + count * PER_SECTOR
    ensures Flat(Written(ssd, buf, base + from / PER_SECTOR, count), base, k) == if k < from then Flat(ssd, base, k) else buf[k - from]
  {
    WrittenIs(ssd, buf, base + from / PER_SECTOR, count, base + k / PER_SECTOR);
    if k >= from {
      assert (k - from) / PER_SECTOR == k / PER_SECTOR - from / PER_SECTOR && (k - from) % PER_SECTOR == k % PER_SECTOR;
    }
  }

  /** One dm_io read of `count` sectors: the buffer's first records are replaced. */
  function Read(ssd: Ssd, sector: nat, count: nat, was: seq<Rec>): (buf: seq<Rec>)
    requires count * PER_SECTOR <= |was|
    ensures |buf| == |was|
  {
    seq(|was|, k requires 0 <= k < |was| => if k < count * PER_SECTOR then Flat(ssd, sector, k) else was[k])
  }

  /** What is stored of a slot: its dbn and (INVALID | VALID | DIRTY). */
  function Record(b: Bits, d: nat): Rec { Rec(d, b.valid, b.invalid, b.dirty) }

  lemma DivIs(w: nat, s: nat, q: nat, r: nat)
    requires w == q * s + r && r < s
    ensures w / s == q && w % s == r
  {
    var q', r' := w / s, w % s;
    assert w == q' * s + r';
    Times(q, 1, s);
    Times(q', 1, s);
    if q < q' { Above(q', q + 1, s); } else if q' < q { Above(q, q' + 1, s); }
  }

  lemma Times(a: nat, b: nat, c: nat)
    ensures a * (b * c) == b * (a * c) && (a + b) * c == a * c + b * c
  {
  }

  /** The same with the sizes as variables: s slots and m sectors a block, n blocks a buffer. */
  lemma SectorsOf(m: nat, s: nat, n: nat, c: nat, q: nat, r: nat)
    requires s == PER_SECTOR * m && s * n == BUFFER && r < s && q * s + r < BUFFER
    ensures var done, w := c * BUFFER, q * s + r;
      && (done + w) / s == c * n + q && (done + w) % s == r
      && done / PER_SECTOR == c * n * m && q * s + (if r != 0 then s else 0) <= BUFFER
      && q * s == PER_SECTOR * (q * m) && (c * n + q) * m == c * n * m + q * m
  {
    Times(c, s, n);
    Times(c * n, q, s);
    assert c * BUFFER == (c * n) * s by { Times(s, c, n); }
    DivIs(c * BUFFER + q * s + r, s, c * n + q, r);
    Times(c * n, PER_SECTOR, m);
    Times(c * n, q, m);
    Times(q, PER_SECTOR, m);
    Times(q, 1, s);
    if q >= n { Above(q, n, s); } else { Above(n, q + 1, s); }
  }

  lemma Above(a: nat, b: nat, c: nat)
    requires a >= b
    ensures a * c >= b * c
  {
  }

  /** Whole buffers first, then the rest. */
  lemma SectorsSplit(m: nat, done: nat, w: nat)
    requires LegalBlock(m) && done % BUFFER == 0 && w < BUFFER
    ensures Sectors(m, done + w) == done / PER_SECTOR + Sectors(m, w)
    ensures w <= Sectors(m, w) * PER_SECTOR <= BUFFER
  {
    BlockFacts(m);
    SectorsSplitOf(m, SlotsPerBlock(m), BlocksPerIo(m), done, w);
  }

  lemma SectorsSplitOf(m: nat, s: nat, n: nat, done: nat, w: nat)
    requires m > 0 && s == SlotsPerBlock(m) == PER_SECTOR * m && s * n == BUFFER && done % BUFFER == 0 && w < BUFFER
    ensures Sectors(m, done + w) == done / PER_SECTOR + Sectors(m, w)
    ensures w <= Sectors(m, w) * PER_SECTOR <= BUFFER
  {
    var c, q, r := done / BUFFER, w / s, w % s;
    assert done == c * BUFFER && w == q * s + r;
    SectorsOf(m, s, n, c, q, r);
  }

  ghost predicate Stored(ssd: Ssd, m: nat, bits: seq<Bits>, dbn: seq<nat>, n: nat)
    requires n <= |bits| == |dbn|
  {
    forall k: nat {:trigger Flat(ssd, m, k)} :: k < n ==> Flat(ssd, m, k) == Record(bits[k], dbn[k])
  }

  ghost predicate OnlyWithin(was: Ssd, ssd: Ssd, from: nat, to: nat) {
    forall d: nat {:trigger d in ssd} :: !(from <= d < to) ==> (d in ssd <==> d in was) && (d in ssd ==> ssd[d] == was[d])
  }

  /** One write of the buffer, whose first w records are those of the slots from `from` on. */
  lemma Flushed(was: Ssd, ssd: Ssd, buf: seq<Rec>, m: nat, bits: seq<Bits>, dbn: seq<nat>, from: nat, w: nat, count: nat)
    requires from + w <= |bits| == |dbn| && from % PER_SECTOR == 0 && w <= count * PER_SECTOR <= |buf|
    requires Stored(ssd, m, bits, dbn, from) && forall k {:trigger buf[k]} :: 0 <= k < w ==> buf[k] == Record(bits[from + k], dbn[from + k])
    requires OnlyWithin(was, ssd, m, m + from / PER_SECTOR)
    ensures Stored(Written(ssd, buf, m + from / PER_SECTOR, count), m, bits, dbn, from + w)
    ensures OnlyWithin(was, Written(ssd, buf, m + from / PER_SECTOR, count), m, m + from / PER_SECTOR + count)
  {
    var t := Written(ssd, buf, m + from / PER_SECTOR, count);
    forall k: nat | k < from + w ensures Flat(t, m, k) == Record(bits[k], dbn[k]) { WrittenFlat(ssd, buf, m, from, count, k); }
    forall d: nat | !(m <= d < m + from / PER_SECTOR + count) ensures (d in t <==> d in was) && (d in t ==> t[d] == was[d]) {
      WrittenIs(ssd, buf, m + from / PER_SECTOR, count, d);
    }
  }

  /** Where the slot pointer stands after w slots, `used` of them in the current block. */
  ghost predicate Standing(m: nat, w: nat, used: nat) {
    var s := SlotsPerBlock(m);
    s > 0 && w <= BUFFER && used == w % s
  }

  lemma StandingFirst(m: nat)
    requires LegalBlock(m)
    ensures Standing(m, 0, 0)
  {
    BlockFacts(m);
    DivIs(0, SlotsPerBlock(m), 0, 0);
  }

  /** A slot has been filled in: the pointer moves on, into the next block if this one is full. */
  method NextSlot(m: nat, w: nat, j: nat, ghost used: nat) returns (full: bool, j': nat)
    requires LegalBlock(m) && 0 < w && Standing(m, w - 1, used) && j == SlotsPerBlock(m) - used && w <= BUFFER
    ensures full <==> j == 1
    ensures Standing(m, w, if full then 0 else used + 1) && j' == j - 1 && (w == BUFFER ==> full)
  {
    OneMore(m, w);
    j' := j - 1;
    full := j' == 0;
  }

  /** The slot pointer as an address into the buffer, in records. */
  method PointerAfter(m: nat, w: nat) returns (nextPtr: nat)
    requires LegalBlock(m) && Standing(m, w, 0)
    ensures nextPtr == w
  {
    if w > 0 { OneMore(m, w); }
    nextPtr := w / SlotsPerBlock(m) * (m * SECTOR_BYTES) / RECORD_BYTES;
  }

  /** where.count for w slots. */
  method CountFor(m: nat, w: nat) returns (count: nat)
    requires LegalBlock(m) && 0 < w <= BUFFER
    ensures w <= count * PER_SECTOR <= BUFFER && (w == BUFFER ==> count * PER_SECTOR == BUFFER)
    ensures count == Sectors(m, w)
  {
    CountOk(m, w);
    count := w / SlotsPerBlock(m) * m;
    if w % SlotsPerBlock(m) != 0 { count := count + m; }
  }

  lemma CountOk(m: nat, w: nat)
    requires LegalBlock(m) && 0 < w <= BUFFER
    ensures m > 0 && SlotsPerBlock(m) > 0
    ensures w <= Sectors(m, w) * PER_SECTOR <= BUFFER && (w == BUFFER ==> Sectors(m, w) * PER_SECTOR == BUFFER)
  {
    BlockFacts(m);
    if w < BUFFER { SectorsSplit(m, 0, w); } else { DivIs(BUFFER, SlotsPerBlock(m), BlocksPerIo(m), 0); }
  }

  /** The two totals of a store agree, as ints, and the slot counter has not run wild. */
  predicate Completes(m: nat, size: nat) {
    size <= WORD - COUNTED && Sectors(m, Counted(size)) % INTS == Sectors(m, size) % INTS
  }

  /** What an int counts of the slots is whole buffers, and takes 2^26 sectors. */
  lemma CountedSectors(m: nat)
    requires LegalBlock(m)
    ensures Sectors(m, COUNTED) == 0x400_0000 && COUNTED % BUFFER == 0
  {
    SectorsSplit(m, COUNTED, 0);
  }

  /** A store completes for every size an int counts, and beyond only if the totals differ by a
      multiple of 2^32. */
  lemma CompletesIff(m: nat, size: nat)
    requires LegalBlock(m)
    ensures Completes(m, size) <==> size <= COUNTED || (size <= WORD - COUNTED && Sectors(m, size) % INTS == 0x400_0000)
  {
    CountedSectors(m);
  }

  /** sectors_expected, an int. */
  method Expected(size: nat, m: nat) returns (sectors: nat)
    requires LegalBlock(m)
    ensures sectors == Sectors(m, size) % INTS
  {
    BlockFacts(m);
    sectors := ExpectedOf(size / SlotsPerBlock(m), size % SlotsPerBlock(m), m);
  }

  method ExpectedOf(blocks: nat, rest: nat, m: nat) returns (sectors: nat)
    ensures sectors == (blocks * m + if rest != 0 then m else 0) % INTS
  {
    sectors := blocks * m % INTS;
    SumOfInts(blocks * m, m);
    if rest != 0 { sectors := (sectors + m) % INTS; }
  }

  /** flashcache_writeback_md_store, up to the superblock: the records of the slots an int counts
      end up where they belong, and no other sectors are written. It completes iff the totals agree. */
  method Store(bits: array<Bits>, dbn: array<nat>, m: nat, was: Ssd) returns (ssd: Ssd, r: Ending)
    requires bits.Length == dbn.Length < WORD && LegalBlock(m)
    ensures m > 0 && forall i: nat {:trigger RecAt(ssd, m, i)} :: i < Counted(bits.Length) ==> RecAt(ssd, m, i) == Record(bits[i], dbn[i])
    ensures OnlyWithin(was, ssd, m, m + Sectors(m, Counted(bits.Length)))
    ensures r.Done? <==> Completes(m, bits.Length)
    ensures r.OutOfBounds? <==> bits.Length > WORD - COUNTED
  {
    BlockFacts(m);
    var sectorsWritten, ended;
    ssd, sectorsWritten, ended := StoreSlots(bits, dbn, m, was);
    if ended {
      var sectorsExpected := Expected(bits.Length, m);
      r := if sectorsExpected != sectorsWritten then Panicked else Done;
    } else {
      r := OutOfBounds;
    }
    forall i: nat | i < Counted(bits.Length) ensures RecAt(ssd, m, i) == Record(bits[i], dbn[i]) { RecPlace(m, i); assert Flat(ssd, m, i) == Record(bits[i], dbn[i]); }
  }

  /** The buffer's first w records are those of the slots from `from` on. */
  ghost predicate Filled(buf: seq<Rec>, bits: seq<Bits>, dbn: seq<nat>, from: nat, w: nat) {
    |buf| == BUFFER && w <= BUFFER && from + w <= |bits| == |dbn|
    && forall k {:trigger buf[k]} :: 0 <= k < w ==> buf[k] == Record(bits[from + k], dbn[from + k])
  }

  /** Whole buffers have been written for the slots below `from`. */
  ghost predicate WrittenTo(was: Ssd, ssd: Ssd, m: nat, bits: seq<Bits>, dbn: seq<nat>, from: nat, sectors: nat) {
    from % BUFFER == 0 && sectors == from / PER_SECTOR && from <= |bits| == |dbn|
    && Stored(ssd, m, bits, dbn, from) && OnlyWithin(was, ssd, m, m + sectors)
  }

  /** The buffer goes out. */
  method WriteOut(ssd: Ssd, buf: array<Rec>, m: nat, sector: nat, w: nat,
                  ghost was: Ssd, ghost bits: seq<Bits>, ghost dbn: seq<nat>, ghost from: nat, ghost sectors: nat) returns (out: Ssd, count: nat)
    requires LegalBlock(m) && 0 < w && Filled(buf[..], bits, dbn, from, w) && WrittenTo(was, ssd, m, bits, dbn, from, sectors) && sector == m + sectors
    ensures count == Sectors(m, w) && Stored(out, m, bits, dbn, from + w) && OnlyWithin(was, out, m, sector + count)
    ensures w == BUFFER ==> WrittenTo(was, out, m, bits, dbn, from + w, sectors + count)
  {
    count := CountFor(m, w);
    Flushed(was, ssd, buf[..], m, bits, dbn, from, w, count);
    out := Written(ssd, buf[..], sector, count);
  }

  /** MD_SLOTS_PER_BLOCK times METADATA_IO_NUM_BLOCKS */
  method PerIo(m: nat) returns (slots: nat)
    requires LegalBlock(m)
    ensures slots == BUFFER
  {
    BlockFacts(m);
    slots := SlotsPerBlock(m) * BlocksPerIo(m);
  }

  /** Slot i's record goes to the buffer. */
  method PutRecord(buf: array<Rec>, w: nat, bits: array<Bits>, dbn: array<nat>, i: nat, ghost from: nat)
    requires w < BUFFER && i == from + w < bits.Length && Filled(buf[..], bits[..], dbn[..], from, w)
    modifies buf
    ensures Filled(buf[..], bits[..], dbn[..], from, w + 1)
  {
    buf[w] := Record(bits[i], dbn[i]);
  }

  /** i++ */
  method Increment(i: int, ghost n: nat) returns (i': int)
    requires i == Counter(n) && n < COUNTED
    ensures i' == Counter(n + 1)
  {
    i' := if i == COUNTED - 1 then -COUNTED else i + 1;
  }

  /** The loop over the slots ends when the int reaches the size, or turns negative and so is
      compared as a number beyond it; unless the size is as large as that. */
  method StoreSlots(bits: array<Bits>, dbn: array<nat>, m: nat, was: Ssd) returns (ssd: Ssd, sectorsWritten: nat, ended: bool)
    requires bits.Length == dbn.Length < WORD && LegalBlock(m)
    ensures m > 0 && (ended <==> bits.Length <= WORD - COUNTED)
    ensures ended ==> sectorsWritten == Sectors(m, Counted(bits.Length)) % INTS
    ensures Stored(ssd, m, bits[..], dbn[..], Counted(bits.Length)) && OnlyWithin(was, ssd, m, m + Sectors(m, Counted(bits.Length)))
  {
    BlockFacts(m);
    CountedSectors(m);
    StandingFirst(m);
    var buf := new Rec[BUFFER](k => Rec(0, false, false, false));
    var sector, nextPtr, j, i, slotsWritten := m, 0, SlotsPerBlock(m), 0, 0;
    ghost var used: nat, from: nat := 0, 0;
    var perIo := PerIo(m);
    ssd, sectorsWritten, ended := was, 0, true;
    while Unsigned(i) < bits.Length
      invariant from + slotsWritten <= Counted(bits.Length) && i == Counter(from + slotsWritten) && slotsWritten < BUFFER && nextPtr == slotsWritten
      invariant Standing(m, slotsWritten, used) && j == SlotsPerBlock(m) - used && sector == m + sectorsWritten && ended
      invariant Filled(buf[..], bits[..], dbn[..], from, slotsWritten) && WrittenTo(was, ssd, m, bits[..], dbn[..], from, sectorsWritten)
      decreases Counted(bits.Length) - from - slotsWritten
    {
      if i < 0 {   // dmc->cache[i] is in front of the slots
        WholeTo(was, ssd, m, bits[..], dbn[..], from, sectorsWritten, slotsWritten);
        return ssd, sectorsWritten, false;
      }
      PutRecord(buf, nextPtr, bits, dbn, i, from);
      i := Increment(i, from + slotsWritten);
      nextPtr, slotsWritten := nextPtr + 1, slotsWritten + 1;
      var full;
      full, j := NextSlot(m, slotsWritten, j, used);
      used := if full then 0 else used + 1;
      if full {
        if slotsWritten == perIo {
          ssd, sector, sectorsWritten := WriteFull(ssd, buf, m, sector, slotsWritten, sectorsWritten, was, bits[..], dbn[..], from);
          slotsWritten, from := 0, from + slotsWritten;
        }
        nextPtr := PointerAfter(m, slotsWritten);
        j := SlotsPerBlock(m);
      }
    }
    ssd, sectorsWritten := WriteRest(ssd, buf, m, sector, slotsWritten, nextPtr, sectorsWritten, was, bits[..], dbn[..], from);
  }

  /** A full buffer goes out. */
  method WriteFull(ssd: Ssd, buf: array<Rec>, m: nat, sector: nat, w: nat, sectors: nat,
                   ghost was: Ssd, ghost bits: seq<Bits>, ghost dbn: seq<nat>, ghost from: nat) returns (out: Ssd, sector': nat, total: nat)
    requires LegalBlock(m) && Filled(buf[..], bits, dbn, from, w) && WrittenTo(was, ssd, m, bits, dbn, from, sectors) && sector == m + sectors
    requires w == BUFFER && from + w <= COUNTED
    ensures WrittenTo(was, out, m, bits, dbn, from + w, total) && sector' == m + total
  {
    var count;
    out, count := WriteOut(ssd, buf, m, sector, w, was, bits, dbn, from, sectors);
    total, sector' := (sectors + count) % INTS, sector + count;
  }

  /** What is left in the buffer goes out. */
  method WriteRest(ssd: Ssd, buf: array<Rec>, m: nat, sector: nat, w: nat, nextPtr: nat, sectors: nat,
                   ghost was: Ssd, ghost bits: seq<Bits>, ghost dbn: seq<nat>, ghost from: nat) returns (out: Ssd, total: nat)
    requires LegalBlock(m) && Filled(buf[..], bits, dbn, from, w) && WrittenTo(was, ssd, m, bits, dbn, from, sectors) && sector == m + sectors
    requires w < BUFFER && nextPtr == w && from + w <= COUNTED
    ensures total == Sectors(m, from + w) % INTS && Stored(out, m, bits, dbn, from + w) && OnlyWithin(was, out, m, m + Sectors(m, from + w))
  {
    out, total := ssd, sectors;
    SectorsSplit(m, from, w);
    if nextPtr != 0 {
      var count;
      out, count := WriteOut(ssd, buf, m, sector, w, was, bits, dbn, from, sectors);
      total := (total + count) % INTS;
    }
  }

  /** Nothing is left in the buffer when the counter turns negative. */
  lemma WholeTo(was: Ssd, ssd: Ssd, m: nat, bits: seq<Bits>, dbn: seq<nat>, from: nat, whole: nat, w: nat)
    requires LegalBlock(m) && WrittenTo(was, ssd, m, bits, dbn, from, whole) && from + w == COUNTED <= |bits| && w < BUFFER
    ensures w == 0 && Stored(ssd, m, bits, dbn, COUNTED) && OnlyWithin(was, ssd, m, m + Sectors(m, COUNTED))
  {
    CountedSectors(m);
  }

  /** The slot pointer moves into the next block exactly when a block is full. */
  lemma OneMore(m: nat, w: nat)
    requires LegalBlock(m) && 0 < w <= BUFFER
    ensures var s := SlotsPerBlock(m);
      s > 0 && (w % s == 0 <==> (w - 1) % s == s - 1) && (w % s != 0 ==> w % s == (w - 1) % s + 1)
      && (w % s == 0 ==> w / s * (m * SECTOR_BYTES) / RECORD_BYTES == w) && (w == BUFFER ==> w % s == 0)
  {
    BlockFacts(m);
    OneMoreOf(m, SlotsPerBlock(m), w);
    DivIs(BUFFER, SlotsPerBlock(m), BlocksPerIo(m), 0);
  }

  lemma OneMoreOf(m: nat, s: nat, w: nat)
    requires m > 0 && s == PER_SECTOR * m && 0 < w
    ensures (w % s == 0 <==> (w - 1) % s == s - 1) && (w % s != 0 ==> w % s == (w - 1) % s + 1)
    ensures w % s == 0 ==> w / s * (m * SECTOR_BYTES) / RECORD_BYTES == w
  {
    Successor(w, s);
    if w % s == 0 { Bytes(w / s, m, w, s); }
  }

  lemma Successor(w: nat, s: nat)
    requires s > 0 && 0 < w
    ensures (w % s == 0 <==> (w - 1) % s == s - 1) && (w % s != 0 ==> w % s == (w - 1) % s + 1)
  {
    var q, r := (w - 1) / s, (w - 1) % s;
    assert w - 1 == q * s + r;
    if r == s - 1 {
      Times(q, 1, s);
      DivIs(w, s, q + 1, 0);
    } else {
      DivIs(w, s, q, r + 1);
    }
  }

  lemma Bytes(q: nat, m: nat, w: nat, s: nat)
    requires s == PER_SECTOR * m && s > 0 && w % s == 0 && q == w / s
    ensures q * (m * SECTOR_BYTES) / RECORD_BYTES == w
  {
    assert w == q * s;
    Product(q, m);
    assert q * (m * SECTOR_BYTES) == RECORD_BYTES * w;
  }

  lemma Product(q: nat, m: nat)
    ensures q * (m * SECTOR_BYTES) == SECTOR_BYTES * (q * m) && q * (PER_SECTOR * m) == PER_SECTOR * (q * m)
  {
  }

  // ----- loading -----

  /** where.count for a read of w slots. */
  method CountToRead(m: nat, w: nat) returns (count: nat)
    requires LegalBlock(m) && 0 < w <= BUFFER
    ensures w <= count * PER_SECTOR <= BUFFER && (w == BUFFER ==> count * PER_SECTOR == BUFFER) && count == Sectors(m, w)
  {
    CountOk(m, w);
    OneBlockMore(w / SlotsPerBlock(m), m);
    count := if w % SlotsPerBlock(m) != 0 then (1 + w / SlotsPerBlock(m)) * m else w / SlotsPerBlock(m) * m;
  }

  lemma OneBlockMore(q: nat, m: nat)
    ensures (1 + q) * m == q * m + m
  {
  }

  /** The slot pointer before slot j of a buffer: moved onto its block at the start of one. */
  method PointerAt(m: nat, j: nat, nextPtr: nat) returns (ptr: nat)
    requires LegalBlock(m) && nextPtr == j < BUFFER
    ensures ptr == j
  {
    ptr := nextPtr;
    BlockFacts(m);
    if j > 0 { OneMore(m, j); }
    if j % SlotsPerBlock(m) == 0 {
      Swapped(m * SECTOR_BYTES, j / SlotsPerBlock(m));
      ptr := m * SECTOR_BYTES * (j / SlotsPerBlock(m)) / RECORD_BYTES;
    }
  }

  lemma Swapped(a: nat, b: nat)
    ensures a * b == b * a
  {
  }

  /** The load panics on a record it takes that is both VALID and INVALID. */
  predicate Sane(r: Rec, clean: bool) { (clean || r.dirty) ==> !(r.valid && r.invalid) }

  /** Slots below n hold what an unclean load keeps of their records (DIRTY ones), or a clean
      one (all of them). */
  ghost predicate Loaded(ssd: Ssd, m: nat, clean: bool, bits: seq<Bits>, dbn: seq<nat>, n: nat)
    requires n <= |bits| == |dbn|
  {
    forall k: nat {:trigger Flat(ssd, m, k)} :: k < n ==>
      Sane(Flat(ssd, m, k), clean) && bits[k] == P.Reloaded(Flat(ssd, m, k), clean).bits && dbn[k] == P.Reloaded(Flat(ssd, m, k), clean).dbn
  }

  lemma ReadFlat(ssd: Ssd, m: nat, from: nat, count: nat, was: seq<Rec>, k: nat)
    requires count * PER_SECTOR <= |was| && from % PER_SECTOR == 0 && k < count * PER_SECTOR
    ensures Read(ssd, m + from / PER_SECTOR, count, was)[k] == Flat(ssd, m, from + k)
  {
    Split(from / PER_SECTOR, k);
    assert from == PER_SECTOR * (from / PER_SECTOR);
  }

  /** One buffer's worth of records is taken into the slots from `from` on, i of the int that
      counts them. */
  method LoadIo(bits: array<Bits>, dbn: array<nat>, m: nat, buf: array<Rec>, clean: bool, w: nat, i: int, ghost ssd: Ssd, ghost from: nat) returns (r: Ending, i': int)
    requires bits.Length == dbn.Length && LegalBlock(m) && w <= buf.Length == BUFFER && from + w <= bits.Length
    requires from <= COUNTED && i == Counter(from) && Loaded(ssd, m, clean, bits[..], dbn[..], from)
    requires forall k {:trigger buf[k]} :: 0 <= k < w ==> buf[k] == Flat(ssd, m, from + k)
    modifies bits, dbn
    ensures r.Done? ==> from + w <= COUNTED && i' == Counter(from + w) && Loaded(ssd, m, clean, bits[..], dbn[..], from + w)
    ensures r.OutOfBounds? ==> bits.Length > COUNTED && Loaded(ssd, m, clean, bits[..], dbn[..], COUNTED)
    ensures r.Panicked? ==> exists k: nat :: k < Counted(bits.Length) && !Sane(Flat(ssd, m, k), clean)
  {
    var j, nextPtr := 0, 0;
    i' := i;
    while j < w
      invariant 0 <= j <= w && nextPtr == j && Loaded(ssd, m, clean, bits[..], dbn[..], from + j)
      invariant from + j <= COUNTED && i' == Counter(from + j)
    {
      nextPtr := PointerAt(m, j, nextPtr);
      var r := buf[nextPtr];
      assert r == Flat(ssd, m, from + j);
      if i' < 0 { return OutOfBounds, i'; }   // dmc->cache[i] is in front of the slots
      if clean || r.dirty {
        if r.valid && r.invalid { return Panicked, i'; }
        bits[i'] := INVALID.(invalid := r.invalid, valid := r.valid, dirty := r.dirty);
        dbn[i'] := r.dbn;
      } else {
        bits[i'] := INVALID;
        dbn[i'] := 0;
      }
      i' := Increment(i', from + j);
      nextPtr, j := nextPtr + 1, j + 1;
    }
    r := Done;
  }

  /** The slot part of flashcache_writeback_load: it is done iff an int can count the slots and
      every record to be kept is sane, and then every slot has what is to be kept of its record. */
  method Load(bits: array<Bits>, dbn: array<nat>, m: nat, ssd: Ssd, clean: bool) returns (r: Ending)
    requires bits.Length == dbn.Length && LegalBlock(m)
    modifies bits, dbn
    ensures m > 0 && (r.Panicked? <==> exists i: nat {:trigger RecAt(ssd, m, i)} :: i < Counted(bits.Length) && !Sane(RecAt(ssd, m, i), clean))
    ensures !r.Panicked? ==> (r.Done? <==> bits.Length <= COUNTED)
    ensures r.Done? ==> forall i: nat {:trigger RecAt(ssd, m, i)} :: i < bits.Length ==>
              bits[i] == P.Reloaded(RecAt(ssd, m, i), clean).bits && dbn[i] == P.Reloaded(RecAt(ssd, m, i), clean).dbn
  {
    BlockFacts(m);
    var sectorsRead;
    r, sectorsRead := LoadSlots(bits, dbn, m, ssd, clean);
    forall i: nat ensures RecAt(ssd, m, i) == Flat(ssd, m, i) { RecPlace(m, i); }
    if r.Done? {
      var sectorsExpected := Expected(bits.Length, m);
      assert sectorsExpected == sectorsRead;   // else the load panics
    }
    if r.Panicked? {
      var k: nat :| k < Counted(bits.Length) && !Sane(Flat(ssd, m, k), clean);
      assert !Sane(RecAt(ssd, m, k), clean);
    } else {
      assert forall k: nat {:trigger Flat(ssd, m, k)} :: k < Counted(bits.Length) ==> Sane(Flat(ssd, m, k), clean);
    }
  }

  /** One read into the buffer, for the w slots from `from` on. */
  method ReadIn(buf: array<Rec>, ssd: Ssd, m: nat, sector: nat, w: nat, ghost from: nat) returns (count: nat)
    requires LegalBlock(m) && buf.Length == BUFFER && 0 < w <= BUFFER && from % BUFFER == 0 && sector == m + from / PER_SECTOR
    modifies buf
    ensures forall k {:trigger buf[k]} :: 0 <= k < w ==> buf[k] == Flat(ssd, m, from + k)
    ensures count == Sectors(m, w) && (w == BUFFER ==> count * PER_SECTOR == BUFFER)
  {
    count := CountToRead(m, w);
    ghost var was := buf[..];
    forall k | 0 <= k < BUFFER { buf[k] := if k < count * PER_SECTOR then Flat(ssd, sector, k) else buf[k]; }
    forall k | 0 <= k < w ensures buf[k] == Flat(ssd, m, from + k) { ReadFlat(ssd, m, from, count, was, k); }
  }

  method LoadSlots(bits: array<Bits>, dbn: array<nat>, m: nat, ssd: Ssd, clean: bool) returns (r: Ending, sectorsRead: nat)
    requires bits.Length == dbn.Length && LegalBlock(m)
    modifies bits, dbn
    ensures m > 0
    ensures r.Done? ==> bits.Length <= COUNTED && Loaded(ssd, m, clean, bits[..], dbn[..], bits.Length) && sectorsRead == Sectors(m, bits.Length) % INTS
    ensures r.OutOfBounds? ==> bits.Length > COUNTED && Loaded(ssd, m, clean, bits[..], dbn[..], COUNTED)
    ensures r.Panicked? ==> exists k: nat :: k < Counted(bits.Length) && !Sane(Flat(ssd, m, k), clean)
  {
    BlockFacts(m);
    var buf := new Rec[BUFFER](k => Rec(0, false, false, false));
    var sector, size, i := m, bits.Length, 0;
    var perIo := PerIo(m);
    r, sectorsRead := Done, 0;
    ghost var from: nat, total: nat, whole := 0, 0, true;
    while size > 0
      invariant from <= Counted(bits.Length) && size == bits.Length - from && i == Counter(from) && sector == m + total
      invariant sectorsRead == total % INTS && r.Done? && (size > 0 ==> whole)
      invariant ReadTo(m, from, total, whole) && Loaded(ssd, m, clean, bits[..], dbn[..], from)
    {
      var slotsRead := if size < perIo then size else perIo;
      var count := ReadIn(buf, ssd, m, sector, slotsRead, from);
      r, i := LoadIo(bits, dbn, m, buf, clean, slotsRead, i, ssd, from);
      if !r.Done? { return; }
      ReadMore(m, from, total, slotsRead, count);
      SumOfInts(total, count);
      whole := slotsRead == BUFFER;
      sectorsRead, sector := (sectorsRead + count) % INTS, sector + count;
      from, total, size := from + slotsRead, total + count, size - slotsRead;
    }
    AllRead(m, from, total, whole);
  }

  lemma SumOfInts(a: nat, b: nat)
    ensures (a % INTS + b) % INTS == (a + b) % INTS
  {
  }

  /** Sectors read for the first i slots, whole buffers of them unless it is the end. */
  ghost predicate ReadTo(m: nat, i: nat, sectors: nat, whole: bool) {
    if whole then i % BUFFER == 0 && sectors == i / PER_SECTOR else sectors == Sectors(m, i)
  }

  lemma ReadMore(m: nat, i: nat, sectors: nat, w: nat, count: nat)
    requires LegalBlock(m) && ReadTo(m, i, sectors, true) && 0 < w <= BUFFER && count == Sectors(m, w)
    requires w == BUFFER ==> count * PER_SECTOR == BUFFER
    ensures ReadTo(m, i + w, sectors + count, w == BUFFER)
  {
    if w < BUFFER { SectorsSplit(m, i, w); }
  }

  lemma AllRead(m: nat, i: nat, sectors: nat, whole: bool)
    requires LegalBlock(m) && ReadTo(m, i, sectors, whole)
    ensures sectors == Sectors(m, i)
  {
    if whole { SectorsSplit(m, i, 0); }
  }

  /** A clean removal and the restart after it are done iff an int can count the slots, and then
      they bring back every slot's block and its INVALID, VALID and DIRTY bits, whatever the legal
      metadata block size. Larger caches stop at one of the two. */
  method RemoveAndReload(bits: array<Bits>, dbn: array<nat>, m: nat, was: Ssd) returns (ssd: Ssd, stored: Ending, loaded: Ending)
    requires bits.Length == dbn.Length < WORD && LegalBlock(m) && forall i {:trigger bits[i]} :: 0 <= i < bits.Length ==> bits[i].valid != bits[i].invalid
    modifies bits, dbn
    ensures stored.Done? && loaded.Done? <==> bits.Length <= COUNTED
    ensures stored.Done? && !loaded.Done? ==> loaded.OutOfBounds?
    ensures bits.Length <= COUNTED ==> dbn[..] == old(dbn[..])
    ensures bits.Length <= COUNTED ==> forall i {:trigger bits[i]} :: 0 <= i < bits.Length ==>
              bits[i] == INVALID.(invalid := old(bits[i].invalid), valid := old(bits[i].valid), dirty := old(bits[i].dirty))
  {
    ssd, stored := Store(bits, dbn, m, was);
    loaded := Done;
    if stored.Done? { loaded := Reload(bits, dbn, m, ssd, bits[..], dbn[..]); }
  }

  /** What a store leaves, loaded. */
  method Reload(bits: array<Bits>, dbn: array<nat>, m: nat, ssd: Ssd, ghost b: seq<Bits>, ghost d: seq<nat>) returns (r: Ending)
    requires m > 0 && bits.Length == dbn.Length == |b| == |d| && LegalBlock(m) && forall i {:trigger b[i]} :: 0 <= i < |b| ==> b[i].valid != b[i].invalid
    requires forall i: nat {:trigger RecAt(ssd, m, i)} :: i < Counted(|b|) ==> RecAt(ssd, m, i) == Record(b[i], d[i])
    modifies bits, dbn
    ensures r == if |b| <= COUNTED then Done else OutOfBounds
    ensures r.Done? ==> dbn[..] == d && forall i {:trigger bits[i]} :: 0 <= i < |b| ==>
              bits[i] == INVALID.(invalid := b[i].invalid, valid := b[i].valid, dirty := b[i].dirty)
  {
    r := Load(bits, dbn, m, ssd, true);
    assert !r.Panicked?;
    if r.Done? {
      forall i: nat | i < |b| ensures bits[i] == P.Reloaded(Record(b[i], d[i]), true).bits && dbn[i] == d[i] { assert RecAt(ssd, m, i) == Record(b[i], d[i]); }
    }
  }
}
