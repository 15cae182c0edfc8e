/** Where things are: the superblock, the metadata blocks and the data blocks on the SSD, and
    the cache set a block or a metadata block belongs to. */
module Layout {
  import opened Types
  import opened MetadataIo
  import opened IndexSpec

  // ----- sizing -----

  /** Metadata blocks for so many slots: the superblock, and one more than the last slot's. */
  function MdBlocks(m: nat, slots: nat): nat
    requires SlotsPerBlock(m) > 0
  {
    slots / SlotsPerBlock(m) + 1 + 1
  }

  /** Sectors of metadata as the code computes them: md_blocks is an int, its product with
      md_block_size unsigned. */
  function MdSectors(m: nat, slots: nat): nat
    requires SlotsPerBlock(m) > 0
  {
    MdBlocks(m, slots) % INTS * m % INTS
  }

  /** The number of slots flashcache_writeback_create makes of a request in sectors. */
  function CreateSlots(sectors: nat, blockSize: nat, assoc: nat, m: nat): nat
    requires blockSize > 0 && assoc > 0 && SlotsPerBlock(m) > 0
  {
    RoundDown(Minus(sectors, MdSectors(m, sectors / blockSize)), blockSize, assoc)
  }

  /** Subtraction of 64-bit words. */
  function Minus(a: nat, b: nat): nat { (a - b) % WORD }

  /** Whole sets of whole blocks. */
  function RoundDown(available: nat, blockSize: nat, assoc: nat): nat
    requires blockSize > 0 && assoc > 0
  {
    available / blockSize / assoc * assoc
  }

  /** cache_size, which is compared with the size of the SSD. */
  function CacheSize(sectors: nat, blockSize: nat, assoc: nat, m: nat): nat
    requires blockSize > 0 && assoc > 0 && SlotsPerBlock(m) > 0
  {
    var slots := CreateSlots(sectors, blockSize, assoc, m);
    (MdSectors(m, slots) + slots * blockSize) % WORD
  }

  /** Sectors that slots, metadata and superblock really take. */
  function Footprint(m: nat, slots: nat, blockSize: nat): nat
    requires SlotsPerBlock(m) > 0
  {
    MdBlocks(m, slots) * m + slots * blockSize
  }

  /** The parameters flashcache_ctr lets through. Without an associativity on the command line
      there is no metadata block size either. */
  predicate LegalRequest(sectors: nat, blockSize: nat, assoc: nat, m: nat, given: bool) {
    && sectors < WORD && PowerOfTwo(blockSize) && blockSize < INTS && LegalBlock(m)
    && if given then PowerOfTwo(assoc) && 256 <= assoc <= 8192 && assoc <= sectors && SlotsPerBlock(m) <= assoc
       else assoc == 512 && m == 8
  }

  /** What is created: a legal request whose cache_size does not exceed the SSD. A device has
      fewer than 2^54 sectors, its size in bytes being a signed 64-bit number. */
  predicate Accepted(sectors: nat, blockSize: nat, assoc: nat, m: nat, given: bool, device: nat) {
    && LegalRequest(sectors, blockSize, assoc, m, given) && device < 0x40_0000_0000_0000
    && blockSize > 0 && assoc > 0 && SlotsPerBlock(m) > 0 && CacheSize(sectors, blockSize, assoc, m) <= device
  }

  /** Whether the metadata estimate fits the 32 bits it is computed in. */
  predicate EstimateFits(sectors: nat, blockSize: nat, m: nat)
    requires blockSize > 0 && SlotsPerBlock(m) > 0
  {
    MdBlocks(m, sectors / blockSize) * m < INTS
  }

  /** Whether what is created fits the sectors asked for. */
  predicate RequestFits(sectors: nat, blockSize: nat, assoc: nat, m: nat)
    requires blockSize > 0 && assoc > 0 && SlotsPerBlock(m) > 0
  {
    Footprint(m, CreateSlots(sectors, blockSize, assoc, m), blockSize) <= sectors
  }

  /** a / b, as a number of blocks. */
  function Over(a: nat, b: nat): nat
    requires b > 0
  {
    a / b
  }

  lemma MulMono(a: nat, b: nat, c: nat)
    requires a <= b
    ensures a * c <= b * c
  {
  }

  lemma DivMono(a: nat, b: nat, s: nat)
    requires a <= b && s > 0
    ensures a / s <= b / s
  {
    Times(b / s, 1, s);
    if a / s > b / s { MulMono(b / s + 1, a / s, s); }
  }

  lemma DivShrinks(a: nat, s: nat)
    requires s > 0
    ensures a / s * s <= a < a / s * s + s && a / s <= a
  {
    assert a / s * s + a % s == a;
    if a / s > 0 { MulMono(1, s, a / s); }
  }

  /** Metadata takes a thirty-second of the slots' number, and one or two blocks. */
  lemma MdShare(m: nat, slots: nat)
    requires LegalBlock(m)
    ensures m > 0 && SlotsPerBlock(m) > 0
    ensures slots + PER_SECTOR * m < PER_SECTOR * (MdBlocks(m, slots) * m) <= slots + 2 * (PER_SECTOR * m)
  {
    BlockFacts(m);
    MdShareOf(m, SlotsPerBlock(m), slots, slots / SlotsPerBlock(m));
  }

  lemma MdShareOf(m: nat, s: nat, slots: nat, n: nat)
    requires s == PER_SECTOR * m > 0 && n == slots / s
    ensures slots + PER_SECTOR * m < PER_SECTOR * ((n + 1 + 1) * m) <= slots + 2 * (PER_SECTOR * m)
  {
    DivShrinks(slots, s);
    Product(n, m);
    TwoMore(n, m);
  }

  lemma TwoMore(n: nat, m: nat)
    ensures (n + 1 + 1) * m == n * m + 2 * m
  {
  }

  /** The truncation to 32 bits happens once or twice, to the same effect. */
  lemma Truncated(n: nat, m: nat)
    ensures n % INTS * m % INTS == n * m % INTS
  {
    var k, r := n / INTS, n % INTS;
    Times(k * INTS, r, m);
    Times(k, INTS, m);
    assert n * m == (k * m) * INTS + r * m;
    Multiples(k * m, r * m);
  }

  lemma Multiples(a: nat, b: nat)
    ensures (a * INTS + b) % INTS == b % INTS
  {
  }

  lemma MdSectorsIs(m: nat, slots: nat)
    requires SlotsPerBlock(m) > 0
    ensures MdSectors(m, slots) == MdBlocks(m, slots) * m % INTS < INTS
  {
    Truncated(MdBlocks(m, slots), m);
  }

  /** Rounding down to whole blocks and whole sets is rounding down to a multiple of both. */
  lemma Rounded(available: nat, blockSize: nat, assoc: nat)
    requires blockSize > 0 && assoc > 0
    ensures var unit, size := blockSize * assoc, RoundDown(available, blockSize, assoc);
            unit > 0 && size * blockSize == available / unit * unit <= available < size * blockSize + unit
  {
    NestedDiv(available, blockSize, assoc);
    Swapped(blockSize, assoc);
    var k := available / blockSize / assoc;
    Times(k, assoc, blockSize);
    DivShrinks(available, blockSize * assoc);
    assert k * assoc * blockSize == k * (blockSize * assoc);
  }

  lemma SizeSmaller(sectors: nat, available: nat, blockSize: nat, assoc: nat)
    requires blockSize > 0 && assoc > 0 && available <= sectors
    ensures RoundDown(available, blockSize, assoc) <= sectors / blockSize
  {
    DivMono(available, sectors, blockSize);
    DivShrinks(available / blockSize, assoc);
  }

  lemma MdMono(m: nat, a: nat, b: nat)
    requires SlotsPerBlock(m) > 0 && a <= b
    ensures MdBlocks(m, a) * m <= MdBlocks(m, b) * m
  {
    DivMono(a, b, SlotsPerBlock(m));
    MulMono(MdBlocks(m, a), MdBlocks(m, b), m);
  }

  lemma DefaultEstimate(sectors: nat, blockSize: nat)
    requires blockSize > 0
    ensures SlotsPerBlock(8) > 0
    ensures if sectors < 16 then MdBlocks(8, sectors / blockSize) * 8 == 16 else MdBlocks(8, sectors / blockSize) * 8 <= sectors
  {
    DivShrinks(sectors, blockSize);
    Sixteen(sectors / blockSize);
  }

  lemma Sixteen(q: nat)
    ensures if q < 256 then MdBlocks(8, q) * 8 == 16 else MdBlocks(8, q) * 8 <= q
  {
  }

  /** A request under sixteen sectors is refused: the subtraction wraps around, and what it leaves is far larger
      than any device. */
  lemma TinyRefused(sectors: nat, blockSize: nat, device: nat)
    requires sectors < 16 && PowerOfTwo(blockSize) && blockSize < INTS && device < 0x40_0000_0000_0000
    requires SlotsPerBlock(8) > 0 && MdBlocks(8, sectors / blockSize) * 8 == 16
    ensures blockSize > 0 && CacheSize(sectors, blockSize, 512, 8) > device
  {
    UnitDivides(blockSize);
    TinySlots(sectors, blockSize);
    var slots := CreateSlots(sectors, blockSize, 512, 8);
    MdSectorsIs(8, slots);
    if blockSize * 512 < INTS { NoMetadata(blockSize, slots); }
    StillHuge(MdSectors(8, slots), slots * blockSize, blockSize * 512, device);
  }

  lemma TinySlots(sectors: nat, blockSize: nat)
    requires sectors < 16 && blockSize > 0 && SlotsPerBlock(8) > 0 && MdBlocks(8, sectors / blockSize) * 8 == 16
    requires blockSize * 512 <= WORD / 0x10_0000 && WORD % (blockSize * 512) == 0
    ensures CreateSlots(sectors, blockSize, 512, 8) * blockSize == WORD - blockSize * 512
  {
    MdSectorsIs(8, sectors / blockSize);
    assert Minus(sectors, 16) == sectors - 16 + WORD;
    Rounded(sectors - 16 + WORD, blockSize, 512);
    BelowWord(sectors - 16 + WORD, blockSize * 512);
  }

  lemma StillHuge(m2: nat, data: nat, unit: nat, device: nat)
    requires data == WORD - unit && unit <= WORD / 0x10_0000 && m2 < INTS && (unit < INTS ==> m2 == 0)
    requires unit > 0 && device < 0x40_0000_0000_0000
    ensures (m2 + data) % WORD > device
  {
  }

  lemma {:induction false} PowerTimes(a: nat, b: nat)
    requires PowerOfTwo(a) && PowerOfTwo(b)
    ensures PowerOfTwo(a * b)
  {
    if b > 1 {
      PowerTimes(a, b / 2);
      Doubled(a * (b / 2));
      Times(a, 2, b / 2);
    }
  }

  lemma Constants()
    ensures PowerOfTwo(512) && PowerOfTwo(0x20_0000_0000) && PowerOfTwo(WORD)
  {
    PowerTimes(256, 256);
    PowerTimes(0x1_0000, 0x1_0000);
    PowerTimes(INTS, 32);
    PowerTimes(INTS, INTS);
  }

  /** Powers of two up to 2^31, times 512, divide 2^64. */
  lemma UnitDivides(blockSize: nat)
    requires PowerOfTwo(blockSize) && blockSize < INTS
    ensures 0 < blockSize * 512 <= WORD / 0x10_0000 && WORD % (blockSize * 512) == 0
  {
    Constants();
    PowerTimes(blockSize, 512);
    PowersDivide(WORD, blockSize * 512);
  }

  /** With units under 2^32 the metadata of so many slots is a multiple of 2^32. */
  lemma NoMetadata(blockSize: nat, slots: nat)
    requires PowerOfTwo(blockSize) && blockSize * 512 < INTS && slots * blockSize == WORD - blockSize * 512
    ensures SlotsPerBlock(8) > 0 && MdBlocks(8, slots) * 8 % INTS == 0
  {
    Constants();
    PowerTimes(blockSize, 0x20_0000_0000);
    PowersDivide(WORD, blockSize * 0x20_0000_0000);
    Exactly(WORD, blockSize * 0x20_0000_0000);
    var t := WORD / (blockSize * 0x20_0000_0000);
    Cancelled(t, blockSize, slots);
    Zeroed(t, slots);
  }

  lemma Cancelled(t: nat, b: nat, slots: nat)
    requires b > 0 && WORD == t * (b * 0x20_0000_0000) && slots * b == WORD - b * 512
    ensures slots == t * 0x20_0000_0000 - 512
  {
    var d := slots + 512 - t * 0x20_0000_0000;
    Spelled(t, b, slots);
    ZeroProduct(d, b);
  }

  lemma ZeroProduct(d: int, b: nat)
    requires d * b == 0 && b > 0
    ensures d == 0
  {
  }

  lemma Spelled(t: nat, b: nat, slots: nat)
    ensures (slots + 512 - t * 0x20_0000_0000) * b == slots * b + b * 512 - t * (b * 0x20_0000_0000)
  {
  }

  lemma Zeroed(t: nat, slots: nat)
    requires slots == t * 0x20_0000_0000 - 512
    ensures SlotsPerBlock(8) > 0 && MdBlocks(8, slots) * 8 % INTS == 0
  {
    assert slots / 256 == t * 0x2000_0000 - 2;
    assert MdBlocks(8, slots) * 8 == t * INTS;
  }

  /** The last multiple of a unit below 2^64, for anything less than a unit short of it. */
  lemma BelowWord(available: nat, unit: nat)
    requires unit > 0 && WORD % unit == 0 && WORD - unit <= available < WORD
    ensures available / unit * unit == WORD - unit
  {
    var k := WORD / unit;
    Exactly(WORD, unit);
    Times(k - 1, 1, unit);
    DivIs(available, unit, k - 1, available - (k - 1) * unit);
  }

  lemma Wraps(x: int)
    requires 0 <= x < WORD
    ensures x % WORD == x
  {
  }

  /** What is known of a request whose metadata estimate e does not fit 32 bits: q blocks
      requested, size of a unit, remainder m1 of the estimate, data and metadata f made of it. */
  lemma Overflows(sectors: nat, q: nat, blockSize: nat, unit: nat, m1: nat, e: nat, f: nat, slots: nat, data: nat, m: nat)
    requires blockSize > 0 && e >= m1 + INTS && m1 < INTS && m <= 128 && PER_SECTOR * e <= q + 2 * (PER_SECTOR * m)
    requires PER_SECTOR * f > slots + PER_SECTOR * m && q * blockSize <= sectors && data == slots * blockSize
    requires sectors - m1 - unit < data <= sectors - m1 && unit <= 0x8000_0000
    ensures f + data > sectors
  {
    assert (q - slots) * blockSize == q * blockSize - slots * blockSize;
    if q - slots > sectors - data { MulMono(1, blockSize, q - slots); }
  }

  /** Rounded down to units of blockSize * assoc, 2^64 loses at least a unit. */
  lemma LosesUnit(blockSize: nat, assoc: nat, available: nat)
    requires PowerOfTwo(blockSize) && blockSize < INTS && PowerOfTwo(assoc) && assoc <= 8192 && available < WORD
    ensures blockSize > 0 && assoc > 0 && RoundDown(available, blockSize, assoc) * blockSize <= WORD - blockSize * assoc
  {
    Constants();
    PowerTimes(blockSize, assoc);
    Swapped(blockSize, assoc);
    MulMono(assoc, 8192, blockSize);
    LastMultiple(available, blockSize * assoc);
    Rounded(available, blockSize, assoc);
  }

  lemma LastMultiple(available: nat, unit: nat)
    requires PowerOfTwo(unit) && unit <= WORD && available < WORD
    ensures unit > 0 && available / unit * unit <= WORD - unit
  {
    WordMultiple(unit);
    AtMostLess(available / unit, WORD / unit, unit, available);
  }

  lemma WordMultiple(unit: nat)
    requires PowerOfTwo(unit) && unit <= WORD
    ensures unit > 0 && WORD == WORD / unit * unit
  {
    Constants();
    PowersDivide(WORD, unit);
    Exactly(WORD, unit);
  }

  lemma AtMostLess(k: nat, n: nat, unit: nat, available: nat)
    requires unit > 0 && WORD == n * unit && k == available / unit && available < WORD
    ensures k * unit <= WORD - unit
  {
    DivShrinks(available, unit);
    if k >= n { MulMono(n, k, unit); } else { MulStep(k, n, unit); }
  }

  /** The factors of the last lemma, for an accepted request. */
  lemma UnitBounded(sectors: nat, q: nat, blockSize: nat, assoc: nat, m1: nat, data: nat)
    requires assoc <= 8192 && m1 < INTS && q >= 0x20_0000_0000 - 8192 && q * blockSize <= sectors
    requires sectors - m1 - blockSize * assoc < data < 0x40_0000_0000_0000
    ensures blockSize * assoc <= 0x8000_0000
  {
    Swapped(blockSize, assoc);
    Swapped(q, blockSize);
    MulMono(assoc, 8192, blockSize);
    MulMono(0x20_0000_0000 - 8192, q, blockSize);
  }

  /** Many slots of small blocks have more metadata than 32 bits can hold. */
  lemma ManySlots(slots: nat, blockSize: nat, f: nat, m: nat)
    requires blockSize <= 0x800_0000 && slots * blockSize > WORD - INTS && PER_SECTOR * f > slots + PER_SECTOR * m && m > 0
    ensures f > INTS
  {
    Swapped(slots, blockSize);
    MulMono(blockSize, 0x800_0000, slots);
  }

  lemma SmallBlocks(blockSize: nat, assoc: nat)
    requires assoc >= 256 && blockSize * assoc < INTS
    ensures blockSize <= 0x800_0000
  {
    Swapped(blockSize, assoc);
    MulMono(256, assoc, blockSize);
  }

  /** An accepted request whose metadata estimate does not fit 32 bits gets more than it asked for. */
  lemma FitsNot(sectors: nat, blockSize: nat, assoc: nat, m: nat, given: bool, device: nat)
    requires Accepted(sectors, blockSize, assoc, m, given, device) && !EstimateFits(sectors, blockSize, m)
    ensures !RequestFits(sectors, blockSize, assoc, m)
  {
    var q := sectors / blockSize;
    EstimateFacts(sectors, blockSize, m);
    var m1 := MdSectors(m, q);
    SlotFacts(sectors, blockSize, assoc, m, m1);
    var slots := CreateSlots(sectors, blockSize, assoc, m);
    Accounted(sectors, q, blockSize, assoc, m1, MdBlocks(m, q) * m, MdBlocks(m, slots) * m, MdSectors(m, slots), slots, m, device);
  }

  lemma EstimateFacts(sectors: nat, blockSize: nat, m: nat)
    requires LegalBlock(m) && blockSize > 0 && SlotsPerBlock(m) > 0 && !EstimateFits(sectors, blockSize, m)
    ensures var q, e, m1 := sectors / blockSize, MdBlocks(m, sectors / blockSize) * m, MdSectors(m, sectors / blockSize);
            0 < m <= 128 && e >= m1 + INTS && m1 < INTS && m1 <= sectors
            && PER_SECTOR * e <= q + 2 * (PER_SECTOR * m) && q * blockSize <= sectors
  {
    var q := sectors / blockSize;
    MdSectorsIs(m, q);
    MdShare(m, q);
    DivShrinks(sectors, blockSize);
    LegalBlocks(m);
    FarBeyond(MdBlocks(m, q) * m);
  }

  lemma FarBeyond(e: nat)
    requires e >= INTS
    ensures e >= e % INTS + INTS
  {
  }

  lemma SlotFacts(sectors: nat, blockSize: nat, assoc: nat, m: nat, m1: nat)
    requires LegalBlock(m) && blockSize > 0 && assoc > 0 && SlotsPerBlock(m) > 0 && sectors < WORD
    requires m1 == MdSectors(m, sectors / blockSize) && m1 <= sectors
    ensures var slots := CreateSlots(sectors, blockSize, assoc, m);
            && slots == RoundDown(sectors - m1, blockSize, assoc) && sectors - m1 - blockSize * assoc < slots * blockSize <= sectors - m1
            && MdSectors(m, slots) < INTS && PER_SECTOR * (MdBlocks(m, slots) * m) > slots + PER_SECTOR * m
  {
    Wraps(sectors - m1);
    Rounded(sectors - m1, blockSize, assoc);
    MdSectorsIs(m, RoundDown(sectors - m1, blockSize, assoc));
    MdShare(m, RoundDown(sectors - m1, blockSize, assoc));
  }

  lemma Accounted(sectors: nat, q: nat, blockSize: nat, assoc: nat, m1: nat, e: nat, f: nat, m2: nat, slots: nat, m: nat, device: nat)
    requires sectors < WORD && PowerOfTwo(blockSize) && 0 < blockSize < INTS && PowerOfTwo(assoc) && 256 <= assoc <= 8192 && 0 < m <= 128
    requires e >= m1 + INTS && m1 < INTS && m2 < INTS && PER_SECTOR * e <= q + 2 * (PER_SECTOR * m) && PER_SECTOR * f > slots + PER_SECTOR * m
    requires q * blockSize <= sectors && m1 <= sectors && slots == RoundDown(sectors - m1, blockSize, assoc)
    requires sectors - m1 - blockSize * assoc < slots * blockSize <= sectors - m1
    requires (m2 + slots * blockSize) % WORD <= device < 0x40_0000_0000_0000
    ensures f + slots * blockSize > sectors
  {
    var data := slots * blockSize;
    if m2 + data < WORD {
      UnitBounded(sectors, q, blockSize, assoc, m1, data);
      Overflows(sectors, q, blockSize, blockSize * assoc, m1, e, f, slots, data, m);
    } else {
      LosesUnit(blockSize, assoc, sectors - m1);
      SmallBlocks(blockSize, assoc);
      ManySlots(slots, blockSize, f, m);
    }
  }

  /** Without truncation or wrap-around what is created fits the request. */
  lemma FitsYes(sectors: nat, blockSize: nat, assoc: nat, m: nat)
    requires LegalBlock(m) && blockSize > 0 && assoc > 0 && SlotsPerBlock(m) > 0 && sectors < WORD
    requires EstimateFits(sectors, blockSize, m) && MdBlocks(m, sectors / blockSize) * m <= sectors
    ensures RequestFits(sectors, blockSize, assoc, m)
  {
    var m1 := MdSectors(m, sectors / blockSize);
    Small(MdBlocks(m, sectors / blockSize) * m);
    MdSectorsIs(m, sectors / blockSize);
    SlotFacts(sectors, blockSize, assoc, m, m1);
    SizeSmaller(sectors, sectors - m1, blockSize, assoc);
    MdMono(m, CreateSlots(sectors, blockSize, assoc, m), sectors / blockSize);
  }

  lemma Small(e: nat)
    requires e < INTS
    ensures e % INTS == e
  {
  }

  lemma GivenNotTiny(sectors: nat, blockSize: nat, assoc: nat, m: nat)
    requires LegalBlock(m) && blockSize > 0 && SlotsPerBlock(m) <= assoc <= sectors
    ensures SlotsPerBlock(m) > 0 && MdBlocks(m, sectors / blockSize) * m <= sectors
  {
    BlockFacts(m);
    MdShare(m, sectors / blockSize);
    DivShrinks(sectors, blockSize);
  }

  /** An accepted request is never smaller than its own metadata: one that is would have to be
      under sixteen sectors, without an associativity, and is refused. */
  lemma NotTiny(sectors: nat, blockSize: nat, assoc: nat, m: nat, given: bool, device: nat)
    requires blockSize > 0 && SlotsPerBlock(m) > 0
    requires Accepted(sectors, blockSize, assoc, m, given, device)
    ensures MdBlocks(m, sectors / blockSize) * m <= sectors
  {
    if given {
      GivenNotTiny(sectors, blockSize, assoc, m);
    } else {
      DefaultEstimate(sectors, blockSize);
      if sectors < 16 { TinyRefused(sectors, blockSize, device); }
    }
  }

  /** For every accepted request, what is created fits the sectors asked for exactly when the
      metadata estimate fits the 32 bits it is computed in. */
  lemma CreateFits(sectors: nat, blockSize: nat, assoc: nat, m: nat, given: bool, device: nat)
    requires Accepted(sectors, blockSize, assoc, m, given, device)
    ensures RequestFits(sectors, blockSize, assoc, m) <==> EstimateFits(sectors, blockSize, m)
  {
    if EstimateFits(sectors, blockSize, m) {
      EveryOtherFits(sectors, blockSize, assoc, m, given, device);
    } else {
      FitsNot(sectors, blockSize, assoc, m, given, device);
    }
  }

  lemma EveryOtherFits(sectors: nat, blockSize: nat, assoc: nat, m: nat, given: bool, device: nat)
    requires Accepted(sectors, blockSize, assoc, m, given, device) && EstimateFits(sectors, blockSize, m)
    ensures RequestFits(sectors, blockSize, assoc, m)
  {
    NotTiny(sectors, blockSize, assoc, m, given, device);
    FitsYes(sectors, blockSize, assoc, m);
  }

  /** All requests under 2^36 sectors, 32 terabytes, are in the clear. */
  lemma OrdinaryFits(sectors: nat, blockSize: nat, assoc: nat, m: nat, given: bool, device: nat)
    requires Accepted(sectors, blockSize, assoc, m, given, device) && sectors <= 0x10_0000_0000
    ensures RequestFits(sectors, blockSize, assoc, m)
  {
    Modest(sectors, blockSize, m);
    CreateFits(sectors, blockSize, assoc, m, given, device);
  }

  lemma Modest(sectors: nat, blockSize: nat, m: nat)
    requires LegalBlock(m) && blockSize > 0 && sectors <= 0x10_0000_0000
    ensures SlotsPerBlock(m) > 0 && MdBlocks(m, sectors / blockSize) * m < INTS
  {
    MdShare(m, sectors / blockSize);
    DivShrinks(sectors, blockSize);
  }

  /** A request of three metadata blocks or more is larger than its estimate. */
  lemma EnoughToCreate(sectors: nat, blockSize: nat, m: nat)
    requires LegalBlock(m) && blockSize > 0 && sectors >= 3 * m
    ensures SlotsPerBlock(m) > 0 && sectors >= MdBlocks(m, sectors / blockSize) * m
  {
    MdShare(m, sectors / blockSize);
    DivShrinks(sectors, blockSize);
  }

  /** 2^37 one-sector blocks on an SSD twice that large pass the capacity test, although slots and
      metadata take four billion sectors more than were asked for. */
  lemma OversizedAccepted()
    ensures Accepted(0x20_0000_0000, 1, 1024, 8, true, 0x40_0000_0000)
    ensures CacheSize(0x20_0000_0000, 1, 1024, 8) > 0x20_0000_0000 && !RequestFits(0x20_0000_0000, 1, 1024, 8)
  {
    OversizedLegal();
    OversizedSlots();
  }

  lemma OversizedLegal()
    ensures LegalRequest(0x20_0000_0000, 1, 1024, 8, true)
  {
  }

  lemma OversizedSlots()
    ensures CreateSlots(0x20_0000_0000, 1, 1024, 8) == 0x1F_FFFF_FC00
    ensures MdSectors(8, 0x1F_FFFF_FC00) == INTS - 16 && MdBlocks(8, 0x1F_FFFF_FC00) == 0x1FFF_FFFE
  {
    assert SlotsPerBlock(8) == 256;
    assert MdBlocks(8, 0x20_0000_0000) == 0x2000_0002;
    assert MdSectors(8, 0x20_0000_0000) == 16;
    assert RoundDown(0x20_0000_0000 - 16, 1, 1024) == 0x1F_FFFF_FC00;
  }

  // ----- writing the metadata of a new cache -----

  const TOTALS_AGAIN := 0x20_0000_0000   // so many slots take 2^32 sectors of records

  /** Records of whole metadata blocks. */
  lemma WholeSectors(m: nat, slots: nat)
    requires LegalBlock(m) && SlotsPerBlock(m) > 0 && slots % SlotsPerBlock(m) == 0
    ensures slots == PER_SECTOR * Sectors(m, slots)
  {
    BlockFacts(m);
    DivShrinks(slots, SlotsPerBlock(m));
    Product(slots / SlotsPerBlock(m), m);
  }

  /** The totals the store of a new cache compares agree for what an int counts, and then again
      every 2^37 slots. */
  lemma CompletesWhole(m: nat, slots: nat)
    requires LegalBlock(m) && SlotsPerBlock(m) > 0 && slots % SlotsPerBlock(m) == 0
    ensures Completes(m, slots) <==> slots <= COUNTED || (slots <= WORD - COUNTED && slots % TOTALS_AGAIN == COUNTED)
  {
    CompletesIff(m, slots);
    WholeSectors(m, slots);
    Again(Sectors(m, slots));
  }

  lemma Again(t: nat)
    ensures PER_SECTOR * t % TOTALS_AGAIN == COUNTED <==> t % INTS == 0x400_0000
  {
    assert PER_SECTOR * t == t / INTS * TOTALS_AGAIN + PER_SECTOR * (t % INTS);
  }

  /** What is created are whole sets, and so whole metadata blocks. */
  lemma CreatedWhole(sectors: nat, blockSize: nat, assoc: nat, m: nat, given: bool, device: nat)
    requires Accepted(sectors, blockSize, assoc, m, given, device)
    ensures CreateSlots(sectors, blockSize, assoc, m) % SlotsPerBlock(m) == 0
  {
    if given { WholeBlocks(assoc, m); } else { DefaultBlocks(); }
    Multiple(Over(Over(Minus(sectors, MdSectors(m, Over(sectors, blockSize))), blockSize), assoc), Over(assoc, SlotsPerBlock(m)), SlotsPerBlock(m), assoc);
  }

  lemma DefaultBlocks()
    ensures SlotsPerBlock(8) == 256 && 512 == 512 / SlotsPerBlock(8) * SlotsPerBlock(8)
  {
  }

  lemma Multiple(a: nat, k: nat, s: nat, b: nat)
    requires s > 0 && b == k * s
    ensures a * b % s == 0
  {
    Spread(a, k, s);
    DivIs(a * b, s, a * k, 0);
  }

  lemma Spread(a: nat, k: nat, s: nat)
    ensures a * (k * s) == (a * k) * s
  {
  }

  /** Few slots come only of requests whose estimate fits. */
  lemma FewSlots(sectors: nat, blockSize: nat, assoc: nat, m: nat, given: bool, device: nat)
    requires Accepted(sectors, blockSize, assoc, m, given, device) && !EstimateFits(sectors, blockSize, m)
    ensures CreateSlots(sectors, blockSize, assoc, m) > COUNTED
  {
    var q := Over(sectors, blockSize);
    var m1 := MdSectors(m, q);
    EstimateFacts(sectors, blockSize, m);
    SlotFacts(sectors, blockSize, assoc, m, m1);
    Divided(CreateSlots(sectors, blockSize, assoc, m), m1, assoc, q, blockSize, sectors);
  }

  lemma Divided(slots: nat, m1: nat, assoc: nat, q: nat, blockSize: nat, sectors: nat)
    requires blockSize > 0 && q * blockSize <= sectors && sectors - m1 - blockSize * assoc < slots * blockSize
    ensures slots + m1 + assoc > q
  {
    Times(slots, m1, blockSize);
    Times(slots + m1, assoc, blockSize);
    Swapped(blockSize, assoc);
    MulMono(1, blockSize, m1);
    if slots + m1 + assoc <= q { MulMono(slots + m1 + assoc, q, blockSize); }
  }

  /** So many slots come only of requests whose estimate does not fit. */
  lemma ManyMoreSlots(sectors: nat, blockSize: nat, assoc: nat, m: nat, given: bool, device: nat)
    requires Accepted(sectors, blockSize, assoc, m, given, device) && CreateSlots(sectors, blockSize, assoc, m) >= TOTALS_AGAIN
    ensures !EstimateFits(sectors, blockSize, m)
  {
    NotTiny(sectors, blockSize, assoc, m, given, device);
    MdShare(m, Over(sectors, blockSize));
    if EstimateFits(sectors, blockSize, m) { SlotsAtMost(sectors, blockSize, assoc, m); }
  }

  lemma SlotsAtMost(sectors: nat, blockSize: nat, assoc: nat, m: nat)
    requires blockSize > 0 && assoc > 0 && SlotsPerBlock(m) > 0 && EstimateFits(sectors, blockSize, m)
    requires MdBlocks(m, sectors / blockSize) * m <= sectors < WORD
    ensures CreateSlots(sectors, blockSize, assoc, m) <= sectors / blockSize
  {
    MdSectorsIs(m, sectors / blockSize);
    Small(MdBlocks(m, sectors / blockSize) * m);
    Wraps(sectors - MdSectors(m, sectors / blockSize));
    SizeSmaller(sectors, sectors - MdSectors(m, sectors / blockSize), blockSize, assoc);
  }

  /** An accepted creation is completed exactly for up to 2^31 slots and for so many above a
      multiple of 2^37; all others stop in the sector mismatch panic. One that is completed fits
      the sectors asked for exactly if it has up to 2^31 slots. */
  lemma CompletedFits(sectors: nat, blockSize: nat, assoc: nat, m: nat, given: bool, device: nat)
    requires Accepted(sectors, blockSize, assoc, m, given, device)
    ensures var slots := CreateSlots(sectors, blockSize, assoc, m);
            && (Completes(m, slots) <==> slots <= COUNTED || (slots <= WORD - COUNTED && slots % TOTALS_AGAIN == COUNTED))
            && (Completes(m, slots) ==> (RequestFits(sectors, blockSize, assoc, m) <==> slots <= COUNTED))
  {
    var slots := CreateSlots(sectors, blockSize, assoc, m);
    CreatedWhole(sectors, blockSize, assoc, m, given, device);
    CompletesWhole(m, slots);
    CreateFits(sectors, blockSize, assoc, m, given, device);
    if !EstimateFits(sectors, blockSize, m) {
      FewSlots(sectors, blockSize, assoc, m, given, device);
    } else if slots >= TOTALS_AGAIN {
      ManyMoreSlots(sectors, blockSize, assoc, m, given, device);
    }
  }

  /** There is such a request beyond: 2^37 + 2^31 slots are made of it, the totals agree, and the
      cache takes more than it was given. */
  lemma OversizedCompletes()
    ensures Accepted(139655710976, 1, 1024, 8, true, 0x40_0000_0000) && !RequestFits(139655710976, 1, 1024, 8)
    ensures CreateSlots(139655710976, 1, 1024, 8) == TOTALS_AGAIN + COUNTED && Completes(8, TOTALS_AGAIN + COUNTED)
  {
    BeyondSlots();
    BeyondLegal();
    CompletedFits(139655710976, 1, 1024, 8, true, 0x40_0000_0000);
  }

  lemma BeyondLegal()
    ensures LegalRequest(139655710976, 1, 1024, 8, true)
  {
  }

  lemma BeyondSlots()
    ensures CreateSlots(139655710976, 1, 1024, 8) == TOTALS_AGAIN + COUNTED
    ensures CacheSize(139655710976, 1, 1024, 8) == 139653546000
  {
    assert SlotsPerBlock(8) == 256;
    assert MdBlocks(8, 139655710976) == 545530123;
    assert MdSectors(8, 139655710976) == 69273688;
    assert RoundDown(139655710976 - 69273688, 1, 1024) == TOTALS_AGAIN + COUNTED;
    assert MdBlocks(8, TOTALS_AGAIN + COUNTED) == 545259522;
  }

  // ----- the areas -----

  /** INDEX_TO_CACHE_ADDR; the shift is by the power of two blockSize is. */
  function CacheAddr(mdBlocks: nat, m: nat, blockSize: nat, index: nat): nat { index * blockSize + mdBlocks * m }

  /** CACHE_ADDR_TO_INDEX */
  function AddrIndex(mdBlocks: nat, m: nat, blockSize: nat, addr: nat): nat
    requires blockSize > 0 && addr >= mdBlocks * m
  {
    (addr - mdBlocks * m) / blockSize
  }

  /** First sector of the metadata block of slot i. */
  function MdAddr(m: nat, i: nat): nat
    requires SlotsPerBlock(m) > 0
  {
    m + i / SlotsPerBlock(m) * m
  }

  /** Every sector of a block leads back to its slot. */
  lemma AddressInverse(mdBlocks: nat, m: nat, blockSize: nat, i: nat, offset: nat)
    requires offset < blockSize
    ensures AddrIndex(mdBlocks, m, blockSize, CacheAddr(mdBlocks, m, blockSize, i) + offset) == i
  {
    DivIs(i * blockSize + offset, blockSize, i, offset);
  }

  /** The data blocks of any two slots are disjoint, behind the metadata, and within the
      footprint. */
  lemma DataInArea(m: nat, slots: nat, blockSize: nat, i: nat, j: nat)
    requires SlotsPerBlock(m) > 0 && i < slots && j < slots
    ensures var mdBlocks := MdBlocks(m, slots);
      && mdBlocks * m <= CacheAddr(mdBlocks, m, blockSize, j) && CacheAddr(mdBlocks, m, blockSize, j) + blockSize <= Footprint(m, slots, blockSize)
      && (i < j ==> CacheAddr(mdBlocks, m, blockSize, i) + blockSize <= CacheAddr(mdBlocks, m, blockSize, j))
  {
    MulStep(j, slots, blockSize);
    if i < j { MulStep(i, j, blockSize); }
  }

  lemma MulStep(a: nat, b: nat, c: nat)
    requires a < b
    ensures a * c + c <= b * c
  {
    MulMono(a + 1, b, c);
    Times(a, 1, c);
  }

  /** The metadata blocks of any two slots are the same or disjoint, behind the superblock, and
      before the data. */
  lemma MdInArea(m: nat, slots: nat, i: nat, j: nat)
    requires m > 0 && SlotsPerBlock(m) > 0 && i < slots && j < slots
    ensures m <= MdAddr(m, i) && MdAddr(m, i) + m <= MdBlocks(m, slots) * m
    ensures i / SlotsPerBlock(m) < j / SlotsPerBlock(m) ==> MdAddr(m, i) + m <= MdAddr(m, j)
    ensures i / SlotsPerBlock(m) == j / SlotsPerBlock(m) ==> MdAddr(m, i) == MdAddr(m, j)
  {
    MulMono(0, i / SlotsPerBlock(m), m);
    if i / SlotsPerBlock(m) < j / SlotsPerBlock(m) { MulStep(i / SlotsPerBlock(m), j / SlotsPerBlock(m), m); }
    MdBounds(m, slots, i);
  }

  lemma MdBounds(m: nat, slots: nat, i: nat)
    requires m > 0 && SlotsPerBlock(m) > 0 && i < slots
    ensures MdAddr(m, i) + m <= MdBlocks(m, slots) * m
  {
    MdMono(m, i, slots);
    TwoMore(i / SlotsPerBlock(m), m);
  }

  /** All slots of a metadata block are in one cache set, so one set lock covers its snapshot. */
  lemma MdBlockInOneSet(perBlock: nat, blocks: nat, assoc: nat, i: nat, j: nat)
    requires perBlock > 0 && blocks > 0 && assoc == blocks * perBlock && i / perBlock == j / perBlock
    ensures i / assoc == j / assoc
  {
    NestedDiv(i, perBlock, blocks);
    NestedDiv(j, perBlock, blocks);
  }

  lemma NestedDiv(i: nat, s: nat, k: nat)
    requires s > 0 && k > 0
    ensures k * s > 0 && i / (k * s) == i / s / k
  {
    MulMono(1, k, s);
    NestedDivOf(i, s, k, i / s, i % s, i / s / k, i / s % k);
  }

  lemma NestedDivOf(i: nat, s: nat, k: nat, a: nat, r: nat, b: nat, t: nat)
    requires i == a * s + r && r < s && a == b * k + t && t < k
    ensures k * s > 0 && i / (k * s) == b
  {
    Times(b * k, t, s);
    Times(b, k, s);
    Times(k, b, s);
    MulStep(t, k, s);
    DivIs(i, k * s, b, t * s + r);
  }

  /** flashcache_ctr only accepts sets of whole metadata blocks. */
  lemma WholeBlocks(assoc: nat, m: nat)
    requires PowerOfTwo(assoc) && LegalBlock(m) && assoc >= SlotsPerBlock(m)
    ensures SlotsPerBlock(m) > 0 && assoc / SlotsPerBlock(m) > 0 && assoc == assoc / SlotsPerBlock(m) * SlotsPerBlock(m)
  {
    PowerOfSlots(m);
    PowersDivide(assoc, SlotsPerBlock(m));
    Exactly(assoc, SlotsPerBlock(m));
  }

  /** Records fill blocks in powers of two. */
  lemma PowerOfSlots(m: nat)
    requires LegalBlock(m)
    ensures SlotsPerBlock(m) > 0 && PowerOfTwo(SlotsPerBlock(m))
  {
    LegalBlocks(m);
    BlockFacts(m);
    Doubled(m);
    Doubled(2 * m);
    Doubled(4 * m);
    Doubled(8 * m);
    Doubled(16 * m);
  }

  lemma Doubled(n: nat)
    requires PowerOfTwo(n)
    ensures PowerOfTwo(2 * n)
  {
    assert 2 * n / 2 == n;
  }

  lemma Exactly(a: nat, b: nat)
    requires b > 0 && a >= b && a % b == 0
    ensures a / b > 0 && a == a / b * b
  {
    DivShrinks(a, b);
    DivMono(b, a, b);
  }

  lemma {:induction false} PowersDivide(a: nat, b: nat)
    requires PowerOfTwo(a) && PowerOfTwo(b) && a >= b
    ensures b > 0 && a % b == 0
  {
    if b > 1 {
      PowersDivide(a / 2, b / 2);
      assert a == 2 * (a / 2) && b == 2 * (b / 2);
      var q := a / 2 / (b / 2);
      assert a / 2 == q * (b / 2) + 0;
      DivIs(a, b, q, 0);
    }
  }

  // ----- blocks and cache sets -----

  /** hash_block; jhash_1word is any function, and the shifts are by powers of two. */
  function HashBlock(jhash: nat -> nat, version: nat, diskAssoc: nat, blockSize: nat, assoc: nat, sets: nat, d: nat): nat
    requires blockSize * assoc > 0 && sets > 0
  {
    (if version < 3 || diskAssoc == 0 then d / (blockSize * assoc) else jhash(d / diskAssoc)) % sets
  }

  /** All sectors of every block hash to one set, whatever the hash function. */
  ghost predicate OneSetPerBlock(version: nat, diskAssoc: nat, blockSize: nat, assoc: nat, sets: nat)
    requires blockSize * assoc > 0 && sets > 0
  {
    forall jhash: nat -> nat, a: nat, b: nat
      {:trigger HashBlock(jhash, version, diskAssoc, blockSize, assoc, sets, a), HashBlock(jhash, version, diskAssoc, blockSize, assoc, sets, b)} ::
      a / blockSize == b / blockSize ==>
        HashBlock(jhash, version, diskAssoc, blockSize, assoc, sets, a) == HashBlock(jhash, version, diskAssoc, blockSize, assoc, sets, b)
  }

  /** So the lock of one set covers a request exactly when blocks are no larger than the
      disk clusters, if those are used. */
  lemma OneLock(version: nat, diskAssoc: nat, blockSize: nat, assoc: nat, sets: nat)
    requires PowerOfTwo(blockSize) && assoc > 0 && sets > 1 && (diskAssoc == 0 || PowerOfTwo(diskAssoc)) && blockSize * assoc > 0
    ensures OneSetPerBlock(version, diskAssoc, blockSize, assoc, sets) <==> version < 3 || diskAssoc == 0 || blockSize <= diskAssoc
  {
    if version < 3 || diskAssoc == 0 || blockSize <= diskAssoc {
      forall jhash: nat -> nat, a: nat, b: nat | a / blockSize == b / blockSize
        ensures HashBlock(jhash, version, diskAssoc, blockSize, assoc, sets, a) == HashBlock(jhash, version, diskAssoc, blockSize, assoc, sets, b)
      {
        SameCluster(version, diskAssoc, blockSize, assoc, a, b);
      }
    } else {
      TwoSets(version, diskAssoc, blockSize, assoc, sets);
    }
  }

  lemma SameCluster(version: nat, diskAssoc: nat, blockSize: nat, assoc: nat, a: nat, b: nat)
    requires PowerOfTwo(blockSize) && assoc > 0 && (diskAssoc == 0 || PowerOfTwo(diskAssoc)) && blockSize * assoc > 0
    requires (version < 3 || diskAssoc == 0 || blockSize <= diskAssoc) && a / blockSize == b / blockSize
    ensures version < 3 || diskAssoc == 0 ==> a / (blockSize * assoc) == b / (blockSize * assoc)
    ensures !(version < 3 || diskAssoc == 0) ==> a / diskAssoc == b / diskAssoc
  {
    if version < 3 || diskAssoc == 0 {
      Swapped(blockSize, assoc);
      SameMultiple(blockSize, assoc, a, b);
    } else {
      WholeClusters(diskAssoc, blockSize, a, b);
    }
  }

  lemma WholeClusters(diskAssoc: nat, blockSize: nat, a: nat, b: nat)
    requires PowerOfTwo(blockSize) && PowerOfTwo(diskAssoc) && blockSize <= diskAssoc && blockSize > 0 && a / blockSize == b / blockSize
    ensures diskAssoc > 0 && a / diskAssoc == b / diskAssoc
  {
    PowersDivide(diskAssoc, blockSize);
    Exactly(diskAssoc, blockSize);
    SameMultiple(blockSize, diskAssoc / blockSize, a, b);
  }

  lemma SameMultiple(s: nat, k: nat, a: nat, b: nat)
    requires s > 0 && k > 0 && a / s == b / s
    ensures k * s > 0 && a / (k * s) == b / (k * s)
  {
    NestedDiv(a, s, k);
    NestedDiv(b, s, k);
  }

  /** The first sector of a block and the first of its second cluster, told apart. */
  lemma TwoSets(version: nat, diskAssoc: nat, blockSize: nat, assoc: nat, sets: nat)
    requires version >= 3 && 0 < diskAssoc < blockSize && blockSize * assoc > 0 && sets > 1
    ensures !OneSetPerBlock(version, diskAssoc, blockSize, assoc, sets)
  {
    var jhash: nat -> nat := n => n;
    DivIs(diskAssoc, diskAssoc, 1, 0);
    DivIs(diskAssoc, blockSize, 0, diskAssoc);
    DivIs(0, blockSize, 0, 0);
    assert HashBlock(jhash, version, diskAssoc, blockSize, assoc, sets, 0) == 0;
    assert HashBlock(jhash, version, diskAssoc, blockSize, assoc, sets, diskAssoc) == 1;
  }

  /** The number of the bit a power of two has. */
  function Shift(n: nat): nat { if n <= 1 then 0 else 1 + Shift(n / 2) }

  /** The disk clusters flashcache_ctr lets through: it compares them with assoc * block_shift. */
  predicate LegalCluster(diskAssoc: nat, blockSize: nat, assoc: nat, sectors: nat) {
    diskAssoc == 0 || (PowerOfTwo(diskAssoc) && 256 <= diskAssoc <= 2048 && diskAssoc <= sectors && diskAssoc <= assoc * Shift(blockSize))
  }

  /** That lets clusters smaller than a block through, whose sectors then hash to two sets. */
  lemma TwoSetsAccepted(sectors: nat)
    requires 0x10_0000 <= sectors < WORD
    ensures LegalRequest(sectors, 512, 512, 8, true) && LegalCluster(256, 512, 512, sectors)
    ensures !OneSetPerBlock(3, 256, 512, 512, 2)
  {
    assert PowerOfTwo(512) && PowerOfTwo(256) && LegalBlock(8) && Shift(512) == 9;
    TwoSets(3, 256, 512, 512, 2);
  }

  // ----- finding what a request overlaps -----

  /** A sector with its position in its block masked off. */
  function Mask(blockSize: nat, d: nat): nat
    requires blockSize > 0
  {
    d / blockSize * blockSize
  }

  /** The test of the scan: the first or the last sector of the request is in the block. */
  predicate Overlaps(dbn: nat, blockSize: nat, first: nat, last: nat) {
    dbn <= first < dbn + blockSize || dbn <= last < dbn + blockSize
  }

  /** Cached blocks start at multiples of the block size. */
  ghost predicate Aligned(x: Index, blockSize: nat)
    requires blockSize > 0
  {
    |x.bits| == |x.dbn| && forall i {:trigger x.dbn[i]} :: 0 <= i < |x.dbn| && x.bits[i].valid ==> x.dbn[i] % blockSize == 0
  }

  lemma OverlapIsBlock(dbn: nat, blockSize: nat, first: nat, last: nat)
    requires blockSize > 0 && dbn % blockSize == 0 && first <= last && first / blockSize == last / blockSize
    ensures Overlaps(dbn, blockSize, first, last) <==> dbn == Mask(blockSize, first)
  {
    var q := dbn / blockSize;
    DivShrinks(first, blockSize);
    DivShrinks(last, blockSize);
    DivShrinks(dbn, blockSize);
    assert dbn == q * blockSize;
    if q < first / blockSize { MulStep(q, first / blockSize, blockSize); }
    if q > first / blockSize { MulStep(first / blockSize, q, blockSize); }
  }

  /** One lookup of the masked sector finds exactly the VALID slot the request overlaps: the
      fast invalidation does what the scan of the set does. */
  lemma FastInvalidation(jhash: nat -> nat, mine: nat -> bool, x: Index, held: Option<nat>, blockSize: nat, first: nat, last: nat, i: nat)
    requires Consistent(jhash, mine, x, held) && blockSize > 0 && Aligned(x, blockSize)
    requires first <= last && first / blockSize == last / blockSize && i < |x.bits|
    ensures x.bits[i].valid && Overlaps(x.dbn[i], blockSize, first, last) <==> Scan(x, 0, Mask(blockSize, first)) == Some(i)
  {
    ScanFinds(x, 0, Mask(blockSize, first));
    if x.bits[i].valid { OverlapIsBlock(x.dbn[i], blockSize, first, last); }
    if x.bits[i].valid && x.dbn[i] == Mask(blockSize, first) { OneSlot(x, i, Scan(x, 0, Mask(blockSize, first)).value); }
  }

  /** After a missed lookup of a whole block there is nothing left to invalidate. */
  lemma MissOverlapsNothing(x: Index, blockSize: nat, d: nat, i: nat)
    requires blockSize > 0 && Aligned(x, blockSize) && d % blockSize == 0 && Scan(x, 0, d).None? && i < |x.bits| && x.bits[i].valid
    ensures !Overlaps(x.dbn[i], blockSize, d, d + blockSize - 1)
  {
    ScanFinds(x, 0, d);
    DivIs(d, blockSize, d / blockSize, 0);
    DivIs(d + blockSize - 1, blockSize, d / blockSize, blockSize - 1);
    OverlapIsBlock(x.dbn[i], blockSize, d, d + blockSize - 1);
  }
}
