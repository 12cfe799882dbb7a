/**
 The address index as its callers see it: a configuration that fixes the geometry of an
 address range, and one map from granule numbers to handles with the checks every
 operation makes before it changes that map.
 */
module IndexSpec {
  import opened Bits

  datatype Mode = Bounded | Sparse

  datatype Status = Ok | InvalidArgument | OutOfRange | Overlap | NotFound | OutOfMemory | Busy | Unsupported

  datatype Option<+T> = None | Some(value: T)

  /** wordLog is the base-two logarithm of the byte size of a native word: 3 for 64-bit machines. */
  datatype Config = Config(
    wordLog: nat, mode: Mode, regionShift: nat, granuleShift: nat,
    base: nat, managedSize: nat, addressBits: nat)
  {
    function WordBits(): nat { Pow2(wordLog + 3) }
    function WordMax(): nat { Pow2(WordBits()) - 1 }
    predicate IsWord(x: nat) { x <= WordMax() }
    /** The one handle that can never be inserted. */
    function Invalid(): nat { WordMax() }
    function InlineMax(): nat { Shr(WordMax(), 2) }

    function RegionSize(): nat { Pow2(regionShift) }
    function GranuleSize(): nat { Pow2(granuleShift) }
    function GranuleBits(): nat { if regionShift < granuleShift then 0 else regionShift - granuleShift }
    function PerRegion(): nat { Pow2(GranuleBits()) }
    function RegionBits(): nat { if addressBits < regionShift then 0 else addressBits - regionShift }
    function RegionCount(): nat {
      if mode.Bounded? then Shr(managedSize, regionShift) else Pow2(RegionBits())
    }
    function GranuleCount(): nat { Shl(RegionCount(), GranuleBits()) }
    function LeafBits(): nat { RegionBits() / 2 }
    function LeafCount(): nat { Pow2(LeafBits()) }
    function RootCount(): nat { Pow2(RegionBits() - LeafBits()) }

    /** A sparse index over every address of the machine. */
    predicate CoversWord() { mode.Sparse? && addressBits == WordBits() }
    predicate LastRegion(r: nat) { CoversWord() && r + 1 == RegionCount() }

    /** First byte of granule n. */
    function Address(n: nat): nat { base + Shl(n, granuleShift) }

    predicate Legal() { ValidateConfig(this) == Ok && IsWord(base) && IsWord(managedSize) && wordLog >= 1 }
  }

  function ValidateConfig(c: Config): Status {
    if c.regionShift >= c.WordBits() || c.granuleShift >= c.WordBits() || c.regionShift < c.granuleShift then InvalidArgument
    else match c.mode
      case Bounded =>
        if c.managedSize == 0 || Low(c.base, c.regionShift) != 0 || Low(c.managedSize, c.regionShift) != 0 then InvalidArgument
        else if c.managedSize > c.WordMax() - c.base then InvalidArgument
        else Ok
      case Sparse =>
        if c.base != 0 || c.addressBits == 0 || c.addressBits > c.WordBits() || c.addressBits <= c.regionShift then InvalidArgument
        else if c.addressBits - c.regionShift > 32 then Unsupported
        else Ok
  }

  // ----- addresses

  datatype Position = Position(region: nat, granule: nat)

  /** Region and granule of a covered address; None when the address lies outside the index. */
  function AddressToRegion(c: Config, address: nat): (p: Option<Position>) {
    if c.mode.Bounded? then
      if address < c.base || address - c.base >= c.managedSize then None
      else Some(Locate(c, address - c.base))
    else if c.addressBits < c.WordBits() && Shr(address, c.addressBits) != 0 then None
    else Some(Locate(c, address))
  }

  function Locate(c: Config, relative: nat): (p: Position) {
    Position(Shr(relative, c.regionShift), And(Shr(relative, c.granuleShift), c.PerRegion() - 1))
  }

  predicate Covered(c: Config, address: nat) { AddressToRegion(c, address).Some? }

  /** Number of the granule holding a covered address. */
  function GranuleOf(c: Config, address: nat): nat
    requires Covered(c, address)
  {
    Shr(address - (if c.mode.Bounded? then c.base else 0), c.granuleShift)
  }

  lemma LocateSplits(c: Config, relative: nat)
    requires c.granuleShift <= c.regionShift
    ensures var n := Shr(relative, c.granuleShift);
            Locate(c, relative) == Position(Shr(n, c.GranuleBits()), Low(n, c.GranuleBits()))
  {
    ShrShr(relative, c.granuleShift, c.GranuleBits());
    AndMask(Shr(relative, c.granuleShift), c.GranuleBits());
  }

  /** Byte length of the covered range as a whole number of granules. */
  lemma CoverageLength(c: Config)
    requires c.Legal()
    ensures Shl(c.GranuleCount(), c.granuleShift) == if c.mode.Bounded? then c.managedSize else Pow2(c.addressBits)
  {
    ShlShl(c.RegionCount(), c.GranuleBits(), c.granuleShift);
    if c.mode.Bounded? {
      Split(c.managedSize, c.regionShift);
    } else {
      Pow2Add(c.RegionBits(), c.regionShift);
    }
  }

  /** The first byte of a covered granule is covered. */
  lemma GranuleStart(c: Config, n: nat)
    requires c.Legal() && n < c.GranuleCount() && c.IsWord(c.Address(n))
    ensures Covered(c, c.Address(n)) && GranuleOf(c, c.Address(n)) == n
    ensures Shl(n + 1, c.granuleShift) == Shl(n, c.granuleShift) + Pow2(c.granuleShift)
  {
    CoveredGranule(c, c.Address(n));
    ShlMono(n, c.GranuleCount(), c.granuleShift);
    Unsplit(n, 0, c.granuleShift);
    ShlAdd(n, 1, c.granuleShift);
    ShlOne(c.granuleShift);
  }

  /** Coverage in terms of granule numbers. */
  lemma CoveredGranule(c: Config, address: nat)
    requires c.Legal() && c.IsWord(address)
    ensures Covered(c, address) <==> c.base <= address && address - c.base < Shl(c.GranuleCount(), c.granuleShift)
    ensures Covered(c, address) ==>
              var n := GranuleOf(c, address);
              n < c.GranuleCount() &&
              AddressToRegion(c, address) == Some(Position(Shr(n, c.GranuleBits()), Low(n, c.GranuleBits())))
  {
    CoverageLength(c);
    if c.mode.Sparse? {
      if address < Pow2(c.addressBits) {
        LowSmall(address, c.addressBits);
      } else {
        Split(address, c.addressBits);
        if Shr(address, c.addressBits) == 0 {
          ShlOne(c.addressBits);
          assert false;
        }
      }
    }
    if Covered(c, address) {
      LocateSplits(c, address - c.base);
      Split(address - c.base, c.granuleShift);
      ShlMono(c.GranuleCount(), GranuleOf(c, address), c.granuleShift);
    }
  }

  // ----- ranges

  datatype RangeCheck = RangeCheck(status: Status, end: nat)

  /** memx_validate_range: argument errors first, then coverage of the first and the last byte. */
  function ValidateRange(c: Config, address: nat, size: nat): (r: RangeCheck)
    requires c.IsWord(address)
    ensures r.status.Ok? ==> r.end == address + size && size > 0 && c.IsWord(r.end)
  {
    if size == 0 || And(address, c.GranuleSize() - 1) != 0 || And(size, c.GranuleSize() - 1) != 0
       || size > c.WordMax() - address then RangeCheck(InvalidArgument, 0)
    else if !Covered(c, address) || !Covered(c, address + size - 1) then RangeCheck(OutOfRange, 0)
    else RangeCheck(Ok, address + size)
  }

  /** An accepted range is the run [lo, hi) of granules. */
  function RangeLow(c: Config, address: nat): nat
    requires c.base <= address
  {
    Shr(address - c.base, c.granuleShift)
  }

  function RangeHigh(c: Config, address: nat, size: nat): nat
    requires c.base <= address
  {
    RangeLow(c, address) + Shr(size, c.granuleShift)
  }

  lemma RangeIsGranules(c: Config, address: nat, size: nat)
    requires c.Legal() && c.IsWord(address)
    requires ValidateRange(c, address, size).status == Ok
    ensures c.base <= address
    ensures RangeLow(c, address) < RangeHigh(c, address, size) <= c.GranuleCount()
    ensures c.Address(RangeLow(c, address)) == address
    ensures c.Address(RangeHigh(c, address, size)) == address + size
    ensures c.CoversWord() ==> RangeHigh(c, address, size) < c.GranuleCount()
  {
    hide Shl, Shr, Low, And, Pow2;
    CoveredGranule(c, address);
    CoveredGranule(c, address + size - 1);
    CoverageLength(c);
    AndMask(address, c.granuleShift);
    AndMask(size, c.granuleShift);
    BaseAligned(c);
    var rel := address - c.base;
    AddAligned(c.base, rel, c.granuleShift);
    Split(rel, c.granuleShift);
    Split(size, c.granuleShift);
    var lo, count := Shr(rel, c.granuleShift), Shr(size, c.granuleShift);
    ShlAdd(lo, count, c.granuleShift);
    ShlMono(0, count, c.granuleShift);
    ShlOne(c.granuleShift);
    ShlMono(c.GranuleCount(), lo + count, c.granuleShift);
    ShlMono(c.GranuleCount() + 1, lo + count, c.granuleShift);
  }

  lemma BaseAligned(c: Config)
    requires c.Legal()
    ensures Low(c.base, c.granuleShift) == 0
    ensures Low(c.base, c.regionShift) == 0
  {
    ShrShr(c.base, c.granuleShift, c.GranuleBits());
    if c.mode.Sparse? {
      LowSmall(0, c.regionShift);
      LowSmall(0, c.granuleShift);
    }
    LowSmall(0, c.granuleShift);
  }

  // ----- one part of a range: the piece inside a single region

  /** memx_region_boundary: the next region boundary, or end when that boundary is past the last word. */
  function RegionBoundary(c: Config, cursor: nat, end: nat): nat
    requires c.regionShift <= c.WordBits() && c.IsWord(cursor)
  {
    Pow2Mono(c.regionShift, c.WordBits());
    var aligned := And(cursor, Not(c.WordBits(), c.RegionSize() - 1));
    if aligned + c.RegionSize() > c.WordMax() then end else aligned + c.RegionSize()
  }

  /** First granule after n's region, or hi when the range ends sooner. */
  function NextPart(c: Config, n: nat, hi: nat): (next: nat)
    ensures n < hi ==> n < next <= hi
  {
    RegionSpan(n, n, c.GranuleBits());
    var boundary := Shl(Shr(n, c.GranuleBits()) + 1, c.GranuleBits());
    if boundary < hi then boundary else hi
  }

  lemma RegionSpan(n: nat, m: nat, k: nat)
    ensures Shr(m, k) == Shr(n, k) <==> Shl(Shr(n, k), k) <= m < Shl(Shr(n, k) + 1, k)
    ensures Shr(m, k) == Shr(n, k) ==> Low(m, k) - Low(n, k) == m - n
    ensures Shl(Shr(n, k) + 1, k) == Shl(Shr(n, k), k) + Pow2(k)
    ensures Shl(Shr(n, k), k) + Low(n, k) == n
  {
    Split(n, k);
    Split(m, k);
    ShlMono(Shr(n, k), Shr(m, k), k);
    ShlMono(Shr(m, k), Shr(n, k), k);
    ShlAdd(Shr(n, k), 1, k);
    ShlOne(k);
  }

  /**
   The byte arithmetic of the mutation loops, read as granule arithmetic. The loops compare
   part_end with region_end; that comparison also succeeds for a partial piece of the last
   region of a full-word index, because its boundary does not fit in a word.
   */
  lemma PartGeometry(c: Config, n: nat, hi: nat)
    requires c.Legal() && n < hi <= c.GranuleCount() && c.IsWord(c.Address(hi))
    ensures c.IsWord(c.Address(n)) && c.Address(n) < c.Address(hi) && c.regionShift <= c.WordBits()
    ensures var k, cursor, end := c.GranuleBits(), c.Address(n), c.Address(hi);
            var boundary := RegionBoundary(c, cursor, end);
            var partEnd := if boundary < end then boundary else end;
            var next := NextPart(c, n, hi);
            && AddressToRegion(c, cursor) == Some(Position(Shr(n, k), Low(n, k)))
            && Shr(n, k) < c.RegionCount()
            && n < next <= hi && partEnd == c.Address(next) && cursor <= partEnd
            && Shr(partEnd - cursor, c.granuleShift) == next - n
            && (And(cursor, c.RegionSize() - 1) == 0 <==> Low(n, k) == 0)
            && (partEnd == boundary <==> Shl(Shr(n, k) + 1, k) <= hi || c.LastRegion(Shr(n, k)))
            && (partEnd - cursor == c.RegionSize() <==> next - n == c.PerRegion())
  {
    hide Shl, Shr, Low, And, Pow2;
    var gs, k := c.granuleShift, c.GranuleBits();
    var r, g := Shr(n, k), Low(n, k);
    ShlMono(n, hi, gs);
    CoverageLength(c);
    ShlMono(hi, c.GranuleCount(), gs);
    CoveredGranule(c, c.Address(n));
    Unsplit(n, 0, gs);
    RegionSpan(n, n, k);
    ShlMono(c.RegionCount(), r, k);
    AlignedCursor(c, n);
    PartEnd(c, n, hi);
    var next := NextPart(c, n, hi);
    ShlMono(n, next, gs);
    ShlAdd(n, next - n, gs);
    Unsplit(next - n, 0, gs);
    Pow2Add(k, gs);
    ShlMono(next - n, c.PerRegion(), gs);
    ShlMono(c.PerRegion(), next - n, gs);
  }

  /** Clearing the low digits of a cursor gives the first byte of its region. */
  lemma AlignedCursor(c: Config, n: nat)
    requires c.Legal() && c.IsWord(c.Address(n))
    ensures var k := c.GranuleBits();
            && And(c.Address(n), c.RegionSize() - 1) == Shl(Low(n, k), c.granuleShift)
            && Pow2(c.regionShift) <= Pow2(c.WordBits())
            && And(c.Address(n), Not(c.WordBits(), c.RegionSize() - 1)) == c.Address(Shl(Shr(n, k), k))
            && (Shl(Low(n, k), c.granuleShift) == 0 <==> Low(n, k) == 0)
  {
    hide Shl, Shr, Low, And, Pow2;
    var gs, k := c.granuleShift, c.GranuleBits();
    var r, g := Shr(n, k), Low(n, k);
    BaseAligned(c);
    AndMask(c.Address(n), c.regionShift);
    AndNotMask(c.WordBits(), c.Address(n), c.regionShift);
    Split(n, k);
    ShlAdd(Shl(r, k), g, gs);
    ShlShl(r, k, gs);
    ShlMono(g, Pow2(k), gs);
    Pow2Add(k, gs);
    Unsplit(r, Shl(g, gs), c.regionShift);
    AddAligned(c.base, Shl(n, gs), c.regionShift);
    ShlOne(gs);
    ShlMono(0, g, gs);
  }

  lemma PartEnd(c: Config, n: nat, hi: nat)
    requires c.Legal() && n < hi <= c.GranuleCount() && c.IsWord(c.Address(hi)) && c.IsWord(c.Address(n))
    ensures var k, cursor, end := c.GranuleBits(), c.Address(n), c.Address(hi);
            var boundary := RegionBoundary(c, cursor, end);
            var partEnd := if boundary < end then boundary else end;
            && n < NextPart(c, n, hi) <= hi
            && partEnd == c.Address(NextPart(c, n, hi))
            && (partEnd == boundary <==> Shl(Shr(n, k) + 1, k) <= hi || c.LastRegion(Shr(n, k)))
  {
    hide Shl, Shr, Low, And, Pow2;
    var gs, k := c.granuleShift, c.GranuleBits();
    var r := Shr(n, k);
    AlignedCursor(c, n);
    RegionSpan(n, n, k);
    var first, last := Shl(r, k), Shl(r + 1, k);
    ShlAdd(first, Pow2(k), gs);
    Pow2Add(k, gs);
    assert c.Address(last) == c.Address(first) + c.RegionSize();
    ShlMono(last, hi, gs);
    ShlMono(hi, last, gs);
    ShlMono(r + 1, c.RegionCount(), k);
    ShlMono(c.RegionCount(), r, k);
    ShlMono(last, c.GranuleCount(), gs);
    ShlMono(c.GranuleCount(), last, gs);
    CoverageLength(c);
    if c.Address(last) > c.WordMax() {
      assert c.Address(last) >= Pow2(c.WordBits());
      assert c.mode.Sparse?;
      Pow2Mono(c.addressBits, c.WordBits());
      assert c.CoversWord();
      assert r + 1 == c.RegionCount() by { ShlMono(r + 2, c.RegionCount(), k); ShlMono(Shl(r + 2, k), c.GranuleCount(), gs); }
    } else if c.LastRegion(r) {
      assert false;
    }
  }

  // ----- the map

  type Mapping = map<nat, nat>

  datatype Outcome = Outcome(status: Status, mapping: Mapping)

  ghost predicate Free(m: Mapping, lo: nat, hi: nat) {
    forall n :: lo <= n < hi ==> n !in m
  }

  ghost predicate Holds(m: Mapping, lo: nat, hi: nat, handle: nat) {
    forall n :: lo <= n < hi ==> n in m && m[n] == handle
  }

  predicate Within(n: nat, lo: nat, hi: nat) { lo <= n < hi }

  function Filled(lo: nat, hi: nat, handle: nat): Mapping {
    map n: nat | 0 <= n < hi && Within(n, lo, hi) :: handle
  }

  function Span(lo: nat, hi: nat): set<nat> {
    set n: nat | 0 <= n < hi && Within(n, lo, hi)
  }

  /** Insertion into the map: rejected unless every granule of an accepted range is free. */
  ghost function InsertSpec(c: Config, frozen: bool, m: Mapping, address: nat, size: nat, handle: nat): Outcome
    requires c.Legal() && c.IsWord(address)
  {
    if handle == c.Invalid() then Outcome(InvalidArgument, m)
    else if frozen then Outcome(Busy, m)
    else if !ValidateRange(c, address, size).status.Ok? then Outcome(ValidateRange(c, address, size).status, m)
    else
      RangeIsGranules(c, address, size);
      var lo, hi := RangeLow(c, address), RangeHigh(c, address, size);
      if Free(m, lo, hi) then Outcome(Ok, m + Filled(lo, hi, handle)) else Outcome(Overlap, m)
  }

  /** Removal from the map: rejected unless every granule of the range holds the expected handle. */
  ghost function RemoveSpec(c: Config, frozen: bool, m: Mapping, address: nat, size: nat, expected: nat): Outcome
    requires c.Legal() && c.IsWord(address)
  {
    if expected == c.Invalid() then Outcome(InvalidArgument, m)
    else if frozen then Outcome(Busy, m)
    else if !ValidateRange(c, address, size).status.Ok? then Outcome(ValidateRange(c, address, size).status, m)
    else
      RangeIsGranules(c, address, size);
      var lo, hi := RangeLow(c, address), RangeHigh(c, address, size);
      if Holds(m, lo, hi, expected) then Outcome(Ok, m - Span(lo, hi)) else Outcome(NotFound, m)
  }

  function LookupSpec(c: Config, m: Mapping, address: nat): nat {
    if Covered(c, address) && GranuleOf(c, address) in m then m[GranuleOf(c, address)] else c.Invalid()
  }

  /** Removing what was just inserted restores the map; no other handle can be removed there. */
  lemma RemoveUndoesInsert(c: Config, m: Mapping, address: nat, size: nat, handle: nat)
    requires c.Legal() && c.IsWord(address)
    requires InsertSpec(c, false, m, address, size, handle).status == Ok
    ensures var m' := InsertSpec(c, false, m, address, size, handle).mapping;
            && RemoveSpec(c, false, m', address, size, handle) == Outcome(Ok, m)
            && forall other :: other != handle ==> RemoveSpec(c, false, m', address, size, other).status != Ok
  {
    RangeIsGranules(c, address, size);
    var lo, hi := RangeLow(c, address), RangeHigh(c, address, size);
    var m' := m + Filled(lo, hi, handle);
    assert m' - Span(lo, hi) == m;
    assert m'[lo] == handle;
  }

  /** What a lookup sees after an insertion: the handle inside the range, the old answer elsewhere. */
  lemma LookupAfterInsert(c: Config, m: Mapping, address: nat, size: nat, handle: nat, probe: nat)
    requires c.Legal() && c.IsWord(address) && c.IsWord(probe)
    requires InsertSpec(c, false, m, address, size, handle).status == Ok
    ensures var m' := InsertSpec(c, false, m, address, size, handle).mapping;
            LookupSpec(c, m', probe) == if address <= probe < address + size then handle else LookupSpec(c, m, probe)
  {
    hide Shl, Shr, Low, And, Pow2;
    RangeIsGranules(c, address, size);
    CoveredGranule(c, probe);
    var lo, hi := RangeLow(c, address), RangeHigh(c, address, size);
    ShlMono(hi, c.GranuleCount(), c.granuleShift);
    if c.base <= probe {
      Split(probe - c.base, c.granuleShift);
      var n := Shr(probe - c.base, c.granuleShift);
      ShlMono(lo, n, c.granuleShift);
      ShlMono(n, lo, c.granuleShift);
      ShlMono(hi, n, c.granuleShift);
      ShlMono(n, hi, c.granuleShift);
    }
  }
}
