/**
 The arena of a heap: spans claimed one after the other, recorded in an address index and in a
 table of one class per span, and the two ways of finding the block a pointer belongs to.
 */
module Arena {
  import opened Bits
  import opened IndexSpec
  import opened AdaptiveIndex
  import opened SizeClasses
  import opened SpanLayout
  import HeapPools
  import HeapMemory

  const SPAN_MAGIC: nat := 0x6d656d787370616e

  /** The header at the start of a claimed span. */
  datatype SpanHeader = SpanHeader(magic: nat, blocks: nat, stride: nat, blockCount: nat, sizeClass: nat)

  datatype Resolved = Resolved(header: nat, sizeClass: nat)

  function IndexConfig(l: Layout): Config {
    Config(l.wordLog, Bounded, l.spanShift, GRANULE_SHIFT, l.base, l.size, l.WordBits())
  }

  /** Granules of one span. */
  function SpanBits(l: Layout): nat
    requires GRANULE_SHIFT <= l.spanShift
  {
    l.spanShift - GRANULE_SHIFT
  }

  lemma LegalConfig(l: Layout)
    requires l.Legal()
    ensures IndexConfig(l).Legal() && IndexConfig(l).GranuleBits() == SpanBits(l)
    ensures IndexConfig(l).RegionCount() == l.Capacity()
  {
    hide Shl, Shr, Low, And;
    AlignedDown(l.base, l.spanShift, l.commitShift);
    AlignedDown(l.size, l.spanShift, l.commitShift);
  }

  lemma AlignedDown(x: nat, n: nat, m: nat)
    requires n <= m && Low(x, m) == 0
    ensures Low(x, n) == 0
  {
    ShrShr(x, n, m - n);
    LowSmall(0, n);
  }

  /** Every claimed span, and nothing else, is mapped, each granule to the base of its span. */
  ghost predicate MapsSpans(l: Layout, m: Mapping, n: nat)
    requires GRANULE_SHIFT <= l.spanShift
  {
    && (forall g: nat :: g in m <==> Shr(g, SpanBits(l)) < n)
    && (forall g: nat :: g in m ==> m[g] == l.SpanBase(Shr(g, SpanBits(l))))
  }

  /** The range of span i, in granules. */
  lemma SpanRange(l: Layout, i: nat)
    requires l.Legal() && i < l.Capacity()
    ensures var c := IndexConfig(l);
            && c.Legal() && c.IsWord(l.SpanBase(i)) && c.IsWord(l.SpanSize()) && l.SpanBase(i) != c.Invalid()
            && ValidateRange(c, l.SpanBase(i), l.SpanSize()).status == Ok
            && RangeLow(c, l.SpanBase(i)) == Shl(i, SpanBits(l))
            && RangeHigh(c, l.SpanBase(i), l.SpanSize()) == Shl(i, SpanBits(l)) + Pow2(SpanBits(l))
  {
    hide Shl, Shr, Low, And, Pow2, Covered, ValidateConfig;
    var c := IndexConfig(l);
    LegalConfig(l);
    SpanInside(l, i);
    SpanShifts(l, i);
    var gb := SpanBits(l);
    AndMask(l.SpanBase(i), GRANULE_SHIFT);
    AndMask(l.SpanSize(), GRANULE_SHIFT);
    BaseAligned(c);
    AddAligned(l.base, Shl(i, l.spanShift), GRANULE_SHIFT);
    CoveredGranule(c, l.SpanBase(i));
    CoveredGranule(c, l.SpanBase(i) + l.SpanSize() - 1);
    CoverageLength(c);
  }

  /** A span offset counted in granules. */
  lemma SpanShifts(l: Layout, i: nat)
    requires GRANULE_SHIFT <= l.spanShift
    ensures Shr(Shl(i, l.spanShift), GRANULE_SHIFT) == Shl(i, SpanBits(l)) && Low(Shl(i, l.spanShift), GRANULE_SHIFT) == 0
    ensures Shr(l.SpanSize(), GRANULE_SHIFT) == Pow2(SpanBits(l)) && Low(l.SpanSize(), GRANULE_SHIFT) == 0
  {
    hide Shl, Shr, Low, Pow2;
    ShlShl(i, SpanBits(l), GRANULE_SHIFT);
    Unsplit(Shl(i, SpanBits(l)), 0, GRANULE_SHIFT);
    Pow2Add(SpanBits(l), GRANULE_SHIFT);
    Unsplit(Pow2(SpanBits(l)), 0, GRANULE_SHIFT);
  }

  /** Mapping one more span. */
  lemma SpanMapped(l: Layout, m: Mapping, n: nat)
    requires GRANULE_SHIFT <= l.spanShift && MapsSpans(l, m, n)
    ensures var lo := Shl(n, SpanBits(l)); var hi := lo + Pow2(SpanBits(l));
            Free(m, lo, hi) && MapsSpans(l, m + Filled(lo, hi, l.SpanBase(n)), n + 1)
  {
    hide Shl, Shr, Low, Pow2, Filled, Layout.SpanBase;
    var k := SpanBits(l);
    SpanGranules(k, n);
    FilledAt(m, Shl(n, k), Shl(n, k) + Pow2(k), l.SpanBase(n));
  }

  lemma SpanGranules(k: nat, n: nat)
    ensures forall g: nat :: Shl(n, k) <= g < Shl(n, k) + Pow2(k) <==> Shr(g, k) == n
  {
    hide Shl, Shr, Low, Pow2;
    Unsplit(n, 0, k);
    forall g: nat
      ensures Shl(n, k) <= g < Shl(n, k) + Pow2(k) <==> Shr(g, k) == n
    {
      RegionSpan(Shl(n, k), g, k);
    }
  }

  lemma FilledAt(m: Mapping, lo: nat, hi: nat, handle: nat)
    ensures var next := m + Filled(lo, hi, handle);
            && (forall g: nat :: g in next <==> g in m || lo <= g < hi)
            && (forall g: nat :: lo <= g < hi ==> next[g] == handle)
            && (forall g: nat :: g in m && !(lo <= g < hi) ==> next[g] == m[g])
  {
  }

  /** Span i is described by the header at its base. */
  ghost predicate HeaderOf(l: Layout, classes: seq<nat>, headers: map<nat, SpanHeader>, i: nat)
    requires l.Legal() && i < |classes|
  {
    var k := classes[i];
    k < CLASSES && l.SpanBase(i) in headers &&
    headers[l.SpanBase(i)] == SpanHeader(SPAN_MAGIC, l.SpanBase(i) + l.HeaderSize(), l.Stride(k), l.BlockCount(k), k)
  }

  /** The address is the payload start of some block of the first n spans. */
  ghost predicate IsPayload(l: Layout, classes: seq<nat>, n: nat, address: nat)
  {
    l.Legal() && exists i, j :: PayloadOf(l, classes, n, address, i, j)
  }

  class HeapArena {
    const l: Layout
    const index: MemxIndex
    var nextSpan: nat
    var committed: nat
    var spanClasses: seq<nat>
    var headers: map<nat, SpanHeader>

    constructor (l: Layout, index: MemxIndex)
      requires l.Legal() && index.Valid() && index.c == IndexConfig(l) && index.Mapping() == map[] && !index.flatMode && !index.overlayMode
      ensures this.l == l && this.index == index && Valid() && nextSpan == 0
    {
      this.l, this.index := l, index;
      nextSpan, committed, headers := 0, 0, map[];
      spanClasses := seq(l.Capacity(), _ => 0);
      new;
      hide MemxIndex.Valid, MemxIndex.Mapping, Shl, Shr, Low, Pow2, Layout.Legal, MapsSpans;
      NothingClaimed(l, index.Mapping());
    }

    ghost predicate Valid()
      reads this, index, index.allocator
    {
      && l.Legal() && index.Valid() && index.c == IndexConfig(l) && !index.flatMode && !index.overlayMode
      && nextSpan <= l.Capacity() && |spanClasses| == l.Capacity()
      && Shl(nextSpan, l.spanShift) <= committed <= l.size && Low(committed, l.commitShift) == 0
      && MapsSpans(l, index.Mapping(), nextSpan)
      && forall i: nat :: i < nextSpan ==> HeaderAt(i)
    }

    ghost predicate HeaderAt(i: nat)
      requires l.Legal() && i < |spanClasses|
      reads this
    {
      HeaderOf(l, spanClasses, headers, i)
    }

    /** memx_heap_commit_through_locked: whole commit chunks, never past the arena. */
    method CommitThrough(required: nat, granted: bool) returns (ok: bool)
      requires l.Legal() && required <= l.size && committed <= l.size && Low(committed, l.commitShift) == 0
      modifies this`committed
      ensures ok <==> required <= old(committed) || granted
      ensures !ok ==> committed == old(committed)
      ensures ok ==> old(committed) <= committed && required <= committed
      ensures committed <= l.size && Low(committed, l.commitShift) == 0
      ensures ok && required > old(committed) ==> committed < required + Pow2(l.commitShift) || committed == l.size
    {
      hide Pow2, Low, And;
      if required <= committed { return true; }
      AlignUpFacts(l.WordBits(), required, l.commitShift);
      var target := AlignUp(l.WordBits(), required, l.commitShift);
      if target == 0 || target > l.size { target := l.size; }
      if !granted { return false; }
      committed := target;
      ok := true;
    }

    /** memx_heap_claim_span: fails without a trace but for committed memory. */
    method ClaimSpan(k: nat, granted: bool) returns (claimed: bool)
      requires Valid() && k < CLASSES
      modifies this, index, index.allocator
      ensures Valid()
      ensures claimed ==> nextSpan == old(nextSpan) + 1 && old(nextSpan) < |spanClasses| && spanClasses == old(spanClasses)[old(nextSpan) := k]
      ensures !claimed ==> nextSpan == old(nextSpan) && spanClasses == old(spanClasses)
      ensures old(committed) <= committed
      ensures old(nextSpan) >= l.Capacity() ==> !claimed
      ensures old(nextSpan) < l.Capacity() && granted && index.allocator.failures == old(index.allocator.failures) ==> claimed
      ensures index.allocator.failures >= old(index.allocator.failures)
    {
      hide MemxIndex.Valid, MemxIndex.Mapping, MemxIndex.Canonical, Shl, Shr, Low, Pow2, And, Layout.Legal, InsertSpec, MapsSpans,
        Config.Legal, AlignUp, Quotient, TABLE;
      if nextSpan >= l.Capacity() { return false; }
      var base := l.SpanBase(nextSpan);
      RoomForSpan(l, nextSpan);
      RoomForHeader(l);
      var ok := CommitThrough(Shl(nextSpan, l.spanShift) + l.SpanSize(), granted);
      if !ok { return false; }
      SpansDiffer(l, nextSpan);
      headers := headers[base := SpanHeader(SPAN_MAGIC, base + l.HeaderSize(), l.Stride(k), l.BlockCount(k), k)];
      InsertsSpan(l, index.Mapping(), nextSpan);
      var status := index.Insert(base, l.SpanSize(), base);
      forall i: nat | i < nextSpan
        ensures HeaderAt(i)
      {
        assert old(HeaderAt(i));
      }
      if status != Ok { return false; }
      label beforePublish:
      spanClasses := spanClasses[nextSpan := k];
      nextSpan := nextSpan + 1;
      claimed := true;
      forall i: nat | i < nextSpan
        ensures HeaderAt(i)
      {
        assert i < nextSpan - 1 ==> old@beforePublish(HeaderAt(i));
      }
    }

    /**
     memx_heap_small_block_locked: succeeds exactly on the payload starts of carved blocks, and
     then its block and class are those the unchecked path computes without any lookup.
     */
    method SmallBlock(address: nat) returns (r: Option<Resolved>)
      requires Valid() && address <= l.WordMax()
      ensures r.Some? <==> IsPayload(l, spanClasses, nextSpan, address)
      ensures r.Some? ==> r == UncheckedBlock(l, spanClasses, address)
    {
      hide MemxIndex.Valid, MemxIndex.Mapping, Shl, Shr, Low, Pow2, Layout.Legal, AlignUp, MapsSpans, IsPayload, HeaderOf, Resolution,
        UncheckedBlock, Config.Invalid, Layout.SpanBase;
      PayloadsInside(l, spanClasses, nextSpan, address);
      if address < l.base || address - l.base >= l.size { return None; }
      var handle := SpanHandle(address);
      if handle == index.c.Invalid() { return None; }
      assert HeaderAt(Shr(address - l.base, l.spanShift));
      ResolutionExact(l, spanClasses, nextSpan, headers, address);
      r := Resolution(l, headers, address, handle);
    }

    /** The index knows the span of every arena address, claimed or not. */
    method SpanHandle(address: nat) returns (handle: nat)
      requires Valid() && l.base <= address && address - l.base < l.size
      ensures var i := Shr(address - l.base, l.spanShift);
              && i < l.Capacity()
              && handle == (if i < nextSpan then l.SpanBase(i) else index.c.Invalid())
              && (i < nextSpan ==> l.SpanBase(i) != index.c.Invalid())
    {
      hide MemxIndex.Valid, MemxIndex.Mapping, Shl, Shr, Low, Pow2, And, Config.Legal, Layout.Legal, LookupSpec, AlignUp, MapsSpans, HeaderAt;
      RoomForHeader(l);
      SpanLookup(l, index.Mapping(), nextSpan, address);
      handle := index.LookupAddress(address);
    }

    /** memx_heap_free_unchecked's arithmetic on a pointer into the arena. */
    method Unchecked(address: nat) returns (r: Resolved)
      requires Valid() && l.base <= address && address - l.base < l.size && l.blockHeader <= address
      ensures UncheckedBlock(l, spanClasses, address) == Some(r)
    {
      hide MemxIndex.Valid, MemxIndex.Mapping, Shl, Shr, Low, Pow2, And, MapsSpans, Layout.Legal;
      OffsetInTable(l, address);
      r := Resolved(address - l.blockHeader, spanClasses[Shr(address - l.base, l.spanShift)]);
    }
  }

  predicate InArena(l: Layout, classes: seq<nat>, address: nat) {
    l.base <= address && l.blockHeader <= address && Shr(address - l.base, l.spanShift) < |classes|
  }

  /** The header just before a payload, and the class the span table holds for its arena offset. */
  function UncheckedBlock(l: Layout, classes: seq<nat>, address: nat): Option<Resolved> {
    if InArena(l, classes, address) then Some(Resolved(address - l.blockHeader, classes[Shr(address - l.base, l.spanShift)])) else None
  }

  lemma NothingClaimed(l: Layout, m: Mapping)
    requires l.Legal() && m == map[]
    ensures MapsSpans(l, m, 0) && Low(0, l.commitShift) == 0 && Shl(0, l.spanShift) == 0
  {
    LowSmall(0, l.commitShift);
    ShlOne(l.spanShift);
  }

  /** The next span starts where no claimed span does. */
  lemma SpansDiffer(l: Layout, n: nat)
    ensures forall i: nat :: i < n ==> l.SpanBase(i) != l.SpanBase(n)
  {
    hide Shl, Pow2;
    forall i: nat | i < n
      ensures l.SpanBase(i) != l.SpanBase(n)
    {
      SpansApart(l, i, n);
    }
  }

  lemma PayloadsInside(l: Layout, classes: seq<nat>, n: nat, address: nat)
    requires l.Legal() && n <= l.Capacity()
    ensures IsPayload(l, classes, n, address) ==>
              l.base <= address && address - l.base < l.size && Shr(address - l.base, l.spanShift) < n
  {
    RoomForHeader(l);
    hide PayloadOf, Layout.Legal, Shr;
    if i, j :| PayloadOf(l, classes, n, address, i, j) {
      PayloadSpan(l, classes, n, address, i, j);
      PayloadClaimed(l, classes, n, address, i, j);
    }
  }

  lemma PayloadClaimed(l: Layout, classes: seq<nat>, n: nat, address: nat, i: nat, j: nat)
    requires l.alignLog <= l.WordBits() && l.HeaderSize() <= l.SpanSize() && PayloadOf(l, classes, n, address, i, j)
    ensures i < n
  {
  }

  lemma OffsetInTable(l: Layout, address: nat)
    requires l.Legal() && l.base <= address && address - l.base < l.size
    ensures Shr(address - l.base, l.spanShift) < l.Capacity()
  {
    hide Shl, Shr, Low, Pow2;
    AlignedDown(l.size, l.spanShift, l.commitShift);
    Split(address - l.base, l.spanShift);
    Split(l.size, l.spanShift);
    ShlMono(l.Capacity(), Shr(address - l.base, l.spanShift), l.spanShift);
  }

  lemma RoomForHeader(l: Layout)
    requires l.Legal()
    ensures GRANULE_SHIFT <= l.spanShift && l.alignLog <= l.WordBits() && l.HeaderSize() <= l.SpanSize() && l.blockHeader > 0
  {
  }

  lemma RoomForSpan(l: Layout, n: nat)
    requires l.Legal() && n < l.Capacity()
    ensures Shl(n, l.spanShift) + l.SpanSize() <= l.size && Shl(n + 1, l.spanShift) == Shl(n, l.spanShift) + l.SpanSize()
    ensures l.alignLog <= l.WordBits() && l.HeaderSize() <= l.SpanSize()
  {
    hide Shl, Shr, Low, Pow2;
    SpanInside(l, n);
    ShlAdd(n, 1, l.spanShift);
    ShlOne(l.spanShift);
  }

  /** Inserting the next span is accepted by the map and maps exactly that span. */
  lemma InsertsSpan(l: Layout, m: Mapping, n: nat)
    requires l.Legal() && n < l.Capacity() && MapsSpans(l, m, n)
    ensures var c := IndexConfig(l);
            && c.Legal() && c.IsWord(l.SpanBase(n)) && c.IsWord(l.SpanSize())
            && var o := InsertSpec(c, false, m, l.SpanBase(n), l.SpanSize(), l.SpanBase(n));
            && o.status == Ok && MapsSpans(l, o.mapping, n + 1)
  {
    hide Shl, Shr, Low, Pow2, And, Config.Legal, ValidateRange, RangeLow, RangeHigh, MapsSpans, Free, Filled, Layout.Legal;
    SpanRange(l, n);
    SpanMapped(l, m, n);
  }

  /** What a lookup inside the arena returns. */
  lemma SpanLookup(l: Layout, m: Mapping, n: nat, address: nat)
    requires l.Legal() && MapsSpans(l, m, n) && l.base <= address && address - l.base < l.size
    ensures var i := Shr(address - l.base, l.spanShift); var c := IndexConfig(l);
            && i < l.Capacity() && c.IsWord(address)
            && LookupSpec(c, m, address) == (if i < n then l.SpanBase(i) else c.Invalid())
            && (i < n ==> l.SpanBase(i) != c.Invalid() && l.SpanBase(i) != 0)
  {
    hide Shl, Shr, Low, Pow2, And, Covered, ValidateConfig, AddressToRegion;
    var c := IndexConfig(l);
    LegalConfig(l);
    CoveredGranule(c, address);
    CoverageLength(c);
    ShrShr(address - l.base, GRANULE_SHIFT, SpanBits(l));
    OffsetInTable(l, address);
    SpanInside(l, Shr(address - l.base, l.spanShift));
  }

  /** The tests of the checked path on one span header; the stride of a published header is never zero. */
  function Probe(l: Layout, span: SpanHeader, address: nat): Option<Resolved> {
    if span.stride == 0 || address < span.blocks + l.blockHeader then None
    else
      var offset := address - l.blockHeader - span.blocks;
      if offset % span.stride != 0 || Quotient(offset, span.stride) >= span.blockCount then None
      else Some(Resolved(address - l.blockHeader, span.sizeClass))
  }

  /** The checked path once the lookup has returned a handle. */
  function Resolution(l: Layout, headers: map<nat, SpanHeader>, address: nat, handle: nat): Option<Resolved> {
    if handle !in headers then None
    else
      var span := headers[handle];
      if handle == 0 || span.magic != SPAN_MAGIC || span.sizeClass >= CLASSES then None else Probe(l, span, address)
  }

  lemma ResolutionExact(l: Layout, classes: seq<nat>, n: nat, headers: map<nat, SpanHeader>, address: nat)
    requires l.Legal() && n <= l.Capacity() && |classes| == l.Capacity()
    requires l.base <= address && address - l.base < l.size && Shr(address - l.base, l.spanShift) < n
    requires HeaderOf(l, classes, headers, Shr(address - l.base, l.spanShift))
    ensures var r := Resolution(l, headers, address, l.SpanBase(Shr(address - l.base, l.spanShift)));
            && (r.Some? <==> IsPayload(l, classes, n, address))
            && (r.Some? ==> r == UncheckedBlock(l, classes, address))
  {
    var i := Shr(address - l.base, l.spanShift);
    assert l.SpanBase(i) != 0;
    hide IsPayload, Shr, Shl, Quotient, AlignUp, Layout.Legal, Layout.BlockCount, Probe, Layout.SpanBase;
    ProbeExact(l, classes, n, address, i);
  }

  lemma ProbeExact(l: Layout, classes: seq<nat>, n: nat, address: nat, i: nat)
    requires l.Legal() && n <= l.Capacity() && |classes| == l.Capacity() && i < n && classes[i] < CLASSES
    requires l.base <= address && address - l.base < l.size && i == Shr(address - l.base, l.spanShift)
    ensures var k := classes[i];
            var r := Probe(l, SpanHeader(SPAN_MAGIC, l.SpanBase(i) + l.HeaderSize(), l.Stride(k), l.BlockCount(k), k), address);
            && (r.Some? <==> IsPayload(l, classes, n, address))
            && (r.Some? ==> address >= l.blockHeader && r == Some(Resolved(address - l.blockHeader, k)))
  {
    StrideFits(l, classes[i]);
    hide IsPayload, Shr, Shl, Quotient, AlignUp, Layout.Legal, Layout.BlockCount;
    SameSpan(l, classes, n, address, i);
  }

  /** Inside one claimed span, the division test accepts exactly the payload starts. */
  lemma SameSpan(l: Layout, classes: seq<nat>, n: nat, address: nat, i: nat)
    requires l.Legal() && n <= l.Capacity() && |classes| == l.Capacity() && i < n && classes[i] < CLASSES
    requires l.base <= address && address - l.base < l.size && i == Shr(address - l.base, l.spanShift)
    requires l.Stride(classes[i]) > 0
    ensures var k := classes[i]; var blocks := l.SpanBase(i) + l.HeaderSize();
            IsPayload(l, classes, n, address) <==>
            (address >= blocks + l.blockHeader
             && (address - l.blockHeader - blocks) % l.Stride(k) == 0
             && Quotient(address - l.blockHeader - blocks, l.Stride(k)) < l.BlockCount(k))
  {
    hide Shl, Shr, Low, Pow2, Times, AlignUp, Quotient, Layout.BlockCount;
    var k := classes[i];
    var blocks := l.SpanBase(i) + l.HeaderSize();
    forall i': nat, j: nat | PayloadOf(l, classes, n, address, i', j)
      ensures address >= blocks + l.blockHeader && (address - l.blockHeader - blocks) % l.Stride(k) == 0
      ensures Quotient(address - l.blockHeader - blocks, l.Stride(k)) == j && i' == i
    {
      PayloadSpan(l, classes, n, address, i', j);
      DividedUnique(address - l.blockHeader - blocks, l.Stride(k), j, 0);
    }
    if address >= blocks + l.blockHeader {
      var offset := address - l.blockHeader - blocks;
      Divided(offset, l.Stride(k));
      if offset % l.Stride(k) == 0 && Quotient(offset, l.Stride(k)) < l.BlockCount(k) {
        assert PayloadOf(l, classes, n, address, i, Quotient(offset, l.Stride(k)));
      }
    }
  }

  // ----- the blocks of a new span

  /** Headers of the blocks of span i, in address order. */
  function SpanBlocks(l: Layout, i: nat, k: nat): (blocks: seq<nat>)
    requires l.Legal() && k < CLASSES
    ensures |blocks| == l.BlockCount(k) >= 1
  {
    StrideFits(l, k);
    seq(l.BlockCount(k), j requires 0 <= j < l.BlockCount(k) => l.BlockAt(i, k, j))
  }

  /** The block is carved from one of the first n spans. */
  ghost predicate CarvedFrom(l: Layout, classes: seq<nat>, n: nat, b: nat)
    requires l.Legal()
  {
    exists i: nat, j: nat :: i < n && i < |classes| && classes[i] < CLASSES && j < l.BlockCount(classes[i]) && b == l.BlockAt(i, classes[i], j)
  }

  /** A newly claimed span gives the heap blocks it has never seen, so carving never invents a second copy. */
  lemma NewBlocksAreFresh(l: Layout, classes: seq<nat>, n: nat, k: nat, m: HeapMemory.Memory)
    requires l.Legal() && n <= |classes| && k < CLASSES
    requires forall b :: b in m.carved ==> CarvedFrom(l, classes, n, b)
    ensures HeapMemory.Fresh(m, SpanBlocks(l, n, k)) && SpanBlocks(l, n, k) != []
  {
    var blocks := SpanBlocks(l, n, k);
    StrideFits(l, k);
    BlocksPositive(l, n, k);
    hide Shl, Pow2, Times, AlignUp, Quotient, Layout.Legal, Layout.BlockAt;
    forall j, j' | 0 <= j < j' < |blocks|
      ensures blocks[j] != blocks[j']
    {
      BlocksApart(l, n, k, j, n, k, j');
    }
    forall b | b in m.carved
      ensures b !in blocks
    {
      var i: nat, j: nat :| i < n && classes[i] < CLASSES && j < l.BlockCount(classes[i]) && b == l.BlockAt(i, classes[i], j);
      StrideFits(l, classes[i]);
      forall j': nat | j' < |blocks|
        ensures blocks[j'] != b
      {
        BlocksApart(l, i, classes[i], j, n, k, j');
      }
    }
  }

  lemma BlocksPositive(l: Layout, n: nat, k: nat)
    requires l.Legal() && k < CLASSES
    ensures 0 !in SpanBlocks(l, n, k)
  {
    hide Shl, Pow2, Times, AlignUp, Quotient;
  }
}
