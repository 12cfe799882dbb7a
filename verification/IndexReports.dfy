/**
 memx_index_stats: the reported counts are those of the regions, and the saturating sums are
 the exact byte totals capped at the largest word.
 */
module IndexReports {
  import opened Bits
  import opened IndexSpec
  import opened RegionShapes
  import opened DirectoryStore
  import opened AdaptiveIndex
  import opened OverlayPages

  // ----- counts

  /** Regions that stand for something. */
  ghost function Occupied(regions: seq<Region>): set<nat> { set r: nat | r < |regions| && !regions[r].Empty? }

  /** Regions whose leaf exists. */
  ghost function Slotted(c: Config, leaves: set<nat>): set<nat> {
    set r: nat | r < c.RegionCount() && Shr(r, c.LeafBits()) in leaves
  }

  /** EMPTY regions that take up a slot of some leaf. */
  ghost function EmptySlots(c: Config, regions: seq<Region>, leaves: set<nat>): set<nat> {
    set r: nat | r < |regions| && regions[r].Empty? && Shr(r, c.LeafBits()) in leaves
  }

  lemma {:induction false} CountSnoc(regions: seq<Region>, x: Region)
    ensures DenseCount(regions + [x]) == DenseCount(regions) + if x.Dense? then 1 else 0
    ensures UniformCount(regions + [x]) == UniformCount(regions) + if x.Uniform? then 1 else 0
  {
    if regions != [] {
      assert (regions + [x])[1..] == regions[1..] + [x];
      CountSnoc(regions[1..], x);
    }
  }

  lemma {:induction false} OccupiedSize(regions: seq<Region>)
    ensures |Occupied(regions)| == DenseCount(regions) + UniformCount(regions)
  {
    hide Occupied;
    if regions == [] {
      assert Occupied(regions) == {} by { NothingOccupied(); }
    } else {
      var n := |regions| - 1;
      OccupiedSize(regions[..n]);
      CountSnoc(regions[..n], regions[n]);
      assert regions[..n] + [regions[n]] == regions;
      OccupiedSnoc(regions);
    }
  }

  lemma NothingOccupied()
    ensures Occupied([]) == {}
  {
  }

  lemma OccupiedSnoc(regions: seq<Region>)
    requires regions != []
    ensures |Occupied(regions)| == |Occupied(regions[..|regions| - 1])| + if regions[|regions| - 1].Empty? then 0 else 1
  {
    var n := |regions| - 1;
    var rest := Occupied(regions[..n]);
    assert n !in rest;
    assert Occupied(regions) == if regions[n].Empty? then rest else rest + {n};
  }

  /** Every leaf has a slot for LeafCount regions. */
  lemma {:induction false} SlottedSize(c: Config, leaves: set<nat>)
    requires c.Legal() && c.mode.Sparse? && forall i :: i in leaves ==> i < c.RootCount()
    ensures |Slotted(c, leaves)| == |leaves| * c.LeafCount()
  {
    hide Shl, Shr, Low, Pow2, Config.Legal, Config.LeafCount, Slotted;
    if leaves == {} {
      SlottedSplit(c, {}, 0);
    } else {
      var i :| i in leaves;
      var rest := leaves - {i};
      assert leaves == rest + {i};
      SlottedSize(c, rest);
      LeafSlots(c, i);
      SlottedSplit(c, rest, i);
      SubsetSize(Slotted(c, {i}), Slotted(c, leaves));
      SubsetSize({i}, leaves);
      Distributes(|rest|, c.LeafCount());
    }
  }

  lemma Distributes(n: nat, x: nat)
    ensures (n + 1) * x == n * x + x
  {
  }

  lemma SlottedSplit(c: Config, leaves: set<nat>, i: nat)
    requires i !in leaves
    ensures Slotted(c, {}) == {} && Slotted(c, {i}) <= Slotted(c, leaves + {i})
    ensures Slotted(c, leaves + {i}) - Slotted(c, {i}) == Slotted(c, leaves)
  {
    hide Shr;
  }

  lemma LeafSlots(c: Config, i: nat)
    requires c.Legal() && c.mode.Sparse? && i < c.RootCount()
    ensures |Slotted(c, {i})| == c.LeafCount()
  {
    hide Shl, Shr, Low, Pow2;
    var lb := c.LeafBits();
    var start := Shl(i, lb);
    Pow2Add(c.RegionBits() - lb, lb);
    ShlMono(i, c.RootCount(), lb);
    forall r: nat
      ensures Shr(r, lb) == i <==> start <= r < start + c.LeafCount()
    {
      Split(r, lb);
      ShlMono(Shr(r, lb), i, lb);
      ShlMono(i, Shr(r, lb), lb);
    }
    IntervalSize(start, start + c.LeafCount());
    assert Slotted(c, {i}) == Interval(start, start + c.LeafCount());
  }

  /** A region that is not EMPTY has a slot. */
  lemma OccupiedSlotted(c: Config, s: Store, regions: seq<Region>)
    requires Sound(c, s, regions) && c.mode.Sparse?
    ensures Occupied(regions) <= Slotted(c, Present(s))
    ensures EmptySlots(c, regions, Present(s)) == Slotted(c, Present(s)) - Occupied(regions)
  {
    hide Shl, Shr, Low, Pow2, And, Fits;
    forall r | r in Occupied(regions)
      ensures r in Slotted(c, Present(s))
    {
      RootIndex(c, r);
      assert Linked(c, s, regions, r);
    }
  }

  lemma SubsetSize(a: set<nat>, b: set<nat>)
    requires a <= b
    ensures |b - a| == |b| - |a|
  {
    assert b == (b - a) + a;
  }

  /** What the reported counters mean, in every adaptive state. */
  lemma CountsExact(a: MemxIndex, indexBytes: nat, pageShift: nat)
    requires a.Adaptive() && a.c.RegionCount() <= a.c.WordMax()
    ensures a.denseRegions == DenseCount(a.regions) && a.uniformRegions == UniformCount(a.regions)
    ensures a.allocatedLeaves == |Present(a.Memory())|
    ensures var s := a.Stats(indexBytes, pageShift);
            && s.denseRegions == a.denseRegions && s.uniformRegions == a.uniformRegions && s.regionCount == |a.regions|
            && s.emptyRegions == if a.c.mode.Bounded? then EmptyCount(a.regions) else |EmptySlots(a.c, a.regions, Present(a.Memory()))|
  {
    hide Shl, Shr, Low, Pow2, And, MapOf, Sound, Reachable, PageAccount, DenseCount, UniformCount, Config.LeafCount, SatMul;
    var c := a.c;
    var leaves := Present(a.Memory());
    SoundShape(c, a.Memory(), a.regions);
    LeavesArePresent(c, a.Memory(), a.regions);
    CountsPartition(a.regions);
    if c.mode.Sparse? {
      SlottedSize(c, leaves);
      OccupiedSlotted(c, a.Memory(), a.regions);
      OccupiedSize(a.regions);
      SubsetSize(Occupied(a.regions), Slotted(c, leaves));
      SlottedBound(c, leaves);
      SatMulExact(a.allocatedLeaves, c.LeafCount(), c.WordMax());
    }
  }

  lemma SlottedBound(c: Config, leaves: set<nat>)
    ensures |Slotted(c, leaves)| <= c.RegionCount()
  {
    hide Shr;
    IntervalSize(0, c.RegionCount());
    SubsetSize(Slotted(c, leaves), Interval(0, c.RegionCount()));
  }

  // ----- bytes

  /** The largest word stands for anything larger. */
  function Capped(x: nat, max: nat): nat { if x > max then max else x }

  function Times(n: nat, x: nat): nat { n * x }

  lemma SatMulExact(n: nat, x: nat, max: nat)
    requires max >= 1
    ensures SatMul(n, x, max) == Capped(Times(n, x), max)
    ensures SatMul(n, Capped(x, max), max) == Capped(Times(n, x), max)
  {
    MulDiv(n, x, max);
    MulDiv(n, max, max);
    if x > max && n >= 1 {
      assert n * x >= x by { MulMono(1, n, x); }
      assert n * max >= max by { MulMono(1, n, max); }
    }
  }

  lemma MulMono(a: nat, b: nat, x: nat)
    requires a <= b
    ensures a * x <= b * x
  {
  }

  lemma MulDiv(n: nat, x: nat, max: nat)
    ensures x != 0 ==> (n > max / x <==> n * x > max)
  {
    if x != 0 {
      assert max == x * (max / x) + max % x;
      if n > max / x { MulMono(max / x + 1, n, x); } else { MulMono(n, max / x, x); }
    }
  }

  lemma PageAccountExact(bytes: nat, p: nat, w: nat)
    requires p <= w
    ensures PageAccount(Capped(bytes, Pow2(w) - 1), p, Pow2(w) - 1) == Capped(PageCeil(bytes, p), Pow2(w) - 1)
    ensures PageAccount(bytes, p, Pow2(w) - 1) == Capped(PageCeil(bytes, p), Pow2(w) - 1)
  {
    hide Shl, Shr, Low, Pow2;
    CeilBounds(bytes, p);
    LowSmall(Pow2(p) - 1, p);
    if bytes + Pow2(p) - 1 >= Pow2(w) {
      Pow2Add(w - p, p);
      Unsplit(Pow2(w - p), 0, p);
      MultiplesApart(PageCeil(bytes, p), Pow2(w), p);
      if p == 0 { NoDigits(Pow2(w) - 1); }
    }
  }

  lemma NoDigits(x: nat)
    ensures Low(x, 0) == 0 && Pow2(0) == 1
  {
  }

  lemma CeilBounds(bytes: nat, p: nat)
    ensures bytes <= PageCeil(bytes, p) <= bytes + Pow2(p) - 1 && Low(PageCeil(bytes, p), p) == 0
  {
    hide Shl, Shr, Low, Pow2;
    Unsplit(Shr(bytes + Pow2(p) - 1, p), 0, p);
  }

  /** Byte lengths before any rounding or capping. */
  function TableBytes(c: Config): nat { Shl(c.PerRegion(), c.wordLog) }
  function LeafBytes(c: Config): nat { Times(c.LeafCount(), Pow2(c.wordLog)) }
  function SlotBytes(c: Config): nat { Times(if c.mode.Bounded? then c.RegionCount() else c.RootCount(), Pow2(c.wordLog)) }

  /** The blocks of an adaptive index: itself, its directory, its leaves and its tables, each in whole pages of 2^p bytes. */
  function Total(c: Config, indexBytes: nat, leaves: nat, tables: nat, p: nat): nat {
    PageCeil(indexBytes, p) + PageCeil(SlotBytes(c), p)
    + (if c.mode.Bounded? then 0 else Times(leaves, PageCeil(LeafBytes(c), p))) + Times(tables, PageCeil(TableBytes(c), p))
  }

  /** Pages of one byte round nothing. */
  lemma BytePages(x: nat)
    ensures PageCeil(x, 0) == x
  {
  }

  lemma MaxPositive(c: Config)
    ensures c.WordMax() >= 1
  {
    Pow2Mono(1, c.WordBits());
    assert Pow2(1) == 2;
  }

  /** The parts the report is computed from. */
  lemma PartsExact(c: Config, indexBytes: nat, leaves: nat, tables: nat, p: nat)
    requires p <= c.WordBits()
    ensures var max, word := c.WordMax(), Pow2(c.wordLog);
            var slots := SatMul(if c.mode.Bounded? then c.RegionCount() else c.RootCount(), word, max);
            var leafBytes := SatAdd(word, SatMul(c.LeafCount() - 1, word, max), max);
            && slots == Capped(SlotBytes(c), max)
            && SatMul(leaves, leafBytes, max) == Capped(Times(leaves, LeafBytes(c)), max)
            && SatMul(tables, TableBytes(c), max) == Capped(Times(tables, TableBytes(c)), max)
            && PageAccount(indexBytes, p, max) == Capped(PageCeil(indexBytes, p), max)
            && PageAccount(slots, p, max) == Capped(PageCeil(SlotBytes(c), p), max)
            && SatMul(leaves, PageAccount(leafBytes, p, max), max) == Capped(Times(leaves, PageCeil(LeafBytes(c), p)), max)
            && SatMul(tables, PageAccount(TableBytes(c), p, max), max) == Capped(Times(tables, PageCeil(TableBytes(c), p)), max)
  {
    hide Pow2, Shl, PageAccount, PageCeil, SatMul, Config.RegionCount, Config.RootCount, Config.PerRegion;
    var max, word, w := c.WordMax(), Pow2(c.wordLog), c.WordBits();
    MaxPositive(c);
    SatMulExact(if c.mode.Bounded? then c.RegionCount() else c.RootCount(), word, max);
    SatMulExact(c.LeafCount() - 1, word, max);
    Distributes(c.LeafCount() - 1, word);
    SatMulExact(leaves, LeafBytes(c), max);
    SatMulExact(tables, TableBytes(c), max);
    PageAccountExact(indexBytes, p, w);
    PageAccountExact(SlotBytes(c), p, w);
    PageAccountExact(LeafBytes(c), p, w);
    PageAccountExact(TableBytes(c), p, w);
    SatMulExact(leaves, PageCeil(LeafBytes(c), p), max);
    SatMulExact(tables, PageCeil(TableBytes(c), p), max);
  }

  lemma SumsExact(i: nat, s: nat, l: nat, t: nat, max: nat)
    ensures SatAdd(i, Capped(s, max), max) == Capped(i + s, max) == SatAdd(Capped(i, max), Capped(s, max), max)
    ensures SatAdd(Capped(i + s, max), Capped(l, max), max) == Capped(i + s + l, max)
    ensures SatAdd(Capped(i + s + l, max), Capped(t, max), max) == Capped(i + s + l + t, max)
    ensures SatAdd(Capped(i + s, max), Capped(t, max), max) == Capped(i + s + t, max)
  {
  }

  /** The reported totals of an adaptive index are its exact byte and page totals, capped at the largest word. */
  lemma TotalsExact(a: MemxIndex, indexBytes: nat, pageShift: nat)
    requires !a.flatMode && !a.overlayMode && pageShift <= a.c.WordBits()
    ensures var s, c := a.Stats(indexBytes, pageShift), a.c;
            && s.storage.AdaptiveStorage? && s.reservedBytes == 0
            && s.representationBytes == Capped(Times(a.denseRegions, TableBytes(c)), c.WordMax())
            && s.directoryBytes == Capped(Total(c, indexBytes, a.allocatedLeaves, 0, 0), c.WordMax())
            && s.totalBytes == Capped(Total(c, indexBytes, a.allocatedLeaves, a.denseRegions, 0), c.WordMax())
            && s.pageAccountedBytes == Capped(Total(c, indexBytes, a.allocatedLeaves, a.denseRegions, pageShift), c.WordMax())
  {
    hide Pow2, Shl, PageAccount, PageCeil, SatMul, SatAdd, Capped, Times, Config.RegionCount, Config.RootCount, Config.LeafCount,
      Config.PerRegion, Config.WordBits, SlotBytes, LeafBytes;
    var c, max, leaves, tables := a.c, a.c.WordMax(), a.allocatedLeaves, a.denseRegions;
    PartsExact(c, indexBytes, leaves, tables, pageShift);
    BytePages(indexBytes);
    BytePages(SlotBytes(c));
    BytePages(LeafBytes(c));
    BytePages(TableBytes(c));
    NoTables(TableBytes(c));
    SumsExact(indexBytes, SlotBytes(c), Times(leaves, LeafBytes(c)), Times(tables, TableBytes(c)), max);
    SumsExact(PageCeil(indexBytes, pageShift), PageCeil(SlotBytes(c), pageShift),
              Times(leaves, PageCeil(LeafBytes(c), pageShift)), Times(tables, PageCeil(TableBytes(c), pageShift)), max);
  }

  lemma NoTables(x: nat)
    ensures Times(0, x) == 0
  {
  }

  /** A FLAT index reports itself and its one table. */
  lemma FlatTotals(a: MemxIndex, indexBytes: nat, pageShift: nat)
    requires a.flatMode && pageShift <= a.c.WordBits()
    ensures var s, c := a.Stats(indexBytes, pageShift), a.c; var table := Times(c.GranuleCount(), Pow2(c.wordLog));
            && s.storage.FlatStorage? && s.representationBytes == 0 && s.reservedBytes == 0
            && s.directoryBytes == s.totalBytes == Capped(indexBytes + table, c.WordMax())
            && s.pageAccountedBytes == Capped(PageCeil(indexBytes, pageShift) + PageCeil(table, pageShift), c.WordMax())
  {
    hide Pow2, Shl, PageAccount, PageCeil, SatMul, SatAdd, Capped, Times, Config.GranuleCount, Config.WordBits;
    var c, max, w := a.c, a.c.WordMax(), a.c.WordBits();
    var table := Times(c.GranuleCount(), Pow2(c.wordLog));
    MaxPositive(c);
    SatMulExact(c.GranuleCount(), Pow2(c.wordLog), max);
    PageAccountExact(indexBytes, pageShift, w);
    PageAccountExact(table, pageShift, w);
    SumsExact(indexBytes, table, 0, 0, max);
    SumsExact(PageCeil(indexBytes, pageShift), PageCeil(table, pageShift), 0, 0, max);
  }

  /** A frozen index reports itself, its descriptors and the pages its overlay touched; the whole reservation is reported apart. */
  lemma OverlayTotals(a: MemxIndex, indexBytes: nat, pageShift: nat)
    requires a.overlayMode && !a.flatMode && a.c.mode.Bounded? && pageShift <= a.c.WordBits()
    ensures var s, c := a.Stats(indexBytes, pageShift), a.c;
            && s.storage.OverlayStorage? && s.representationBytes == a.overlayPrivateBytes && s.reservedBytes == a.overlayBytes
            && s.directoryBytes == Capped(indexBytes + SlotBytes(c), c.WordMax())
            && s.totalBytes == Capped(indexBytes + SlotBytes(c) + a.overlayPrivateBytes, c.WordMax())
            && s.pageAccountedBytes
               == Capped(PageCeil(indexBytes, pageShift) + PageCeil(SlotBytes(c), pageShift) + a.overlayPrivateBytes, c.WordMax())
  {
    hide Pow2, Shl, PageAccount, PageCeil, SatMul, Times, Config.RegionCount, Config.RootCount, Config.LeafCount, Config.PerRegion,
      Config.WordBits, SlotBytes, LeafBytes;
    PartsExact(a.c, indexBytes, a.allocatedLeaves, a.denseRegions, pageShift);
  }
}
