/**
 The address index over words and tables: tagged descriptors behind a bounded array or a
 two-level sparse directory, dense tables owned through the allocator of the caller, and
 the FLAT and OVERLAY forms. Every operation refines the map of IndexSpec.
 */
module AdaptiveIndex {
  import opened Bits
  import opened IndexSpec
  import opened RegionShapes
  import opened Descriptors
  import opened DirectoryStore
  import opened RangeSteps
  import OverlayPages
  import opened OverlayMapping

  /** Where the memory comes from: the callbacks of the caller and the mappings of the system, each with its ledger. */
  class Allocator {
    /** What was handed out, to the index or to others, and has not come back. */
    var live: set<nat>
    /** Reserved address ranges and their byte lengths. */
    var mappings: map<nat, nat>
    /** How many requests so far were refused. */
    var failures: nat

    constructor ()
      ensures live == {} && mappings == map[] && failures == 0
    {
      live := {};
      mappings := map[];
      failures := 0;
    }

    /** memx_allocate over any callback: NULL, or a fresh word; a misaligned answer is given back. */
    method Allocate(c: Config) returns (pointer: nat)
      modifies this`live, this`failures
      ensures pointer == 0 ==> live == old(live) && failures == old(failures) + 1
      ensures pointer != 0 ==> live == old(live) + {pointer} && failures == old(failures)
      ensures pointer != 0 ==> pointer !in old(live) && c.IsWord(pointer) && Low(pointer, 2) == 0
    {
      var answer: nat := *;
      if answer == 0 || answer in live || !c.IsWord(answer) {
        failures := failures + 1;
        return 0;
      }
      live := live + {answer};
      var extra := if c.wordLog > 2 then c.wordLog - 2 else 0;
      if Low(answer, 2 + extra) != 0 {
        Free(answer);
        failures := failures + 1;
        return 0;
      }
      ShrShr(answer, 2, extra);
      LowSmall(0, 2);
      return answer;
    }

    method Free(pointer: nat)
      requires pointer in live
      modifies this`live
      ensures live == old(live) - {pointer}
    {
      live := live - {pointer};
    }

    /** memx_overlay_allocate: no reservation at all, or one with a page to spare on both sides of the overlay. */
    method Reserve(c: Config, bytes: nat, pageShift: nat, hugeShift: nat) returns (r: Option<Reservation>)
      requires pageShift <= c.WordBits() && hugeShift <= c.WordBits()
      modifies this`mappings, this`failures
      ensures r.None? ==> mappings == old(mappings)
      ensures r.None? ==> failures == old(failures) + if Reservable(bytes, GranularityShift(bytes, pageShift, hugeShift), c.WordBits()) then 1 else 0
      ensures r.Some? ==>
                && r.value.mapping !in old(mappings) && mappings == old(mappings)[r.value.mapping := r.value.reserved]
                && r.value.shift == GranularityShift(bytes, pageShift, hugeShift) && Guarded(r.value, bytes, pageShift)
                && failures == old(failures)
    {
      hide Low, Pow2, Guarded, And;
      var shift := GranularityShift(bytes, pageShift, hugeShift);
      if !Reservable(bytes, shift, c.WordBits()) { return None; }
      var reserved := ReservedBytes(bytes, shift);
      var mapping: nat := *;
      var mapped: bool := *;
      if !mapped || mapping in mappings || Low(mapping, pageShift) != 0 || mapping + reserved > c.WordMax() {
        failures := failures + 1;
        return None;
      }
      mappings := mappings[mapping := reserved];
      var payload := Payload(c.WordBits(), mapping, shift);
      GuardsStand(c.WordBits(), mapping, bytes, pageShift, shift);
      var accessible: bool := *;
      if !accessible {
        Unmap(mapping, reserved);
        assert mappings == old(mappings);
        failures := failures + 1;
        return None;
      }
      r := Some(Reservation(mapping, reserved, payload, shift));
    }

    /** memx_overlay_deallocate: a range goes back whole. */
    method Unmap(mapping: nat, reserved: nat)
      requires mapping in mappings && mappings[mapping] == reserved
      modifies this`mappings
      ensures mappings == old(mappings) - {mapping}
    {
      mappings := mappings - {mapping};
    }
  }

  ghost function FlatMap(c: Config, entries: seq<nat>): Mapping {
    map n: nat | n < |entries| && entries[n] != c.Invalid() :: entries[n]
  }

  /** Descriptors and overlay entries of a frozen index. */
  ghost predicate OverlayStands(c: Config, descriptors: seq<nat>, overlay: seq<nat>, regions: seq<Region>)
    requires |descriptors| == |regions| == c.RegionCount() && Shapely(c, regions)
  {
    && |overlay| == c.GranuleCount()
    && (forall n :: 0 <= n < |overlay| ==> c.IsWord(overlay[n]))
    && forall r: nat :: r < |regions| ==>
         match regions[r]
         case Empty => descriptors[r] == 0
         case Uniform(handle) => descriptors[r] == UniformEncode(c, handle)
         case Dense(entries) => descriptors[r] == 2 && forall g: nat :: g < c.PerRegion() ==> OverlayAt(c, overlay, r, g) == entries[g]
  }

  ghost function OverlayAt(c: Config, overlay: seq<nat>, r: nat, g: nat): nat
    requires r < c.RegionCount() && g < c.PerRegion() && |overlay| == c.GranuleCount()
  {
    ShlMono(r, c.RegionCount(), c.GranuleBits());
    overlay[Shl(r, c.GranuleBits()) + g]
  }

  /** A granule of a frozen index: its descriptor chooses between nothing, an inline handle, and the overlay slot. */
  function ReadOverlay(c: Config, descriptor: nat, dense: nat): nat {
    match TypeDecode(descriptor)
    case TypeEmpty => c.Invalid()
    case TypeUniform => UniformDecode(descriptor)
    case TypeDense => dense
  }

  /** Reading a granule of a frozen index through its descriptor. */
  lemma FrozenEntry(c: Config, descriptors: seq<nat>, overlay: seq<nat>, regions: seq<Region>, n: nat)
    requires c.Legal() && |descriptors| == |regions| == c.RegionCount() && Shapely(c, regions)
    requires OverlayStands(c, descriptors, overlay, regions) && n < c.GranuleCount()
    ensures var r := Shr(n, c.GranuleBits());
            && r < c.RegionCount()
            && ReadOverlay(c, descriptors[r], overlay[n]) == Entry(c, regions, n)
            && (regions[r].Dense? <==> descriptors[r] == 2) && TypeDecode(descriptors[r]) == TypeOf(regions[r])
            && (regions[r].Uniform? ==> Shr(descriptors[r], 2) == regions[r].handle)
            && (regions[r].Empty? ==> descriptors[r] == 0)
  {
    hide Shl, Shr, Low, Pow2, And, Or;
    var r, g := Shr(n, c.GranuleBits()), Low(n, c.GranuleBits());
    GranuleRegion(c, n);
    assert Fits(c, regions[r]);
    InlineBelowInvalid(c);
    TagBits(2);
    SmallPowers();
    LowSmall(2, 2);
    match regions[r]
    case Empty =>
    case Uniform(handle) => UniformRoundTrip(c, handle);
    case Dense(entries) =>
      RegionSpan(n, n, c.GranuleBits());
      assert OverlayAt(c, overlay, r, g) == entries[g];
  }

  class MemxIndex {
    const c: Config
    const allocator: Allocator
    const self: nat
    /** What the allocator had handed out, and mapped, before this index was created. */
    ghost const outside: set<nat>
    ghost const outsideMappings: map<nat, nat>

    var directory: nat
    var bounded: seq<nat>
    var root: seq<nat>
    var leaves: map<nat, seq<nat>>
    var tables: map<nat, seq<nat>>
    var allocatedLeaves: nat
    var denseRegions: nat
    var uniformRegions: nat
    var flatMode: bool
    var overlayMode: bool
    var flatPointer: nat
    var flatEntries: seq<nat>
    var overlayEntries: seq<nat>
    var overlayMapping: nat
    var overlayBytes: nat
    var overlayPayload: nat
    var overlayPrivateBytes: nat

    /** What each descriptor stands for, and which region or root slot owns each block. */
    ghost var regions: seq<Region>
    ghost var tableOwner: map<nat, nat>
    ghost var leafOwner: map<nat, nat>

    ghost function Memory(): Store
      reads this
    {
      Store(bounded, root, leaves, tables, leafOwner, tableOwner)
    }

    ghost predicate Counted()
      reads this
    {
      denseRegions == DenseCount(regions) && uniformRegions == UniformCount(regions) && allocatedLeaves == LeafTotal(Memory())
    }

    /** The adaptive form: descriptors and tables stand for regions, and every block is accounted for. */
    ghost predicate Adaptive()
      reads this, allocator
    {
      && !flatMode && !overlayMode
      && c.Legal() && Sound(c, Memory(), regions) && Reachable(allocator.live, self, directory, outside, Memory()) && Counted()
      && allocator.mappings == outsideMappings
    }

    /** The FLAT form: one table for the whole range. */
    ghost predicate Flat()
      reads this, allocator
    {
      && flatMode && !overlayMode && c.Legal() && c.mode.Bounded?
      && |flatEntries| == c.GranuleCount() && (forall n :: 0 <= n < |flatEntries| ==> c.IsWord(flatEntries[n]))
      && self != flatPointer && self != 0 && flatPointer != 0 && allocator.live == outside + {self, flatPointer}
      && self !in outside && flatPointer !in outside && allocator.mappings == outsideMappings
    }

    /** The OVERLAY form: descriptors choose between their inline handle and one table for the whole range. */
    ghost predicate Frozen()
      reads this, allocator
    {
      && overlayMode && !flatMode && c.Legal() && c.mode.Bounded? && Shapely(c, regions)
      && |bounded| == c.RegionCount() && tables == map[]
      && OverlayStands(c, bounded, overlayEntries, regions)
      && self != directory && self != 0 && directory != 0 && allocator.live == outside + {self, directory}
      && self !in outside && directory !in outside
      && overlayMapping !in outsideMappings && allocator.mappings == outsideMappings[overlayMapping := overlayBytes]
      && denseRegions == DenseCount(regions) && uniformRegions == UniformCount(regions)
    }

    ghost predicate Valid()
      reads this, allocator
    {
      if flatMode then Flat() else if overlayMode then Frozen() else Adaptive() && TopFree(c, regions)
    }

    ghost predicate Canonical()
      reads this, allocator
    {
      Adaptive() && CanonicalShape(c, regions, Present(Memory()))
    }

    /** The map the index stands for. */
    ghost function Mapping(): Mapping
      requires Valid()
      reads this, allocator
    {
      if flatMode then FlatMap(c, flatEntries) else MapOf(c, regions)
    }

    constructor (c: Config, allocator: Allocator, self: nat, directory: nat, ghost outside: set<nat>)
      requires c.Legal()
      requires allocator.live == outside + {self, directory} && self != directory && self != 0 && directory != 0
      requires self !in outside && directory !in outside
      ensures Canonical() && Valid() && Mapping() == map[]
      ensures this.c == c && this.allocator == allocator
      ensures this.outside == outside && this.outsideMappings == allocator.mappings
    {
      this.c, this.allocator, this.self, this.directory := c, allocator, self, directory;
      this.outside, this.outsideMappings := outside, allocator.mappings;
      bounded := if c.mode.Bounded? then ZeroWords(c.RegionCount()) else [];
      root := if c.mode.Bounded? then [] else ZeroWords(c.RootCount());
      leaves, tables := map[], map[];
      allocatedLeaves, denseRegions, uniformRegions := 0, 0, 0;
      regions := seq(c.RegionCount(), _ => Empty);
      tableOwner, leafOwner := map[], map[];
      flatMode, overlayMode, flatPointer, flatEntries := false, false, 0, [];
      overlayEntries, overlayMapping, overlayBytes, overlayPayload, overlayPrivateBytes := [], 0, 0, 0, 0;
      new;
      hide Sound, CanonicalShape, MapOf, TopFree, Shapely;
      CountEmpty(c.RegionCount());
      FreshStoreSound(c);
      FreshShape(c);
      TopFreeFromMap(c, regions);
      assert Memory() == FreshStore(c);
    }

    // ----- reading

    /** memx_get_region: the descriptor word of a region, zero when its leaf is missing. */
    function GetRegion(r: nat): (d: nat)
      requires r < c.RegionCount() && DirectoryShape(c, Memory())
      reads this
      ensures d == Descriptor(c, Memory(), r)
    {
      if c.mode.Bounded? then bounded[r]
      else
        RootIndex(c, r);
        assert LeafLinked(c, Memory(), Shr(r, c.LeafBits()));
        var leaf := root[Shr(r, c.LeafBits())];
        if leaf == 0 then 0 else leaves[leaf][And(r, c.LeafCount() - 1)]
    }

    /** memx_region_lookup. */
    function RegionLookup(r: nat, granule: nat): (handle: nat)
      requires Adaptive() && r < c.RegionCount() && granule < c.PerRegion()
      reads this, allocator
      ensures handle == At(c, regions[r], granule)
    {
      hide Sound, Reachable, Config.Legal, DirectoryShape, Descriptor;
      SoundFits(c, Memory(), regions, r);
      DescriptorType(c, Memory(), regions, r);
      var d := GetRegion(r);
      match TypeDecode(d)
      case TypeEmpty => c.Invalid()
      case TypeUniform => UniformDecode(d)
      case TypeDense => tables[DenseDecode(c, d)][granule]
    }

    // ----- storing through a descriptor pointer

    /** Writes one descriptor word; the caller restores the invariant around it. */
    method StoreDescriptor(slot: Slot, ghost r: nat, word: nat)
      requires r < c.RegionCount() && DirectoryShape(c, Memory()) && Points(c, Memory(), slot, r)
      modifies this`bounded, this`leaves
      ensures Memory() == Stored(c, old(Memory()), slot, r, word)
      ensures leaves.Keys == old(leaves.Keys)
    {
      hide Shl, Shr, Low, Pow2, And;
      match slot
      case BoundedSlot(index) =>
        bounded := bounded[index := word];
      case LeafSlot(leaf, offset) =>
        RootIndex(c, r);
        assert LeafLinked(c, Memory(), Shr(r, c.LeafBits()));
        var stored: seq<nat> := leaves[leaf][offset := word];
        leaves := leaves[leaf := stored];
      case NoSlot =>
        assert false;
    }

    /** memx_get_region_mut: the place of a descriptor; a missing leaf is created on request. */
    method GetRegionMut(r: nat, create: bool) returns (slot: Slot)
      requires Adaptive() && r < c.RegionCount()
      modifies this`root, this`leaves, this`allocatedLeaves, this`leafOwner, allocator
      ensures Adaptive()
      ensures slot == NoSlot ==> Memory() == old(Memory()) && c.mode.Sparse? && regions[r] == Empty
      ensures slot == NoSlot && create ==> allocator.failures > old(allocator.failures)
      ensures slot == NoSlot && !create ==> Shr(r, c.LeafBits()) !in Present(Memory())
      ensures slot != NoSlot ==> Points(c, Memory(), slot, r) && allocator.failures == old(allocator.failures)
      ensures slot != NoSlot && c.mode.Sparse? ==> Present(Memory()) == old(Present(Memory())) + {Shr(r, c.LeafBits())}
      ensures c.mode.Bounded? || !create ==> Memory() == old(Memory()) && allocator.failures == old(allocator.failures)
      ensures c.mode.Bounded? || !create ==> allocator.live == old(allocator.live)
    {
      hide Shl, Shr, Low, Pow2, And;
      if c.mode.Bounded? {
        return BoundedSlot(r);
      }
      RootIndex(c, r);
      var rootIndex, leafIndex := Shr(r, c.LeafBits()), And(r, c.LeafCount() - 1);
      var leaf := root[rootIndex];
      assert Linked(c, Memory(), regions, r);
      if leaf == 0 && create {
        leaf := AddLeaf(rootIndex);
      }
      slot := if leaf == 0 then NoSlot else LeafSlot(leaf, leafIndex);
      assert slot != NoSlot ==> Present(Memory()) == old(Present(Memory())) + {rootIndex};
    }

    method AddLeaf(rootIndex: nat) returns (leaf: nat)
      requires Adaptive() && c.mode.Sparse? && rootIndex < |root| && root[rootIndex] == 0
      modifies this`root, this`leaves, this`allocatedLeaves, this`leafOwner, allocator
      ensures Adaptive()
      ensures leaf == 0 ==> Memory() == old(Memory()) && allocator.failures > old(allocator.failures)
      ensures leaf != 0 ==>
                && root == old(root)[rootIndex := leaf] && allocator.failures == old(allocator.failures)
                && Present(Memory()) == old(Present(Memory())) + {rootIndex}
    {
      hide Sound, Config.Legal, DenseCount, UniformCount, Reachable, DirectoryShape, Present, LeafTotal;
      leaf := allocator.Allocate(c);
      if leaf == 0 { return; }
      ghost var before, after := Memory(), WithLeaf(c, Memory(), rootIndex, leaf);
      LeafLedger(c, old(allocator.live), self, directory, outside, before, rootIndex, leaf);
      LeafAdded(c, before, regions, rootIndex, leaf);
      leaves := leaves[leaf := ZeroWords(c.LeafCount())];
      root := root[rootIndex := leaf];
      leafOwner := leafOwner[leaf := rootIndex];
      allocatedLeaves := allocatedLeaves + 1;
      assert Memory() == after;
    }

    // ----- changing one region

    /** memx_dense_create and its publication: an EMPTY or UNIFORM region becomes an equal DENSE one. */
    method Densify(slot: Slot, r: nat) returns (ok: bool)
      requires Adaptive() && r < c.RegionCount() && Points(c, Memory(), slot, r) && !regions[r].Dense?
      modifies this`bounded, this`leaves, this`tables, this`denseRegions, this`uniformRegions, this`regions, this`tableOwner, allocator
      ensures Adaptive() && Points(c, Memory(), slot, r) && Present(Memory()) == old(Present(Memory()))
      ensures ok ==>
                regions == old(regions)[r := Dense(Table(c, At(c, old(regions[r]), 0)))]
                && allocator.failures == old(allocator.failures)
      ensures !ok ==> regions == old(regions) && allocator.failures > old(allocator.failures)
    {
      hide Sound, Config.Legal, DenseCount, UniformCount, Reachable, DirectoryShape, Present, LeafTotal, Descriptor, Points, Stored;
      SoundFits(c, Memory(), regions, r);
      var initial := RegionLookup(r, 0);
      InitialIsWord(c, regions[r]);
      var p := allocator.Allocate(c);
      if p == 0 { return false; }
      TagBits(p);
      if And(p, 3) != 0 { assert false; }
      ghost var target := Installed(c, Memory(), slot, r, p, Table(c, initial));
      InstallTransition(c, old(allocator.live), self, directory, outside, Memory(), regions, slot, r, p, Table(c, initial));
      Publish(slot, r, p, Table(c, initial), target);
      ok := true;
    }

    /** Stores a table and its tagged pointer, and moves the region from its old counter to the dense one. */
    method Publish(slot: Slot, r: nat, p: nat, entries: seq<nat>, ghost target: Store)
      requires r < c.RegionCount() && Sound(c, Memory(), regions) && Points(c, Memory(), slot, r)
      requires !regions[r].Dense? && Counted()
      requires target == Installed(c, Memory(), slot, r, p, entries) && LeafTotal(target) == LeafTotal(Memory())
      modifies this`bounded, this`leaves, this`tables, this`denseRegions, this`uniformRegions, this`regions, this`tableOwner
      ensures Memory() == target && regions == old(regions)[r := Dense(entries)] && Counted()
    {
      hide Sound, DenseCount, UniformCount, DirectoryShape, LeafTotal, Descriptor, Points, Stored;
      SoundFits(c, Memory(), regions, r);
      DescriptorType(c, Memory(), regions, r);
      CountUpdate(regions, r, Dense(entries));
      var wasUniform := TypeDecode(GetRegion(r)) == TypeUniform;
      ghost var between := WithTable(Memory(), p, entries, r);
      DirectoryOnly(c, Memory(), between);
      tables := tables[p := entries];
      tableOwner := tableOwner[p := r];
      assert Memory() == between;
      StoreDescriptor(slot, r, DenseEncode(p));
      if wasUniform { uniformRegions := uniformRegions - 1; }
      denseRegions := denseRegions + 1;
      regions := regions[r := Dense(entries)];
    }

    /** An EMPTY region becomes UNIFORM. */
    method StoreUniform(slot: Slot, r: nat, handle: nat)
      requires Adaptive() && r < c.RegionCount() && Points(c, Memory(), slot, r)
      requires regions[r].Empty? && handle <= c.InlineMax()
      modifies this`bounded, this`leaves, this`uniformRegions, this`regions
      ensures Adaptive() && Points(c, Memory(), slot, r) && Present(Memory()) == old(Present(Memory()))
      ensures regions == old(regions)[r := Uniform(handle)]
    {
      hide Sound, Config.Legal, DenseCount, UniformCount, Reachable, DirectoryShape, Present, LeafTotal, Descriptor, Points, Stored;
      SoundFits(c, Memory(), regions, r);
      InlineTransition(c, allocator.live, self, directory, outside, Memory(), regions, slot, r, Uniform(handle));
      CountUpdate(regions, r, Uniform(handle));
      StoreDescriptor(slot, r, UniformEncode(c, handle));
      uniformRegions := uniformRegions + 1;
      regions := regions[r := Uniform(handle)];
    }

    /** A UNIFORM region becomes EMPTY. */
    method ClearUniform(slot: Slot, r: nat)
      requires Adaptive() && r < c.RegionCount() && Points(c, Memory(), slot, r)
      requires regions[r].Uniform?
      modifies this`bounded, this`leaves, this`uniformRegions, this`regions
      ensures Adaptive() && Points(c, Memory(), slot, r) && Present(Memory()) == old(Present(Memory()))
      ensures regions == old(regions)[r := Empty]
    {
      hide Sound, Config.Legal, DenseCount, UniformCount, Reachable, DirectoryShape, Present, LeafTotal, Descriptor, Points, Stored;
      SoundFits(c, Memory(), regions, r);
      InlineTransition(c, allocator.live, self, directory, outside, Memory(), regions, slot, r, Empty);
      CountUpdate(regions, r, Empty);
      StoreDescriptor(slot, r, 0);
      uniformRegions := uniformRegions - 1;
      regions := regions[r := Empty];
    }

    /** The loop that writes one value over a run of granules of a DENSE region. */
    method WriteGranules(slot: Slot, r: nat, granule: nat, count: nat, value: nat)
      requires Adaptive() && r < c.RegionCount() && Points(c, Memory(), slot, r) && regions[r].Dense?
      requires granule + count <= c.PerRegion() && c.IsWord(value)
      modifies this`tables, this`regions
      ensures Adaptive() && Points(c, Memory(), slot, r) && Present(Memory()) == old(Present(Memory()))
      ensures old(regions)[r].Dense? && granule + count <= |old(regions)[r].entries|
      ensures regions == old(regions)[r := Dense(Fill(old(regions)[r].entries, granule, count, value))]
    {
      hide Sound, Config.Legal, DenseCount, UniformCount, Reachable, DirectoryShape, Present, LeafTotal, Descriptor, Points, Stored;
      SoundFits(c, Memory(), regions, r);
      DescriptorType(c, Memory(), regions, r);
      var table := DenseDecode(c, GetRegion(r));
      ghost var before, start := Memory(), regions[r].entries;
      var i := 0;
      while i < count
        invariant i <= count && regions == old(regions)
        invariant Memory().(tables := before.tables) == before && table in tables && tables == before.tables[table := tables[table]]
        invariant tables[table] == Fill(start, granule, i, value)
      {
        var stored: seq<nat> := tables[table][granule + i := value];
        tables := tables[table := stored];
        i := i + 1;
      }
      WriteTransition(c, allocator.live, self, directory, outside, before, regions, slot, r, Fill(start, granule, count, value));
      CountUpdate(regions, r, Dense(Fill(start, granule, count, value)));
      assert Memory() == Overwritten(c, before, r, Fill(start, granule, count, value));
      regions := regions[r := Dense(Fill(start, granule, count, value))];
    }

    /** memx_region_reclassify: a table holding one inline value, or nothing, is given back. */
    method Reclassify(slot: Slot, r: nat)
      requires Adaptive() && r < c.RegionCount() && Points(c, Memory(), slot, r) && regions[r].Dense?
      modifies this`bounded, this`leaves, this`tables, this`denseRegions, this`uniformRegions, this`regions, allocator`live
      ensures Adaptive() && Points(c, Memory(), slot, r) && Present(Memory()) == old(Present(Memory()))
      ensures r < |old(regions)| && Fits(c, old(regions)[r])
      ensures regions == old(regions)[r := Reclassified(c, old(regions)[r])]
      ensures allocator.live <= old(allocator.live)
    {
      hide Sound, Config.Legal, DenseCount, UniformCount, Reachable, DirectoryShape, Present, LeafTotal, Descriptor, Points, Stored;
      SoundFits(c, Memory(), regions, r);
      DescriptorType(c, Memory(), regions, r);
      var table := DenseDecode(c, GetRegion(r));
      var first := tables[table][0];
      var allEqual := true;
      var i := 1;
      while i < c.PerRegion()
        invariant 1 <= i <= c.PerRegion()
        invariant allEqual
        invariant forall j :: 0 <= j < i ==> tables[table][j] == first
      {
        if tables[table][i] != first {
          allEqual := false;
          break;
        }
        i := i + 1;
      }
      assert allEqual <==> forall j :: 0 <= j < |regions[r].entries| ==> regions[r].entries[j] == first;
      if allEqual && (first == c.Invalid() || first <= c.InlineMax()) {
        Collapse(slot, r, table, if first == c.Invalid() then Empty else Uniform(first));
      }
    }

    method Collapse(slot: Slot, r: nat, table: nat, region: Region)
      requires Adaptive() && r < c.RegionCount() && Points(c, Memory(), slot, r) && regions[r].Dense?
      requires !region.Dense? && Fits(c, region)
      requires Descriptor(c, Memory(), r) == table + 2
      modifies this`bounded, this`leaves, this`tables, this`denseRegions, this`uniformRegions, this`regions, allocator`live
      ensures Adaptive() && Points(c, Memory(), slot, r) && Present(Memory()) == old(Present(Memory()))
      ensures regions == old(regions)[r := region]
      ensures allocator.live <= old(allocator.live)
    {
      hide Sound, Config.Legal, DenseCount, UniformCount, Reachable, DirectoryShape, Present, LeafTotal, Descriptor, Points, Stored,
        MapOf, TopFree, CanonicalShape, Shl, Shr, Low, Pow2, And;
      SoundFits(c, Memory(), regions, r);
      ghost var before := Memory();
      CollapseTransition(c, allocator.live, self, directory, outside, before, regions, slot, r, region);
      CountUpdate(regions, r, region);
      DirectoryOnly(c, before, WithoutTable(before, table));
      denseRegions := denseRegions - 1;
      tables := tables - {table};
      assert Memory() == WithoutTable(before, table);
      StoreDescriptor(slot, r, InlineWord(c, region));
      if region.Uniform? { uniformRegions := uniformRegions + 1; }
      allocator.Free(table);
      regions := regions[r := region];
    }

    /** memx_sparse_prune_leaf: a leaf of zero words is given back. */
    method PruneLeaf(r: nat)
      requires Adaptive() && r < c.RegionCount()
      modifies this`root, this`leaves, this`allocatedLeaves, allocator
      ensures Adaptive() && allocator.failures == old(allocator.failures)
      ensures c.mode.Bounded? ==> Memory() == old(Memory())
      ensures c.mode.Sparse? ==>
                var i := Shr(r, c.LeafBits());
                if i in old(Present(Memory())) && !LeafUsed(c, regions, i)
                then Present(Memory()) == old(Present(Memory())) - {i}
                else Memory() == old(Memory())
    {
      hide Sound, Config.Legal, DenseCount, UniformCount, Reachable, LeafTotal, Descriptor, Shl, Shr, Low, And, Pow2;
      if c.mode.Bounded? { return; }
      SoundFits(c, Memory(), regions, r);
      RootIndex(c, r);
      var rootIndex := Shr(r, c.LeafBits());
      var leaf := root[rootIndex];
      if leaf == 0 { return; }
      assert LeafLinked(c, Memory(), rootIndex) && LeafOwned(c, Memory(), leaf);
      var i := 0;
      while i < c.LeafCount()
        invariant i <= c.LeafCount()
        invariant forall j :: 0 <= j < i ==> leaves[leaf][j] == 0
      {
        if leaves[leaf][i] != 0 {
          UsedWord(c, Memory(), regions, rootIndex, i);
          return;
        }
        i := i + 1;
      }
      UnusedLeaf(c, Memory(), regions, rootIndex);
      DropLeaf(rootIndex);
    }

    method DropLeaf(rootIndex: nat)
      requires Adaptive() && c.mode.Sparse? && rootIndex < |root| && root[rootIndex] != 0 && root[rootIndex] in leaves
      requires forall j :: 0 <= j < |leaves[root[rootIndex]]| ==> leaves[root[rootIndex]][j] == 0
      modifies this`root, this`leaves, this`allocatedLeaves, allocator
      ensures Adaptive() && Present(Memory()) == old(Present(Memory())) - {rootIndex}
      ensures allocator.failures == old(allocator.failures)
    {
      hide Sound, Config.Legal, DenseCount, UniformCount, Reachable, LeafTotal, Descriptor, Present;
      ghost var before := Memory();
      LeafFreedLedger(allocator.live, self, directory, outside, before, rootIndex);
      LeafDropped(c, before, regions, rootIndex);
      var leaf := root[rootIndex];
      root := root[rootIndex := 0];
      allocatedLeaves := allocatedLeaves - 1;
      allocator.Free(leaf);
      leaves := leaves - {leaf};
      assert Memory() == WithoutLeaf(before, rootIndex);
    }

    // ----- insertion

    /** memx_lookup_address on the adaptive form. */
    function AdaptiveLookup(address: nat): (handle: nat)
      requires Adaptive() && c.IsWord(address)
      reads this, allocator
      ensures handle == LookupSpec(c, MapOf(c, regions), address)
    {
      hide Sound, Reachable, Shl, Shr, Low, Pow2, And, MapOf, Fits, Shapely;
      SoundShape(c, Memory(), regions);
      CoveredGranule(c, address);
      match AddressToRegion(c, address)
      case None => c.Invalid()
      case Some(p) =>
        GranuleRegion(c, GranuleOf(c, address));
        MapEntry(c, regions, GranuleOf(c, address));
        RegionLookup(p.region, p.granule)
    }

    /** memx_preflight_range: reads every granule of the range, changes nothing. */
    method PreflightRange(base: nat, end: nat, expected: nat, inserting: bool, ghost lo: nat, ghost hi: nat)
      returns (status: Status)
      requires Adaptive() && RunOf(c, lo, hi) && base == c.Address(lo) && end == c.Address(hi)
      requires inserting || expected != c.Invalid()
      ensures status == Ok <==> RunHolds(c, regions, lo, hi, if inserting then c.Invalid() else expected)
      ensures status != Ok ==> status == if inserting then Overlap else NotFound
    {
      hide Sound, Reachable, Shl, Shr, Low, Pow2, And, MapOf, Fits, Shapely;
      SoundShape(c, Memory(), regions);
      var step := Pow2(c.granuleShift);
      var address := base;
      ghost var n := lo;
      while address < end
        invariant lo <= n <= hi && address == c.Address(n)
        invariant forall m: nat :: lo <= m < n ==> Entry(c, regions, m) == if inserting then c.Invalid() else expected
        decreases hi - n
      {
        ShlMono(n, hi, c.granuleShift);
        ShlMono(hi, c.GranuleCount(), c.granuleShift);
        GranuleStart(c, n);
        MapEntry(c, regions, n);
        var actual := AdaptiveLookup(address);
        if inserting {
          if actual != c.Invalid() { return Overlap; }
        } else if actual != expected {
          return NotFound;
        }
        address := address + step;
        n := n + 1;
      }
      ShlMono(n, hi, c.granuleShift);
      return Ok;
    }

    /** One step of memx_prepare_insert_regions. */
    method PrepareRegion(r: nat, whole: bool, handle: nat) returns (status: Status)
      requires Adaptive() && r < c.RegionCount() && r < |regions| && !regions[r].Uniform?
      modifies this`root, this`leaves, this`bounded, this`tables, this`allocatedLeaves, this`denseRegions, this`uniformRegions
      modifies this`regions, this`tableOwner, this`leafOwner, allocator
      ensures Adaptive() && |regions| == |old(regions)|
      ensures Fits(c, old(regions)[r])
      ensures regions == old(regions)
           || (!old(regions)[r].Dense? && regions == old(regions)[r := Dense(Table(c, At(c, old(regions)[r], 0)))])
      ensures status == Ok ==> regions[r].Dense? || (regions[r].Empty? && whole && handle <= c.InlineMax())
      ensures status == Ok ==> allocator.failures == old(allocator.failures)
      ensures status != Ok ==> status == OutOfMemory && allocator.failures > old(allocator.failures)
      ensures status == Ok && c.mode.Sparse? ==> Present(Memory()) == old(Present(Memory())) + {Shr(r, c.LeafBits())}
      ensures c.mode.Bounded? ==> Present(Memory()) == old(Present(Memory()))
    {
      hide Sound, Reachable, Counted, Present, Shl, Shr, Low, Pow2, And, Points, DirectoryShape, Shapely, Descriptor;
      SoundFits(c, Memory(), regions, r);
      var slot := GetRegionMut(r, true);
      if slot == NoSlot { return OutOfMemory; }
      DescriptorType(c, Memory(), regions, r);
      SoundFits(c, Memory(), regions, r);
      if TypeDecode(GetRegion(r)) == TypeEmpty && (!whole || handle > c.InlineMax()) {
        var ok := Densify(slot, r);
        if !ok { return OutOfMemory; }
      }
      return Ok;
    }

    /** memx_prepare_insert_regions: everything that may fail, and nothing a lookup can see. */
    method PrepareInsert(base: nat, end: nat, handle: nat, ghost lo: nat, ghost hi: nat) returns (status: Status)
      requires Adaptive() && RunOf(c, lo, hi) && base == c.Address(lo) && end == c.Address(hi)
      requires RunHolds(c, regions, lo, hi, c.Invalid())
      modifies this`root, this`leaves, this`bounded, this`tables, this`allocatedLeaves, this`denseRegions, this`uniformRegions
      modifies this`regions, this`tableOwner, this`leafOwner, allocator
      ensures Adaptive() && Prepared(c, old(regions), regions, lo, hi)
      ensures status == Ok ==> allocator.failures == old(allocator.failures)
      ensures status == Ok ==> AllInsertReady(c, regions, lo, hi, handle)
      ensures status == Ok && c.mode.Sparse? ==> Present(Memory()) == old(Present(Memory())) + Roots(c, lo, Frontier(c, hi, hi))
      ensures status != Ok ==> status == OutOfMemory && allocator.failures > old(allocator.failures)
      ensures c.mode.Bounded? ==> Present(Memory()) == old(Present(Memory()))
    {
      hide Sound, Reachable, Counted, Present, Shl, Shr, Low, Pow2, And, Fits, At, Points, DirectoryShape, AtPart, Shapely, Config.Legal;
      hide Prepared, Whole, Frontier, Touched, Roots, RegionBoundary, AddressToRegion, NextPart;
      SoundShape(c, Memory(), regions);
      ghost var before, n := regions, lo;
      var cursor := base;
      PreparedStart(c, regions, lo, hi);
      WalkStart(c, regions, lo, hi, handle);
      while cursor < end
        invariant Adaptive() && Prepared(c, before, regions, lo, hi)
        invariant AtPart(c, lo, n, hi) && cursor == c.Address(n) && lo <= n <= hi
        invariant allocator.failures == old(allocator.failures)
        invariant ReadyBelow(c, regions, lo, hi, handle, Frontier(c, n, hi))
        invariant c.mode.Sparse? ==> Present(Memory()) == old(Present(Memory())) + Roots(c, lo, Frontier(c, n, hi))
        invariant c.mode.Bounded? ==> Present(Memory()) == old(Present(Memory()))
        decreases hi - n
      {
        ShlMono(n, hi, c.granuleShift);
        ShlMono(hi, n, c.granuleShift);
        PartGeometry(c, n, hi);
        StepForward(c, lo, n, hi);
        SoundShape(c, Memory(), regions);
        PreparedHolds(c, before, regions, lo, hi, c.Invalid());
        ghost var mid, next := regions, NextPart(c, n, hi);
        var boundary := RegionBoundary(c, cursor, end);
        var partEnd := if boundary < end then boundary else end;
        var whole := And(cursor, c.RegionSize() - 1) == 0 && partEnd - cursor == c.RegionSize();
        var r := AddressToRegion(c, cursor).value.region;
        RunShapes(c, regions, lo, hi, c.Invalid(), r);
        status := PrepareRegion(r, whole, handle);
        PreparedStep(c, before, mid, regions, lo, hi, r);
        if status != Ok { return; }
        RootsGrow(c, lo, r);
        cursor := partEnd;
        n := next;
      }
      ShlMono(n, hi, c.granuleShift);
      status := Ok;
    }

    /** The body of the mutation loop of an insertion: the allocating branch of the source is never reached. */
    method InsertInto(r: nat, granule: nat, count: nat, wholeByBoundary: bool, handle: nat)
      requires Adaptive() && r < c.RegionCount() && r < |regions| && granule + count <= c.PerRegion() && c.IsWord(handle)
      requires regions[r].Dense? || (regions[r].Empty? && wholeByBoundary && handle <= c.InlineMax())
      requires c.mode.Sparse? ==> Shr(r, c.LeafBits()) in Present(Memory())
      modifies this`root, this`leaves, this`bounded, this`tables, this`allocatedLeaves, this`denseRegions, this`uniformRegions
      modifies this`regions, this`leafOwner, allocator
      ensures Adaptive() && Fits(c, old(regions)[r])
      ensures regions == old(regions)[r := Inserted(c, old(regions)[r], granule, count, handle)]
      ensures Present(Memory()) == old(Present(Memory())) && allocator.failures == old(allocator.failures)
      ensures allocator.live <= old(allocator.live)
    {
      hide Sound, Reachable, Counted, Shl, Shr, Low, Pow2, And, Points, DirectoryShape, Shapely, Descriptor;
      SoundFits(c, Memory(), regions, r);
      var slot := GetRegionMut(r, false);
      if slot == NoSlot { assert false; }
      DescriptorType(c, Memory(), regions, r);
      SoundFits(c, Memory(), regions, r);
      var kind := TypeDecode(GetRegion(r));
      if kind == TypeEmpty && wholeByBoundary && handle <= c.InlineMax() {
        StoreUniform(slot, r, handle);
      } else {
        if kind == TypeEmpty { assert false; }
        WriteGranules(slot, r, granule, count, handle);
        Reclassify(slot, r);
      }
    }

    /** The mutation loop of memx_insert; it cannot fail. */
    method ApplyInsert(base: nat, end: nat, handle: nat, ghost lo: nat, ghost hi: nat)
      requires Adaptive() && RunOf(c, lo, hi) && base == c.Address(lo) && end == c.Address(hi)
      requires c.IsWord(handle) && handle != c.Invalid() && AllInsertReady(c, regions, lo, hi, handle)
      requires c.mode.Sparse? ==> Roots(c, lo, Frontier(c, hi, hi)) <= Present(Memory())
      modifies this`root, this`leaves, this`bounded, this`tables, this`allocatedLeaves, this`denseRegions, this`uniformRegions
      modifies this`regions, this`leafOwner, allocator
      ensures Adaptive() && InsertApplied(c, old(regions), regions, lo, hi, hi, handle)
      ensures Present(Memory()) == old(Present(Memory())) && allocator.failures == old(allocator.failures)
      ensures allocator.live <= old(allocator.live)
    {
      hide Sound, Reachable, Counted, Present, Shl, Shr, Low, Pow2, And, Fits, At, Points, DirectoryShape, AtPart, Shapely, Config.Legal;
      hide InsertApplied, AllInsertReady, ReadyBelow, Whole, Frontier, Touched, RegionBoundary, AddressToRegion, NextPart, Inserted;
      SoundShape(c, Memory(), regions);
      ghost var before, n, present := regions, lo, Present(Memory());
      var cursor := base;
      AppliedStart(c, regions, lo, hi, handle);
      while cursor < end
        invariant Adaptive() && InsertApplied(c, before, regions, lo, n, hi, handle)
        invariant AtPart(c, lo, n, hi) && cursor == c.Address(n) && lo <= n <= hi
        invariant allocator.failures == old(allocator.failures) && Present(Memory()) == present
        invariant allocator.live <= old(allocator.live)
        decreases hi - n
      {
        ShlMono(hi, n, c.granuleShift);
        PartGeometry(c, n, hi);
        StepForward(c, lo, n, hi);
        AppliedReady(c, before, regions, lo, n, hi, handle);
        AppliedStep(c, before, regions, lo, n, hi, handle);
        var regionOffset := And(cursor, c.RegionSize() - 1);
        var boundary := RegionBoundary(c, cursor, end);
        var partEnd := if boundary < end then boundary else end;
        var p := AddressToRegion(c, cursor).value;
        var count := Shr(partEnd - cursor, c.granuleShift);
        RootOfTouched(c, lo, hi, p.region);
        InsertInto(p.region, p.granule, count, regionOffset == 0 && partEnd == boundary, handle);
        cursor := partEnd;
        n := NextPart(c, n, hi);
      }
      ShlMono(n, hi, c.granuleShift);
    }

    // ----- removal

    /** One step of the loop that converts partially removed UNIFORM regions. */
    method PrepareRemoveRegion(r: nat, wholeByBoundary: bool) returns (status: Status)
      requires Adaptive() && r < c.RegionCount() && r < |regions| && !regions[r].Empty?
      modifies this`root, this`leaves, this`bounded, this`tables, this`allocatedLeaves, this`denseRegions, this`uniformRegions
      modifies this`regions, this`tableOwner, this`leafOwner, allocator
      ensures Adaptive() && |regions| == |old(regions)| && Present(Memory()) == old(Present(Memory()))
      ensures Fits(c, old(regions)[r])
      ensures regions == old(regions)
           || (!old(regions)[r].Dense? && regions == old(regions)[r := Dense(Table(c, At(c, old(regions)[r], 0)))])
      ensures status == Ok ==> regions[r].Dense? || (regions[r].Uniform? && wholeByBoundary)
      ensures status == Ok ==> allocator.failures == old(allocator.failures)
      ensures status != Ok ==> status == OutOfMemory && allocator.failures > old(allocator.failures)
    {
      hide Sound, Reachable, Counted, Present, Shl, Shr, Low, Pow2, And, Points, DirectoryShape, Shapely, Descriptor;
      SoundFits(c, Memory(), regions, r);
      var slot := GetRegionMut(r, false);
      if slot == NoSlot { assert false; }
      DescriptorType(c, Memory(), regions, r);
      SoundFits(c, Memory(), regions, r);
      if TypeDecode(GetRegion(r)) == TypeUniform && !wholeByBoundary {
        var ok := Densify(slot, r);
        if !ok { return OutOfMemory; }
      }
      return Ok;
    }

    /** The conversion loop of memx_remove: everything that may fail, and nothing a lookup can see. */
    method PrepareRemove(base: nat, end: nat, expected: nat, ghost lo: nat, ghost hi: nat) returns (status: Status)
      requires Adaptive() && RunOf(c, lo, hi) && base == c.Address(lo) && end == c.Address(hi)
      requires RunHolds(c, regions, lo, hi, expected) && expected != c.Invalid() && TopFree(c, regions)
      modifies this`root, this`leaves, this`bounded, this`tables, this`allocatedLeaves, this`denseRegions, this`uniformRegions
      modifies this`regions, this`tableOwner, this`leafOwner, allocator
      ensures Adaptive() && Prepared(c, old(regions), regions, lo, hi) && Present(Memory()) == old(Present(Memory()))
      ensures status == Ok ==> allocator.failures == old(allocator.failures)
      ensures status == Ok ==> AllRemoveReady(c, regions, lo, hi, Frontier(c, hi, hi))
      ensures status != Ok ==> status == OutOfMemory && allocator.failures > old(allocator.failures)
    {
      hide Sound, Reachable, Counted, Present, Shl, Shr, Low, Pow2, And, Fits, At, Points, DirectoryShape, AtPart, Shapely, Config.Legal;
      hide Prepared, Whole, Frontier, Touched, RegionBoundary, AddressToRegion, NextPart, TopFree;
      SoundShape(c, Memory(), regions);
      ghost var before, n, present := regions, lo, Present(Memory());
      var cursor := base;
      PreparedStart(c, regions, lo, hi);
      RemoveStart(c, regions, lo, hi);
      while cursor < end
        invariant Adaptive() && Prepared(c, before, regions, lo, hi)
        invariant AtPart(c, lo, n, hi) && cursor == c.Address(n) && lo <= n <= hi
        invariant allocator.failures == old(allocator.failures) && Present(Memory()) == present
        invariant AllRemoveReady(c, regions, lo, hi, Frontier(c, n, hi))
        decreases hi - n
      {
        ShlMono(hi, n, c.granuleShift);
        PartGeometry(c, n, hi);
        StepForward(c, lo, n, hi);
        SoundShape(c, Memory(), regions);
        PreparedHolds(c, before, regions, lo, hi, expected);
        TopFreeKept(c, before, regions, lo, hi);
        ghost var mid := regions;
        var regionOffset := And(cursor, c.RegionSize() - 1);
        var boundary := RegionBoundary(c, cursor, end);
        var partEnd := if boundary < end then boundary else end;
        var r := AddressToRegion(c, cursor).value.region;
        RunShapes(c, regions, lo, hi, expected, r);
        if c.LastRegion(r) { LastRegionNotUniform(c, regions, r); }
        status := PrepareRemoveRegion(r, regionOffset == 0 && partEnd == boundary);
        PreparedStep(c, before, mid, regions, lo, hi, r);
        if status != Ok { return; }
        cursor := partEnd;
        n := NextPart(c, n, hi);
      }
      ShlMono(n, hi, c.granuleShift);
      status := Ok;
    }

    /** The body of the mutation loop of a removal. */
    method RemoveFrom(r: nat, granule: nat, count: nat, wholeByBoundary: bool)
      requires Adaptive() && r < c.RegionCount() && r < |regions| && granule + count <= c.PerRegion()
      requires regions[r].Dense? || (regions[r].Uniform? && wholeByBoundary)
      modifies this`root, this`leaves, this`bounded, this`tables, this`allocatedLeaves, this`denseRegions, this`uniformRegions
      modifies this`regions, this`leafOwner, allocator
      ensures Adaptive() && Fits(c, old(regions)[r])
      ensures regions == old(regions)[r := Removed(c, old(regions)[r], granule, count)]
      ensures Present(Memory()) == old(Present(Memory())) && allocator.failures == old(allocator.failures)
    {
      hide Sound, Reachable, Counted, Shl, Shr, Low, Pow2, And, Points, DirectoryShape, Shapely, Descriptor, Present;
      SoundFits(c, Memory(), regions, r);
      var slot := GetRegionMut(r, false);
      if slot == NoSlot { assert false; }
      DescriptorType(c, Memory(), regions, r);
      SoundFits(c, Memory(), regions, r);
      if TypeDecode(GetRegion(r)) == TypeUniform && wholeByBoundary {
        ClearUniform(slot, r);
      } else {
        WriteGranules(slot, r, granule, count, c.Invalid());
        Reclassify(slot, r);
      }
    }

    /** The mutation loop of memx_remove; it cannot fail, and it gives back every leaf it empties. */
    method ApplyRemove(base: nat, end: nat, ghost expected: nat, ghost lo: nat, ghost hi: nat)
      requires Adaptive() && RunOf(c, lo, hi) && base == c.Address(lo) && end == c.Address(hi)
      requires RunHolds(c, regions, lo, hi, expected) && expected != c.Invalid()
      requires AllRemoveReady(c, regions, lo, hi, Frontier(c, hi, hi))
      modifies this`root, this`leaves, this`bounded, this`tables, this`allocatedLeaves, this`denseRegions, this`uniformRegions
      modifies this`regions, this`leafOwner, allocator
      ensures Adaptive() && RemoveApplied(c, old(regions), regions, lo, hi, hi)
      ensures old(AllUsed(c, regions, Present(Memory()))) ==> AllUsed(c, regions, Present(Memory()))
      ensures allocator.failures == old(allocator.failures)
    {
      hide Sound, Reachable, Counted, Present, Shl, Shr, Low, Pow2, And, Fits, At, Points, DirectoryShape, AtPart, Shapely, Config.Legal;
      hide RemoveApplied, AllRemoveReady, Whole, Frontier, Touched, RegionBoundary, AddressToRegion, NextPart, Removed, AllUsed, LeafUsed;
      SoundShape(c, Memory(), regions);
      ghost var before, n, tidy := regions, lo, AllUsed(c, regions, Present(Memory()));
      var cursor := base;
      RemoveStart(c, regions, lo, hi);
      while cursor < end
        invariant Adaptive() && RemoveApplied(c, before, regions, lo, n, hi)
        invariant AtPart(c, lo, n, hi) && cursor == c.Address(n) && lo <= n <= hi
        invariant allocator.failures == old(allocator.failures)
        invariant tidy ==> AllUsed(c, regions, Present(Memory()))
        decreases hi - n
      {
        ShlMono(hi, n, c.granuleShift);
        PartGeometry(c, n, hi);
        StepForward(c, lo, n, hi);
        RemoveStep(c, before, regions, lo, n, hi);
        ghost var mid, next := regions, NextPart(c, n, hi);
        var regionOffset := And(cursor, c.RegionSize() - 1);
        var boundary := RegionBoundary(c, cursor, end);
        var partEnd := if boundary < end then boundary else end;
        var p := AddressToRegion(c, cursor).value;
        var count := Shr(partEnd - cursor, c.granuleShift);
        RemoveFrom(p.region, p.granule, count, regionOffset == 0 && partEnd == boundary);
        cursor := partEnd;
        PruneAfterPart(p.region, cursor, end, before, mid, expected, lo, next, hi);
        n := next;
      }
      ShlMono(n, hi, c.granuleShift);
    }

    /** Pruning when the walk leaves the root slot of the region it just rewrote. */
    method PruneAfterPart(r: nat, cursor: nat, end: nat, ghost before: seq<Region>, ghost mid: seq<Region>, ghost expected: nat,
                          ghost lo: nat, ghost n: nat, ghost hi: nat)
      requires Adaptive() && r < c.RegionCount() && RunOf(c, lo, hi) && AtPart(c, lo, n, hi) && lo < n
      requires cursor == c.Address(n) && end == c.Address(hi)
      requires RemoveApplied(c, before, regions, lo, n, hi) && RunHolds(c, before, lo, hi, expected) && expected != c.Invalid()
      requires |mid| == |regions| && regions == mid[r := regions[r]] && Frontier(c, n, hi) == r + 1
      modifies this`root, this`leaves, this`allocatedLeaves, allocator
      ensures Adaptive() && allocator.failures == old(allocator.failures)
      ensures c.mode.Bounded? ==> Memory() == old(Memory())
      ensures old(AllUsed(c, mid, Present(Memory()))) ==> AllUsed(c, regions, Present(Memory()))
    {
      hide Sound, Reachable, Counted, Present, Shl, Shr, Low, Pow2, And, Fits, At, Points, DirectoryShape, Shapely, Config.Legal;
      hide RemoveApplied, RunHolds, Rewrites, LeafUsed, AddressToRegion;
      SoundShape(c, Memory(), regions);
      if AllUsed(c, mid, Present(Memory())) { LeavesAfterPart(c, mid, r, regions[r], Present(Memory())); }
      if c.mode.Sparse? {
        var rootIndex := Shr(r, c.LeafBits());
        if cursor != end {
          PartGeometry(c, n, hi);
          NextStillUsed(c, before, regions, expected, lo, n, hi);
        }
        var nextRegion := if cursor == end then None else AddressToRegion(c, cursor);
        var leavesRoot := cursor == end || (nextRegion.Some? && Shr(nextRegion.value.region, c.LeafBits()) != rootIndex);
        if leavesRoot {
          PruneLeaf(r);
        }
      }
    }

    // ----- the public operations

    /** memx_lookup_address in every storage form. */
    function LookupAddress(address: nat): (handle: nat)
      requires Valid() && c.IsWord(address)
      reads this, allocator
      ensures handle == LookupSpec(c, Mapping(), address)
    {
      hide Adaptive, Flat, Frozen, TopFree, MapOf, FlatMap, LookupSpec;
      if flatMode then FlatLookup(address) else if overlayMode then FrozenLookup(address) else AdaptiveLookup(address)
    }

    function FlatLookup(address: nat): (handle: nat)
      requires Flat() && c.IsWord(address)
      reads this, allocator
      ensures handle == LookupSpec(c, FlatMap(c, flatEntries), address)
    {
      hide Shl, Shr, Low, Pow2, And, Config.Legal;
      CoveredGranule(c, address);
      if AddressToRegion(c, address).None? then c.Invalid() else flatEntries[Shr(address - c.base, c.granuleShift)]
    }

    function FrozenLookup(address: nat): (handle: nat)
      requires Frozen() && c.IsWord(address)
      reads this, allocator
      ensures handle == LookupSpec(c, MapOf(c, regions), address)
    {
      hide Shl, Shr, Low, Pow2, And, MapOf, Fits, Shapely, OverlayStands, Config.Legal, Counted;
      CoveredGranule(c, address);
      match AddressToRegion(c, address)
      case None => c.Invalid()
      case Some(p) =>
        FrozenEntry(c, bounded, overlayEntries, regions, GranuleOf(c, address));
        MapEntry(c, regions, GranuleOf(c, address));
        ReadOverlay(c, bounded[p.region], overlayEntries[Shr(address - c.base, c.granuleShift)])
    }

    /** Insertion on the adaptive form, after the argument checks. */
    method InsertAdaptive(base: nat, end: nat, handle: nat, ghost lo: nat, ghost hi: nat) returns (status: Status)
      requires Adaptive() && Valid() && RunOf(c, lo, hi) && base == c.Address(lo) && end == c.Address(hi)
      requires c.IsWord(handle) && handle != c.Invalid() && (c.CoversWord() ==> hi < c.GranuleCount())
      modifies this`root, this`leaves, this`bounded, this`tables, this`allocatedLeaves, this`denseRegions, this`uniformRegions
      modifies this`regions, this`tableOwner, this`leafOwner, allocator
      ensures Adaptive() && Valid()
      ensures !Free(old(Mapping()), lo, hi) ==> status == Overlap && Mapping() == old(Mapping())
      ensures Free(old(Mapping()), lo, hi) && status == Ok ==> Mapping() == old(Mapping()) + Filled(lo, hi, handle)
      ensures Free(old(Mapping()), lo, hi) && status != Ok ==>
                status == OutOfMemory && Mapping() == old(Mapping()) && allocator.failures > old(allocator.failures)
      ensures status != OutOfMemory ==> allocator.failures == old(allocator.failures)
      ensures status != OutOfMemory && old(Canonical()) ==> Canonical()
    {
      hide Sound, Reachable, Counted, Present, Shl, Shr, Low, Pow2, And, Fits, At, DirectoryShape, Shapely, Config.Legal, Entry;
      hide Prepared, InsertApplied, AllInsertReady, Frontier, Roots, MapOf, Free, TopFree, CanonicalShape, Rewrites, RunHolds;
      SoundShape(c, Memory(), regions);
      ghost var before, present := regions, Present(Memory());
      FreeIsRun(c, before, lo, hi);
      status := PreflightRange(base, end, c.Invalid(), true, lo, hi);
      if status != Ok { return; }
      status := PrepareInsert(base, end, handle, lo, hi);
      ghost var prepared := regions;
      PreparedKeepsMap(c, before, prepared, lo, hi);
      TopFreeKept(c, before, prepared, lo, hi);
      if status != Ok { return; }
      ApplyInsert(base, end, handle, lo, hi);
      InsertedMap(c, prepared, regions, lo, hi, handle);
      if CanonicalShape(c, before, present) { InsertCanonical(c, before, prepared, regions, lo, hi, handle, present); }
    }

    /** Removal on the adaptive form, after the argument checks. */
    method RemoveAdaptive(base: nat, end: nat, expected: nat, ghost lo: nat, ghost hi: nat) returns (status: Status)
      requires Adaptive() && Valid() && RunOf(c, lo, hi) && base == c.Address(lo) && end == c.Address(hi)
      requires expected != c.Invalid()
      modifies this`root, this`leaves, this`bounded, this`tables, this`allocatedLeaves, this`denseRegions, this`uniformRegions
      modifies this`regions, this`tableOwner, this`leafOwner, allocator
      ensures Adaptive() && Valid()
      ensures !Holds(old(Mapping()), lo, hi, expected) ==> status == NotFound && Mapping() == old(Mapping())
      ensures Holds(old(Mapping()), lo, hi, expected) && status == Ok ==> Mapping() == old(Mapping()) - Span(lo, hi)
      ensures Holds(old(Mapping()), lo, hi, expected) && status != Ok ==>
                status == OutOfMemory && Mapping() == old(Mapping()) && allocator.failures > old(allocator.failures)
      ensures status != OutOfMemory ==> allocator.failures == old(allocator.failures)
      ensures status != OutOfMemory && old(Canonical()) ==> Canonical()
    {
      hide Sound, Reachable, Counted, Present, Shl, Shr, Low, Pow2, And, Fits, At, DirectoryShape, Config.Legal, Entry;
      hide Prepared, RemoveApplied, AllRemoveReady, Frontier, MapOf, Holds, TopFree, Rewrites, RunHolds;
      hide LeavesCover, LeafUsed, CanonicalRegion;
      SoundShape(c, Memory(), regions);
      ghost var before, present := regions, Present(Memory());
      HoldsIsRun(c, before, lo, hi, expected);
      status := PreflightRange(base, end, expected, false, lo, hi);
      if status != Ok { return; }
      status := PrepareRemove(base, end, expected, lo, hi);
      ghost var prepared := regions;
      PreparedKeepsMap(c, before, prepared, lo, hi);
      TopFreeKept(c, before, prepared, lo, hi);
      if status != Ok { return; }
      PreparedHolds(c, before, prepared, lo, hi, expected);
      if AllUsed(c, before, present) { PreparedUsed(c, before, prepared, lo, hi, expected, present); }
      ApplyRemove(base, end, expected, lo, hi);
      RemovedMap(c, prepared, regions, lo, hi);
      SoundCovers(c, Memory(), regions);
      SoundShape(c, Memory(), regions);
      if forall r :: 0 <= r < |before| ==> CanonicalRegion(c, before[r]) {
        RemoveCanonical(c, before, prepared, regions, lo, hi);
      }
    }

    /** The flat branch shared by insert and remove: check every slot, then write every slot. */
    method RewriteFlat(base: nat, end: nat, required: nat, value: nat, ghost lo: nat, ghost hi: nat) returns (ok: bool)
      requires Flat() && RunOf(c, lo, hi) && base == c.Address(lo) && end == c.Address(hi) && c.IsWord(value)
      modifies this`flatEntries
      ensures Flat() && |flatEntries| == |old(flatEntries)| == c.GranuleCount()
      ensures ok <==> forall n: nat :: lo <= n < hi ==> old(flatEntries)[n] == required
      ensures !ok ==> flatEntries == old(flatEntries)
      ensures ok ==> forall n: nat :: n < |flatEntries| ==> flatEntries[n] == if lo <= n < hi then value else old(flatEntries)[n]
    {
      hide Shl, Shr, Low, Pow2, And, Config.Legal;
      var step := Pow2(c.granuleShift);
      var cursor := base;
      ghost var n := lo;
      while cursor < end
        invariant lo <= n <= hi && cursor == c.Address(n) && flatEntries == old(flatEntries)
        invariant forall m: nat :: lo <= m < n ==> flatEntries[m] == required
        decreases hi - n
      {
        SlotOf(c, n, hi);
        var position := Shr(cursor - c.base, c.granuleShift);
        if flatEntries[position] != required { return false; }
        cursor := cursor + step;
        n := n + 1;
      }
      ShlMono(n, hi, c.granuleShift);
      cursor, n := base, lo;
      while cursor < end
        invariant lo <= n <= hi && cursor == c.Address(n) && Flat()
        invariant forall m: nat :: m < |flatEntries| ==> flatEntries[m] == if lo <= m < n then value else old(flatEntries)[m]
        decreases hi - n
      {
        SlotOf(c, n, hi);
        var position := Shr(cursor - c.base, c.granuleShift);
        flatEntries := flatEntries[position := value];
        cursor := cursor + step;
        n := n + 1;
      }
      ShlMono(n, hi, c.granuleShift);
      ok := true;
    }

    /** memx_insert. */
    method Insert(address: nat, size: nat, handle: nat) returns (status: Status)
      requires Valid() && c.IsWord(address) && c.IsWord(size) && c.IsWord(handle)
      modifies this, allocator
      ensures Valid() && flatMode == old(flatMode) && overlayMode == old(overlayMode)
      ensures var spec := InsertSpec(c, overlayMode, old(Mapping()), address, size, handle);
              || (status == spec.status && Mapping() == spec.mapping)
              || (status == OutOfMemory && spec.status == Ok && Mapping() == old(Mapping()) && allocator.failures > old(allocator.failures))
      ensures allocator.failures >= old(allocator.failures)
      ensures status != OutOfMemory ==> allocator.failures == old(allocator.failures)
      ensures allocator.failures == old(allocator.failures) && old(Canonical()) ==> Canonical()
    {
      hide Adaptive, Flat, Frozen, TopFree, MapOf, FlatMap, CanonicalShape, Shl, Shr, Low, Pow2, And, ValidateRange, RangeLow, RangeHigh;
      if handle == c.Invalid() { return InvalidArgument; }
      if overlayMode { return Busy; }
      LegalIndex();
      var check := ValidateRange(c, address, size);
      if check.status != Ok { return check.status; }
      RangeIsGranules(c, address, size);
      ghost var lo, hi := RangeLow(c, address), RangeHigh(c, address, size);
      if flatMode {
        ghost var before := flatEntries;
        var ok := RewriteFlat(address, check.end, c.Invalid(), handle, lo, hi);
        FlatFilled(c, before, flatEntries, lo, hi, handle, ok);
        return if ok then Ok else Overlap;
      }
      status := InsertAdaptive(address, check.end, handle, lo, hi);
    }

    /** memx_remove. */
    method Remove(address: nat, size: nat, expected: nat) returns (status: Status)
      requires Valid() && c.IsWord(address) && c.IsWord(size) && c.IsWord(expected)
      modifies this, allocator
      ensures Valid() && flatMode == old(flatMode) && overlayMode == old(overlayMode)
      ensures var spec := RemoveSpec(c, overlayMode, old(Mapping()), address, size, expected);
              || (status == spec.status && Mapping() == spec.mapping)
              || (status == OutOfMemory && spec.status == Ok && Mapping() == old(Mapping()) && allocator.failures > old(allocator.failures))
      ensures allocator.failures >= old(allocator.failures)
      ensures status != OutOfMemory ==> allocator.failures == old(allocator.failures)
      ensures allocator.failures == old(allocator.failures) && old(Canonical()) ==> Canonical()
    {
      hide Adaptive, Flat, Frozen, TopFree, MapOf, FlatMap, CanonicalShape, Shl, Shr, Low, Pow2, And, ValidateRange, RangeLow, RangeHigh;
      if expected == c.Invalid() { return InvalidArgument; }
      if overlayMode { return Busy; }
      LegalIndex();
      var check := ValidateRange(c, address, size);
      if check.status != Ok { return check.status; }
      RangeIsGranules(c, address, size);
      ghost var lo, hi := RangeLow(c, address), RangeHigh(c, address, size);
      if flatMode {
        ghost var before := flatEntries;
        var ok := RewriteFlat(address, check.end, expected, c.Invalid(), lo, hi);
        FlatCleared(c, before, flatEntries, lo, hi, expected, ok);
        return if ok then Ok else NotFound;
      }
      status := RemoveAdaptive(address, check.end, expected, lo, hi);
    }

    // ----- conversions and destruction

    /** Gives back every dense table of a bounded directory; other blocks in the ledger stay. */
    method FreeBoundedTables(ghost others: set<nat>)
      requires c.mode.Bounded? && Sound(c, Memory(), regions) && others !! tables.Keys
      requires forall p :: p in allocator.live <==> p in others || p in tables
      modifies allocator`live
      ensures allocator.live == others
    {
      hide Sound, DirectoryShape, Descriptor, Shapely;
      SoundShape(c, Memory(), regions);
      AllOwned(c, Memory(), regions);
      var i := 0;
      while i < c.RegionCount()
        invariant i <= c.RegionCount()
        invariant forall p :: p in allocator.live <==> p in others || (p in tables && tableOwner[p] >= i)
      {
        DescriptorType(c, Memory(), regions, i);
        TableRoles(c, Memory(), regions, i);
        var d := GetRegion(i);
        if TypeDecode(d) == TypeDense {
          allocator.Free(DenseDecode(c, d));
        }
        i := i + 1;
      }
    }

    /** The same for the whole ledger of the index: its object and its directory are left. */
    method FreeTables()
      requires c.mode.Bounded? && Sound(c, Memory(), regions) && Reachable(allocator.live, self, directory, outside, Memory())
      modifies allocator`live
      ensures allocator.live == outside + {self, directory}
      ensures self != directory && self != 0 && directory != 0 && self !in outside && directory !in outside
    {
      hide Sound, Shapely, DirectoryShape, Reachable;
      SoundShape(c, Memory(), regions);
      BoundedLedger(allocator.live, self, directory, outside, Memory());
      FreeBoundedTables(outside + {self, directory});
    }

    /** The copy loops of memx_index_optimize: region by region, granule by granule. */
    method CopyDense() returns (entries: seq<nat>)
      requires c.mode.Bounded? && Sound(c, Memory(), regions) && forall r :: 0 <= r < |regions| ==> regions[r].Dense?
      ensures |entries| == c.GranuleCount() && forall n: nat :: n < c.GranuleCount() ==> entries[n] == Entry(c, regions, n)
      ensures forall n :: 0 <= n < |entries| ==> c.IsWord(entries[n])
    {
      hide Sound, DirectoryShape, Descriptor, Shapely, Reachable, Counted, Shl, Shr, Low, Pow2, And, Config.Legal;
      SoundShape(c, Memory(), regions);
      var k := c.GranuleBits();
      entries := ZeroWords(c.GranuleCount());
      var region := 0;
      ShlOne(k);
      while region < c.RegionCount()
        invariant region <= c.RegionCount() && |entries| == c.GranuleCount() && Shl(region, k) <= |entries|
        invariant forall n: nat :: n < Shl(region, k) ==> entries[n] == Entry(c, regions, n)
      {
        SoundFits(c, Memory(), regions, region);
        DescriptorType(c, Memory(), regions, region);
        var table := DenseDecode(c, GetRegion(region));
        ShlMono(region + 1, c.RegionCount(), k);
        ShlAdd(region, 1, k);
        var granule := 0;
        while granule < c.PerRegion()
          invariant granule <= c.PerRegion() && |entries| == c.GranuleCount()
          invariant forall n: nat :: n < Shl(region, k) + granule ==> entries[n] == Entry(c, regions, n)
        {
          Unsplit(region, granule, k);
          entries := entries[Shl(region, k) + granule := tables[table][granule]];
          granule := granule + 1;
        }
        region := region + 1;
      }
      forall n: nat | n < |entries|
        ensures c.IsWord(entries[n])
      {
        EntryIsWord(c, regions, n);
      }
    }

    /** memx_index_optimize: a fully DENSE bounded index becomes one flat table with the same map. */
    method Optimize() returns (status: Status)
      requires Valid()
      modifies this, allocator
      ensures Valid() && Mapping() == old(Mapping())
      ensures status == Ok <==> flatMode
      ensures status != Ok ==> !flatMode && overlayMode == old(overlayMode) && allocator.live == old(allocator.live)
      ensures old(overlayMode) ==> status == Busy
      ensures !old(flatMode) && !old(overlayMode) ==>
                (status == Unsupported <==> c.mode.Sparse? || exists r :: 0 <= r < |old(regions)| && !old(regions)[r].Dense?)
      ensures status == OutOfMemory ==> allocator.failures > old(allocator.failures) || !FlatFits(c)
      ensures status in {Ok, Busy, Unsupported, OutOfMemory}
    {
      hide Sound, Shapely, DirectoryShape, Descriptor, TopFree, OverlayStands, Shl, Shr, Low, Pow2, And, Config.Legal, MapOf, FlatMap;
      hide DenseCount, UniformCount, Reachable;
      if flatMode { return Ok; }
      if overlayMode { return Busy; }
      SoundShape(c, Memory(), regions);
      CountBounds(regions);
      if c.mode != Bounded || denseRegions != c.RegionCount() { return Unsupported; }
      if !FlatFits(c) { return OutOfMemory; }
      BoundedLedger(allocator.live, self, directory, outside, Memory());
      var p := allocator.Allocate(c);
      if p == 0 { return OutOfMemory; }
      var entries := CopyDense();
      FlatSame(c, regions, entries);
      FreeBoundedTables(outside + {self, directory, p});
      allocator.Free(directory);
      BecomeFlat(p, entries);
      status := Ok;
    }

    method BecomeFlat(p: nat, entries: seq<nat>)
      requires !overlayMode && c.Legal() && c.mode.Bounded?
      requires |entries| == c.GranuleCount() && (forall n :: 0 <= n < |entries| ==> c.IsWord(entries[n]))
      requires self != p && self != 0 && p != 0 && allocator.live == outside + {self, p}
      requires self !in outside && p !in outside && allocator.mappings == outsideMappings
      modifies this`bounded, this`tables, this`flatPointer, this`flatEntries, this`flatMode, this`denseRegions
      ensures Flat() && flatMode && !overlayMode && flatEntries == entries
    {
      hide Config.Legal, Shl, Shr, Pow2, Memory;
      bounded, tables := [], map[];
      flatPointer, flatEntries, flatMode, denseRegions := p, entries, true, 0;
    }

    /** The copy loop of memx_index_optimize_overlay, with its page accounting. */
    method CopyOverlay(pageShift: nat) returns (entries: seq<nat>, account: OverlayPages.Account)
      requires c.mode.Bounded? && Sound(c, Memory(), regions)
      ensures |entries| == c.GranuleCount() && OverlayCopied(c, entries, regions, c.RegionCount())
      ensures account == OverlayPages.Accounted(DenseFlags(regions), c.GranuleBits() + c.wordLog, pageShift)
    {
      hide Sound, DirectoryShape, Descriptor, Reachable, Counted, Shl, Shr, Low, Pow2, And, Config.Legal, OverlayCopied;
      SoundShape(c, Memory(), regions);
      entries := ZeroWords(c.GranuleCount());
      account := OverlayPages.Account(0, 0);
      var region := 0;
      ghost var flags := DenseFlags(regions);
      OverlayEmpty(c, entries, regions);
      while region < c.RegionCount()
        invariant region <= c.RegionCount() && |entries| == c.GranuleCount()
        invariant OverlayCopied(c, entries, regions, region)
        invariant account == OverlayPages.Accounted(flags[..region], c.GranuleBits() + c.wordLog, pageShift)
      {
        SoundFits(c, Memory(), regions, region);
        DescriptorType(c, Memory(), regions, region);
        assert flags[..region + 1][..region] == flags[..region];
        OverlayNext(c, entries, regions, region);
        var d := GetRegion(region);
        if TypeDecode(d) == TypeDense {
          var table := tables[DenseDecode(c, d)];
          ShlMono(region + 1, c.RegionCount(), c.GranuleBits());
          ShlAdd(region, 1, c.GranuleBits());
          ShlOne(c.GranuleBits());
          var start := Shl(region, c.GranuleBits());
          entries := entries[..start] + table + entries[start + c.PerRegion()..];
          account := OverlayPages.AccountRegion(account, region, c.GranuleBits() + c.wordLog, pageShift);
        }
        region := region + 1;
      }
      assert flags[..region] == flags;
    }

    /** Byte length of the overlay. */
    function OverlayLength(): nat { Shl(c.GranuleCount(), c.wordLog) }

    /** memx_index_optimize_overlay: every region keeps its meaning and its type, and no table stays allocated. */
    method OptimizeOverlay(pageShift: nat, hugeShift: nat) returns (status: Status)
      requires Valid() && pageShift <= c.WordBits() && hugeShift <= c.WordBits()
      modifies this, allocator
      ensures Valid() && Mapping() == old(Mapping())
      ensures status == Ok <==> overlayMode
      ensures status != Ok ==> flatMode == old(flatMode) && allocator.live == old(allocator.live) && allocator.mappings == old(allocator.mappings)
      ensures !old(overlayMode) ==> (status == Unsupported <==> old(flatMode) || c.mode.Sparse?)
      ensures var shift := GranularityShift(OverlayLength(), pageShift, hugeShift);
              && (status == OutOfMemory && allocator.failures == old(allocator.failures) ==>
                    !FlatFits(c) || !Reservable(OverlayLength(), shift, c.WordBits()))
              && (status == Ok && !old(overlayMode) ==>
                    && regions == old(regions)
                    && overlayPrivateBytes == OverlayPages.Accounted(DenseFlags(regions), c.GranuleBits() + c.wordLog, shift).privateBytes
                    && Guarded(Reservation(overlayMapping, overlayBytes, overlayPayload, shift), OverlayLength(), pageShift))
      ensures status in {Ok, Unsupported, OutOfMemory} && (status != OutOfMemory ==> allocator.failures == old(allocator.failures))
    {
      hide Sound, Shapely, DirectoryShape, Descriptor, TopFree, OverlayStands, Shl, Shr, Low, Pow2, And, Config.Legal, MapOf, FlatMap;
      hide DenseCount, UniformCount, Reachable, OverlayCopied, Frozen, Counted, FlatFits, Guarded, Reservable, GranularityShift;
      if overlayMode { return Ok; }
      if flatMode || c.mode != Bounded { return Unsupported; }
      if !FlatFits(c) { return OutOfMemory; }
      SoundShape(c, Memory(), regions);
      CheckTags();
      var reservation := allocator.Reserve(c, OverlayLength(), pageShift, hugeShift);
      if reservation.None? { return OutOfMemory; }
      var entries, account := CopyOverlay(reservation.value.shift);
      Freeze(entries, reservation.value, account.privateBytes);
      status := Ok;
    }

    /** The publication of the overlay, which cannot fail. */
    method Freeze(entries: seq<nat>, r: Reservation, privateBytes: nat)
      requires !flatMode && !overlayMode && c.Legal() && c.mode.Bounded? && Sound(c, Memory(), regions)
      requires Reachable(allocator.live, self, directory, outside, Memory()) && Counted()
      requires r.mapping !in outsideMappings && allocator.mappings == outsideMappings[r.mapping := r.reserved]
      requires |entries| == c.GranuleCount() && OverlayCopied(c, entries, regions, c.RegionCount())
      modifies this`bounded, this`tables, this`overlayEntries, this`overlayPrivateBytes, this`overlayMode
      modifies this`overlayMapping, this`overlayBytes, this`overlayPayload, allocator`live
      ensures Frozen() && overlayMode && !flatMode && overlayPrivateBytes == privateBytes
      ensures overlayMapping == r.mapping && overlayBytes == r.reserved && overlayPayload == r.payload
    {
      hide Sound, Shapely, DirectoryShape, Descriptor, OverlayStands, Shl, Shr, Low, Pow2, And, Config.Legal, DenseCount, UniformCount;
      hide Reachable, OverlayCopied;
      SoundShape(c, Memory(), regions);
      FreeTables();
      MarkDense(entries);
      BecomeFrozen(entries, r, privateBytes);
    }

    method BecomeFrozen(entries: seq<nat>, r: Reservation, privateBytes: nat)
      requires !flatMode && !overlayMode && c.Legal() && c.mode.Bounded? && Counted()
      requires |bounded| == |regions| == c.RegionCount() && Shapely(c, regions) && OverlayStands(c, bounded, entries, regions)
      requires allocator.live == outside + {self, directory} && self !in outside && directory !in outside
      requires self != directory && self != 0 && directory != 0
      requires r.mapping !in outsideMappings && allocator.mappings == outsideMappings[r.mapping := r.reserved]
      modifies this`tables, this`overlayEntries, this`overlayPrivateBytes, this`overlayMode
      modifies this`overlayMapping, this`overlayBytes, this`overlayPayload
      ensures Frozen() && overlayMode && !flatMode && overlayPrivateBytes == privateBytes
      ensures overlayMapping == r.mapping && overlayBytes == r.reserved && overlayPayload == r.payload
    {
      hide Shapely, OverlayStands, Config.Legal, Shl, Shr, Pow2, LeafTotal, Memory, DenseCount, UniformCount;
      tables := map[];
      overlayEntries, overlayMapping, overlayBytes, overlayPayload := entries, r.mapping, r.reserved, r.payload;
      overlayPrivateBytes, overlayMode := privateBytes, true;
    }

    /** The read-only pass over all tags: an ill-formed descriptor never exists. */
    method CheckTags()
      requires c.mode.Bounded? && Sound(c, Memory(), regions)
    {
      hide Sound, DirectoryShape, Descriptor, Shl, Shr, Low, Pow2, And, UniformEncode;
      SoundShape(c, Memory(), regions);
      var i := 0;
      while i < c.RegionCount()
        invariant i <= c.RegionCount()
      {
        DescriptorType(c, Memory(), regions, i);
        if GetRegion(i) != 0 && TypeDecode(GetRegion(i)) == TypeEmpty { assert false; }
        i := i + 1;
      }
    }

    /** The publication loop: the pointer of every DENSE descriptor becomes a bare marker. */
    method MarkDense(ghost entries: seq<nat>)
      requires c.mode.Bounded? && Sound(c, Memory(), regions)
      requires |entries| == c.GranuleCount() && OverlayCopied(c, entries, regions, c.RegionCount())
      modifies this`bounded
      ensures |bounded| == |regions| == c.RegionCount() && Shapely(c, regions) && OverlayStands(c, bounded, entries, regions)
    {
      hide Sound, Shapely, Shl, Shr, Low, Pow2, And, Or;
      SoundShape(c, Memory(), regions);
      ghost var words := bounded;
      forall r: nat | r < |regions|
        ensures Linked(c, Memory(), regions, r) && Descriptor(c, Memory(), r) == words[r]
        ensures regions[r].Dense? <==> TypeDecode(words[r]) == TypeDense
      {
        SoundLinked(c, Memory(), regions, r);
        DescriptorType(c, Memory(), regions, r);
      }
      var i := 0;
      while i < c.RegionCount()
        invariant i <= c.RegionCount() && |bounded| == |words|
        invariant forall r: nat :: r < |words| ==> bounded[r] == if r < i && regions[r].Dense? then 2 else words[r]
      {
        if TypeDecode(bounded[i]) == TypeDense {
          bounded := bounded[i := 2];
        }
        i := i + 1;
      }
    }

    /** The nested loops of memx_index_destroy over root and leaves. */
    method FreeSparse()
      requires c.mode.Sparse? && Sound(c, Memory(), regions) && Reachable(allocator.live, self, directory, outside, Memory())
      modifies allocator`live
      ensures allocator.live == outside + {self, directory}
    {
      hide Sound, DirectoryShape, Descriptor, Shapely, Shl, Shr, Low, Pow2, And;
      SparseRoles(c, Memory(), regions);
      var i := 0;
      while i < |root|
        invariant i <= |root|
        invariant forall p :: p in allocator.live <==>
                    p == self || p == directory || p in outside || (p in leaves && leafOwner[p] >= i)
                    || (p in tables && Shr(tableOwner[p], c.LeafBits()) >= i)
      {
        var leaf := root[i];
        if leaf != 0 {
          FreeLeafTables(i, leaf);
          allocator.Free(leaf);
        }
        i := i + 1;
      }
      assert forall p :: p in allocator.live <==> p == self || p == directory || p in outside;
    }

    method FreeLeafTables(i: nat, leaf: nat)
      requires c.mode.Sparse? && Sound(c, Memory(), regions) && i < |root| && leaf == root[i] != 0
      requires leaf in leaves && |leaves[leaf]| == c.LeafCount() && self !in tables && directory !in tables && leaves.Keys !! tables.Keys
      requires outside !! tables.Keys
      requires forall p :: p in leaves ==> p in leafOwner
      requires forall p :: p in tables ==> p in tableOwner
      requires forall p :: p in allocator.live <==>
                 p == self || p == directory || p in outside || (p in leaves && leafOwner[p] >= i)
                 || (p in tables && Shr(tableOwner[p], c.LeafBits()) >= i)
      modifies allocator`live
      ensures forall p :: p in allocator.live <==>
                p == self || p == directory || p in outside || (p in leaves && leafOwner[p] >= i)
                || (p in tables && Shr(tableOwner[p], c.LeafBits()) >= i + 1)
    {
      hide Sound, DirectoryShape, Descriptor, Shapely, Shl, Shr, Low, Pow2, And;
      var lb := c.LeafBits();
      var j := 0;
      while j < c.LeafCount()
        invariant j <= c.LeafCount()
        invariant forall p :: p in allocator.live <==>
                    p == self || p == directory || p in outside || (p in leaves && leafOwner[p] >= i)
                    || (p in tables && (Shr(tableOwner[p], lb) > i || (Shr(tableOwner[p], lb) == i && Low(tableOwner[p], lb) >= j)))
      {
        ghost var r := SlotRegion(c, Memory(), regions, i, j);
        var word := leaves[leaf][j];
        if TypeDecode(word) == TypeDense {
          allocator.Free(DenseDecode(c, word));
        }
        j := j + 1;
      }
    }

    /** memx_index_destroy: every block goes back exactly once, and none is left. */
    method Destroy()
      requires Valid()
      modifies allocator
      ensures allocator.live == outside && allocator.mappings == outsideMappings && allocator.failures == old(allocator.failures)
    {
      hide Sound, Shapely, DirectoryShape, Descriptor, TopFree, OverlayStands, Shl, Shr, Low, Pow2, And, Config.Legal, Reachable;
      if flatMode {
        allocator.Free(flatPointer);
      } else if overlayMode {
        allocator.Unmap(overlayMapping, overlayBytes);
        allocator.Free(directory);
      } else if c.mode == Bounded {
        FreeTables();
        allocator.Free(directory);
      } else {
        assert self != directory && self !in outside && directory !in outside by { LedgerNames(allocator.live, self, directory, outside, Memory()); }
        FreeSparse();
        allocator.Free(directory);
      }
      allocator.Free(self);
    }

    // ----- reports

    /** memx_region_type_at: the kind of the region an address falls in; a flat index is one dense table. */
    function TypeAt(address: nat): (result: Option<RegionType>)
      requires Valid() && c.IsWord(address)
      reads this, allocator
      ensures result.Some? <==> Covered(c, address)
      ensures result.Some? && flatMode ==> result.value == TypeDense
      ensures result.Some? && !flatMode ==>
                AddressToRegion(c, address).value.region < |regions|
                && result.value == TypeOf(regions[AddressToRegion(c, address).value.region])
    {
      hide Sound, Reachable, Shl, Shr, Low, Pow2, And, Fits, OverlayStands, TopFree, MapOf, Shapely;
      CoveredGranule(c, address);
      match AddressToRegion(c, address)
      case None => None
      case Some(p) =>
        GranuleRegion(c, GranuleOf(c, address));
        if flatMode then Some(TypeDense)
        else if overlayMode then
          FrozenEntry(c, bounded, overlayEntries, regions, GranuleOf(c, address));
          Some(TypeDecode(bounded[p.region]))
        else
          SoundFits(c, Memory(), regions, p.region);
          DescriptorType(c, Memory(), regions, p.region);
          Some(TypeDecode(GetRegion(p.region)))
    }

    /** memx_index_stats; indexBytes is the size of the index object itself. */
    function Stats(indexBytes: nat, pageShift: nat): Report
      reads this
    {
      var max, wordBytes := c.WordMax(), Pow2(c.wordLog);
      var objectPages := PageAccount(indexBytes, pageShift, max);
      if flatMode then
        var entryBytes := SatMul(c.GranuleCount(), wordBytes, max);
        var directoryBytes := SatAdd(indexBytes, entryBytes, max);
        Report(FlatStorage, directoryBytes, 0, 0, directoryBytes,
               SatAdd(objectPages, PageAccount(entryBytes, pageShift, max), max),
               c.RegionCount(), 0, 0, c.RegionCount())
      else
        var tableBytes := Shl(c.PerRegion(), c.wordLog);
        var leafBytes := SatAdd(wordBytes, SatMul(c.LeafCount() - 1, wordBytes, max), max);
        var slotBytes := SatMul(if c.mode.Bounded? then c.RegionCount() else c.RootCount(), wordBytes, max);
        var fixed := SatAdd(indexBytes, slotBytes, max);
        var directoryBytes := if c.mode.Bounded? then fixed else SatAdd(fixed, SatMul(allocatedLeaves, leafBytes, max), max);
        var used := SatAdd(uniformRegions, denseRegions, max);
        var covered := SatMul(allocatedLeaves, c.LeafCount(), max);
        var emptyRegions :=
          if c.mode.Bounded? then c.RegionCount() - uniformRegions - denseRegions
          else if covered > used then covered - used else 0;
        var representationBytes := if overlayMode then overlayPrivateBytes else SatMul(denseRegions, tableBytes, max);
        var pagesFixed := SatAdd(objectPages, PageAccount(slotBytes, pageShift, max), max);
        var pagesDirectory :=
          if c.mode.Bounded? then pagesFixed
          else SatAdd(pagesFixed, SatMul(allocatedLeaves, PageAccount(leafBytes, pageShift, max), max), max);
        var pagesTables := if overlayMode then overlayPrivateBytes else SatMul(denseRegions, PageAccount(tableBytes, pageShift, max), max);
        Report(if overlayMode then OverlayStorage else AdaptiveStorage,
               directoryBytes, representationBytes, if overlayMode then overlayBytes else 0,
               SatAdd(directoryBytes, representationBytes, max), SatAdd(pagesDirectory, pagesTables, max),
               c.RegionCount(), emptyRegions, uniformRegions, denseRegions)
    }

    lemma NotFrozen()
      requires Canonical()
      ensures !overlayMode && !flatMode
    {
    }

    lemma LegalIndex()
      requires Valid()
      ensures c.Legal()
      ensures flatMode ==> Flat()
      ensures overlayMode ==> Frozen()
      ensures !flatMode && !overlayMode ==> Adaptive()
      ensures Adaptive() ==> !flatMode && !overlayMode
    {
    }
  }

  /** The size checks before the flat table: its entry count and its byte size must fit in a word. */
  predicate FlatFits(c: Config) {
    c.RegionCount() <= Shr(c.WordMax(), c.GranuleBits()) && c.GranuleCount() <= Shr(c.WordMax(), c.wordLog)
  }

  lemma EntryIsWord(c: Config, regions: seq<Region>, n: nat)
    requires Shapely(c, regions) && n < c.GranuleCount()
    ensures c.IsWord(Entry(c, regions, n))
  {
    GranuleRegion(c, n);
    InitialIsWord(c, regions[Shr(n, c.GranuleBits())]);
  }

  lemma FlatSame(c: Config, regions: seq<Region>, entries: seq<nat>)
    requires Shapely(c, regions) && |entries| == c.GranuleCount()
    requires forall n: nat :: n < c.GranuleCount() ==> entries[n] == Entry(c, regions, n)
    ensures FlatMap(c, entries) == MapOf(c, regions)
  {
  }

  function DenseFlags(regions: seq<Region>): (flags: seq<bool>)
    ensures |flags| == |regions| && forall r :: 0 <= r < |flags| ==> flags[r] == regions[r].Dense?
  {
    seq(|regions|, r requires 0 <= r < |regions| => regions[r].Dense?)
  }

  /** The overlay holds the entries of every DENSE region below limit. */
  ghost predicate OverlayCopied(c: Config, overlay: seq<nat>, regions: seq<Region>, limit: nat)
    requires |overlay| == c.GranuleCount()
  {
    && Shapely(c, regions) && limit <= |regions|
    && (forall n :: 0 <= n < |overlay| ==> c.IsWord(overlay[n]))
    && forall r: nat :: r < limit && regions[r].Dense? ==>
         forall g: nat :: g < c.PerRegion() ==> OverlayAt(c, overlay, r, g) == regions[r].entries[g]
  }

  lemma OverlayEmpty(c: Config, overlay: seq<nat>, regions: seq<Region>)
    requires |overlay| == c.GranuleCount() && Shapely(c, regions) && forall n :: 0 <= n < |overlay| ==> overlay[n] == 0
    ensures OverlayCopied(c, overlay, regions, 0)
  {
  }

  /** Copying a table over the slots of its region extends the copied part. */
  lemma OverlayNext(c: Config, overlay: seq<nat>, regions: seq<Region>, r: nat)
    requires |overlay| == c.GranuleCount() && OverlayCopied(c, overlay, regions, r) && r < |regions|
    ensures !regions[r].Dense? ==> OverlayCopied(c, overlay, regions, r + 1)
    ensures Shl(r, c.GranuleBits()) + c.PerRegion() <= |overlay|
    ensures regions[r].Dense? ==>
              var start := Shl(r, c.GranuleBits());
              var next := overlay[..start] + regions[r].entries + overlay[start + c.PerRegion()..];
              |next| == |overlay| && OverlayCopied(c, next, regions, r + 1)
  {
    hide Shl, Shr, Low, Pow2;
    var k := c.GranuleBits();
    var start := Shl(r, k);
    ShlMono(r + 1, c.RegionCount(), k);
    ShlAdd(r, 1, k);
    ShlOne(k);
    assert Fits(c, regions[r]);
    if regions[r].Dense? {
      var next := overlay[..start] + regions[r].entries + overlay[start + c.PerRegion()..];
      forall q: nat, g: nat | q < r + 1 && regions[q].Dense? && g < c.PerRegion()
        ensures OverlayAt(c, next, q, g) == regions[q].entries[g]
      {
        if q < r {
          ShlMono(q, r, k);
          assert OverlayAt(c, overlay, q, g) == regions[q].entries[g];
        }
      }
    }
  }

  datatype Storage = AdaptiveStorage | FlatStorage | OverlayStorage

  datatype Report = Report(
    storage: Storage, directoryBytes: nat, representationBytes: nat, reservedBytes: nat, totalBytes: nat,
    pageAccountedBytes: nat, regionCount: nat, emptyRegions: int, uniformRegions: nat, denseRegions: nat)

  function SatAdd(left: nat, right: nat, max: nat): nat {
    if left + right > max then max else left + right
  }

  function SatMul(left: nat, right: nat, max: nat): nat {
    if right != 0 && left > max / right then max else left * right
  }

  function PageAccount(bytes: nat, pageShift: nat, max: nat): nat {
    if bytes == 0 then 0
    else if bytes + Pow2(pageShift) - 1 > max then max
    else OverlayPages.PageFloor(bytes + Pow2(pageShift) - 1, pageShift)
  }

  function TypeOf(region: Region): RegionType {
    match region
    case Empty => TypeEmpty
    case Uniform(_) => TypeUniform
    case Dense(_) => TypeDense
  }

  lemma SlotOf(c: Config, n: nat, hi: nat)
    requires c.Legal() && n <= hi <= c.GranuleCount() && c.IsWord(c.Address(hi)) && c.Address(n) < c.Address(hi)
    ensures n < hi && Shr(c.Address(n) - c.base, c.granuleShift) == n
    ensures c.Address(n + 1) == c.Address(n) + Pow2(c.granuleShift)
  {
    ShlMono(hi, n, c.granuleShift);
    Unsplit(n, 0, c.granuleShift);
    ShlAdd(n, 1, c.granuleShift);
    ShlOne(c.granuleShift);
  }

  lemma FlatFilled(c: Config, before: seq<nat>, after: seq<nat>, lo: nat, hi: nat, handle: nat, ok: bool)
    requires lo < hi <= |before| == |after| && handle != c.Invalid()
    requires ok <==> forall n: nat :: lo <= n < hi ==> before[n] == c.Invalid()
    requires if ok then forall n: nat :: n < |after| ==> after[n] == if lo <= n < hi then handle else before[n] else after == before
    ensures ok <==> Free(FlatMap(c, before), lo, hi)
    ensures FlatMap(c, after) == if ok then FlatMap(c, before) + Filled(lo, hi, handle) else FlatMap(c, before)
  {
    var m := FlatMap(c, before);
    forall n: nat | lo <= n < hi
      ensures n in m <==> before[n] != c.Invalid()
    {
    }
  }

  lemma FlatCleared(c: Config, before: seq<nat>, after: seq<nat>, lo: nat, hi: nat, expected: nat, ok: bool)
    requires lo < hi <= |before| == |after| && expected != c.Invalid()
    requires ok <==> forall n: nat :: lo <= n < hi ==> before[n] == expected
    requires if ok then forall n: nat :: n < |after| ==> after[n] == if lo <= n < hi then c.Invalid() else before[n] else after == before
    ensures ok <==> Holds(FlatMap(c, before), lo, hi, expected)
    ensures FlatMap(c, after) == if ok then FlatMap(c, before) - Span(lo, hi) else FlatMap(c, before)
  {
    var m := FlatMap(c, before);
    forall n: nat | lo <= n < hi
      ensures n in m && m[n] == expected <==> before[n] == expected
    {
    }
  }

  /** The status memx_index_create owes a configuration when every allocation succeeds. */
  function CreateStatus(c: Config): Status {
    if ValidateConfig(c) != Ok then ValidateConfig(c)
    else if c.PerRegion() > Shr(c.WordMax(), c.wordLog) then Unsupported
    else if c.mode.Bounded? && c.RegionCount() > Shr(c.WordMax(), c.wordLog) then OutOfMemory
    else if c.mode.Sparse? && c.RootCount() > Shr(c.WordMax(), c.wordLog) then OutOfMemory
    else Ok
  }

  /** The byte size of a dense table fits in a word once its entry count passed the first check. */
  lemma TableBytesFit(c: Config)
    requires c.wordLog >= 1 && c.PerRegion() <= Shr(c.WordMax(), c.wordLog)
    ensures Shl(c.PerRegion() - 1, c.wordLog) + Pow2(c.wordLog) <= c.WordMax()
  {
    Split(c.WordMax(), c.wordLog);
    ShlMono(c.PerRegion() - 1, Shr(c.WordMax(), c.wordLog), c.wordLog);
  }

  /** memx_index_create: every failure gives back all it allocated. */
  method Create(c: Config, allocator: Allocator) returns (status: Status, index: MemxIndex?)
    requires c.wordLog >= 1 && c.IsWord(c.base) && c.IsWord(c.managedSize)
    modifies allocator`live, allocator`failures
    ensures status == Ok <==> index != null
    ensures index == null ==> allocator.live == old(allocator.live)
    ensures index != null ==>
              && fresh(index) && index.c == c && index.allocator == allocator
              && index.outside == old(allocator.live) && index.outsideMappings == old(allocator.mappings)
              && index.Canonical() && index.Valid() && index.Mapping() == map[]
    ensures allocator.failures == old(allocator.failures) ==> status == CreateStatus(c)
    ensures allocator.failures != old(allocator.failures) ==> status == OutOfMemory
    ensures allocator.failures >= old(allocator.failures)
  {
    hide Shl, Shr, Low, Pow2, And;
    index := null;
    status := ValidateConfig(c);
    if status != Ok { return; }
    var self := allocator.Allocate(c);
    if self == 0 { return OutOfMemory, null; }
    if c.PerRegion() > Shr(c.WordMax(), c.wordLog) {
      allocator.Free(self);
      return Unsupported, null;
    }
    var slots := if c.mode.Bounded? then c.RegionCount() else c.RootCount();
    if slots > Shr(c.WordMax(), c.wordLog) {
      allocator.Free(self);
      return OutOfMemory, null;
    }
    var directory := allocator.Allocate(c);
    if directory == 0 {
      allocator.Free(self);
      return OutOfMemory, null;
    }
    if Shl(c.PerRegion() - 1, c.wordLog) > c.WordMax() - Pow2(c.wordLog) {
      TableBytesFit(c);
      assert false;
    }
    index := new MemxIndex(c, allocator, self, directory, old(allocator.live));
  }
}
