/**
 The inline accessors of the public header: unchecked reads through a view of the index.
 On covered addresses they agree with the checked lookup; the branchless overlay read agrees
 exactly where the region is not EMPTY.
 */
module IndexViews {
  import opened Bits
  import opened IndexSpec
  import opened RegionShapes
  import opened Descriptors
  import opened DirectoryStore
  import opened RangeSteps
  import opened AdaptiveIndex

  /** Two's complement negation of a word. */
  function Negate(w: nat, x: nat): nat
    requires x < Pow2(w)
  {
    if x == 0 then 0 else Pow2(w) - x
  }

  /** Every memory access of the unchecked bounded read is in range. */
  predicate BoundedReadable(c: Config, descriptors: seq<nat>, tables: map<nat, seq<nat>>, address: nat) {
    && c.base <= address
    && var p := Locate(c, address - c.base);
       && p.region < |descriptors| && c.IsWord(descriptors[p.region])
       && (And(descriptors[p.region], 3) == 2 ==>
             var t := DenseDecode(c, descriptors[p.region]); t in tables && p.granule < |tables[t]|)
  }

  predicate OverlayReadable(c: Config, descriptors: seq<nat>, overlay: seq<nat>, address: nat) {
    && c.base <= address
    && Shr(address - c.base, c.regionShift) < |descriptors| && Shr(address - c.base, c.granuleShift) < |overlay|
  }

  /** memx_bounded_lookup_assume_mapped: descriptors and tables are read without any range check. */
  function BoundedLookup(c: Config, descriptors: seq<nat>, tables: map<nat, seq<nat>>, address: nat): nat
    requires BoundedReadable(c, descriptors, tables, address)
  {
    var p := Locate(c, address - c.base);
    var descriptor := descriptors[p.region];
    var tag := And(descriptor, 3);
    if descriptor == 0 then c.Invalid()
    else if tag == 1 then Shr(descriptor, 2)
    else if tag != 2 then c.Invalid()
    else tables[DenseDecode(c, descriptor)][p.granule]
  }

  /** memx_flat_lookup_assume_mapped. */
  function FlatView(c: Config, entries: seq<nat>, address: nat): nat
    requires c.base <= address && Shr(address - c.base, c.granuleShift) < |entries|
  {
    entries[Shr(address - c.base, c.granuleShift)]
  }

  /** memx_overlay_lookup_trusted: both candidates are read, and a mask made from the tag selects one. */
  function TrustedSelect(w: nat, descriptor: nat, dense: nat): nat
    requires w >= 1
  {
    LowSmall(0, 1);
    Pow2Mono(1, w);
    AndMask(Shr(descriptor, 1), 1);
    var denseMask := Negate(w, And(Shr(descriptor, 1), 1));
    var uniform := Shr(descriptor, 2);
    Or(And(dense, denseMask), And(uniform, Not(w, denseMask)))
  }

  function TrustedLookup(c: Config, descriptors: seq<nat>, overlay: seq<nat>, address: nat): nat
    requires OverlayReadable(c, descriptors, overlay, address)
  {
    WordHasTagBits(c);
    TrustedSelect(c.WordBits(), descriptors[Shr(address - c.base, c.regionShift)], overlay[Shr(address - c.base, c.granuleShift)])
  }

  /** The mask is all ones for tag two and zero for a zero word or tag one. */
  lemma TrustedChoice(w: nat, descriptor: nat, dense: nat)
    requires w >= 2 && descriptor < Pow2(w) && dense < Pow2(w)
    ensures Low(descriptor, 2) == 2 ==> TrustedSelect(w, descriptor, dense) == dense
    ensures Low(descriptor, 2) < 2 ==> TrustedSelect(w, descriptor, dense) == Shr(descriptor, 2)
  {
    SmallPowers();
    assert Low(descriptor, 2) == 2 * Low(descriptor / 2, 1) + descriptor % 2;
    assert Shr(descriptor, 1) == Shr(descriptor / 2, 0) == descriptor / 2;
    AndMask(Shr(descriptor, 1), 1);
    Pow2Mono(1, w);
    AndAllOnes(w, dense);
    AndAllOnes(w, Shr(descriptor, 2));
  }

  /** Bounded view: equal to the checked lookup on every covered address. */
  lemma BoundedViewAgrees(index: MemxIndex, address: nat)
    requires index.Valid() && !index.flatMode && !index.overlayMode && index.c.mode.Bounded?
    requires index.c.Legal() && index.c.IsWord(address) && Covered(index.c, address)
    ensures BoundedReadable(index.c, index.bounded, index.tables, address)
    ensures BoundedLookup(index.c, index.bounded, index.tables, address) == index.LookupAddress(address)
  {
    hide Sound, Reachable, Shl, Shr, Low, Pow2, And, MapOf, TopFree, LookupSpec;
    var c := index.c;
    CoveredGranule(c, address);
    GranuleRegion(c, GranuleOf(c, address));
    var p := Locate(c, address - c.base);
    SoundShape(c, index.Memory(), index.regions);
    SoundFits(c, index.Memory(), index.regions, p.region);
    DescriptorType(c, index.Memory(), index.regions, p.region);
    WordHasTagBits(c);
  }

  /** Flat view: equal to the checked lookup on every covered address. */
  lemma FlatViewAgrees(index: MemxIndex, address: nat)
    requires index.Valid() && index.flatMode && index.c.Legal() && index.c.IsWord(address) && Covered(index.c, address)
    ensures index.c.base <= address && Shr(address - index.c.base, index.c.granuleShift) < |index.flatEntries|
    ensures FlatView(index.c, index.flatEntries, address) == index.LookupAddress(address)
  {
    hide Shl, Shr, Low, Pow2, And;
    CoveredGranule(index.c, address);
  }

  /**
   Overlay view: the branchless read equals the checked lookup exactly when the region is not
   EMPTY; for an EMPTY region it returns handle zero, which the checked lookup never confuses
   with an absent mapping.
   */
  lemma TrustedViewAgrees(index: MemxIndex, address: nat)
    requires index.Valid() && index.overlayMode && index.c.Legal() && index.c.IsWord(address) && Covered(index.c, address)
    ensures OverlayReadable(index.c, index.bounded, index.overlayEntries, address)
    ensures TrustedLookup(index.c, index.bounded, index.overlayEntries, address) == index.LookupAddress(address)
        <==> index.TypeAt(address) != Some(TypeEmpty)
    ensures index.TypeAt(address) == Some(TypeEmpty) ==>
              TrustedLookup(index.c, index.bounded, index.overlayEntries, address) == 0
  {
    hide Shl, Shr, Low, Pow2, And, Or, MapOf, OverlayStands, LookupSpec, TrustedSelect;
    var c := index.c;
    CoveredGranule(c, address);
    var n := GranuleOf(c, address);
    GranuleRegion(c, n);
    LocateSplits(c, address - c.base);
    FrozenEntry(c, index.bounded, index.overlayEntries, index.regions, n);
    MapEntry(c, index.regions, n);
    WordHasTagBits(c);
    var d := index.bounded[Shr(address - c.base, c.regionShift)];
    FrozenWord(c, index.bounded, index.overlayEntries, index.regions, Shr(n, c.GranuleBits()));
    TrustedChoice(c.WordBits(), d, index.overlayEntries[n]);
    TagBits(d);
    ShiftOfZero();
    assert c.Invalid() != 0;
  }

  lemma ShiftOfZero()
    ensures Shr(0, 2) == 0
  {
    assert Shr(0, 1) == Shr(0, 0);
  }

  lemma FrozenWord(c: Config, descriptors: seq<nat>, overlay: seq<nat>, regions: seq<Region>, r: nat)
    requires c.Legal() && |descriptors| == |regions| == c.RegionCount() && Shapely(c, regions) && r < |regions|
    requires OverlayStands(c, descriptors, overlay, regions)
    ensures c.IsWord(descriptors[r]) && Low(descriptors[r], 2) <= 2
    ensures regions[r].Dense? <==> Low(descriptors[r], 2) == 2
    ensures |overlay| == c.GranuleCount() && forall n :: 0 <= n < |overlay| ==> c.IsWord(overlay[n])
  {
    hide Shl, Shr, Low, Pow2, And, Or;
    assert Fits(c, regions[r]);
    WordHasTagBits(c);
    SmallPowers();
    TagBits(descriptors[r]);
    InlineBelowInvalid(c);
    LowSmall(0, 2);
    LowSmall(2, 2);
    match regions[r]
    case Uniform(handle) => UniformRoundTrip(c, handle);
    case _ =>
  }
}
