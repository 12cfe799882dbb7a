/**
 The three representations of a region and what each stands for, independent of the words
 and tables that store them. Canonical shapes are determined by the mapping alone.
 */
module RegionShapes {
  import opened Bits
  import opened IndexSpec

  datatype Region = Empty | Uniform(handle: nat) | Dense(entries: seq<nat>)

  predicate Fits(c: Config, region: Region) {
    match region
    case Empty => true
    case Uniform(handle) => handle <= c.InlineMax()
    case Dense(entries) => |entries| == c.PerRegion() && forall i :: 0 <= i < |entries| ==> c.IsWord(entries[i])
  }

  function At(c: Config, region: Region, granule: nat): nat
    requires granule < c.PerRegion() && Fits(c, region)
  {
    match region
    case Empty => c.Invalid()
    case Uniform(handle) => handle
    case Dense(entries) => entries[granule]
  }

  lemma InitialIsWord(c: Config, region: Region)
    requires Fits(c, region)
    ensures forall g: nat :: g < c.PerRegion() ==> c.IsWord(At(c, region, g))
    ensures !region.Dense? ==> forall g: nat :: g < c.PerRegion() ==> At(c, region, g) == At(c, region, 0)
  {
    InlineBelowInvalid(c);
  }

  ghost predicate Shapely(c: Config, regions: seq<Region>) {
    |regions| == c.RegionCount() && forall r :: 0 <= r < |regions| ==> Fits(c, regions[r])
  }

  lemma GranuleRegion(c: Config, n: nat)
    requires n < c.GranuleCount()
    ensures Shr(n, c.GranuleBits()) < c.RegionCount()
  {
    Split(n, c.GranuleBits());
    ShlMono(c.RegionCount(), Shr(n, c.GranuleBits()), c.GranuleBits());
  }

  ghost function Entry(c: Config, regions: seq<Region>, n: nat): nat
    requires Shapely(c, regions) && n < c.GranuleCount()
  {
    GranuleRegion(c, n);
    At(c, regions[Shr(n, c.GranuleBits())], Low(n, c.GranuleBits()))
  }

  ghost function MapOf(c: Config, regions: seq<Region>): Mapping
    requires Shapely(c, regions)
  {
    map n: nat | n < c.GranuleCount() && Entry(c, regions, n) != c.Invalid() :: Entry(c, regions, n)
  }

  lemma InlineBelowInvalid(c: Config)
    ensures c.InlineMax() < c.Invalid()
  {
    Pow2Mono(2, c.WordBits()) by { Pow2Mono(3, c.wordLog + 3); assert Pow2(3) == 8; }
    assert Pow2(2) == 4;
    Split(c.WordMax(), 2);
    var q := Shr(c.WordMax(), 2);
    assert Shl(q, 2) == 4 * q by { assert Shl(q, 1) == 2 * Shl(q, 0); }
  }

  // ----- canonical form

  predicate Collapsible(c: Config, entries: seq<nat>)
    requires |entries| > 0
  {
    && (forall i :: 0 <= i < |entries| ==> entries[i] == entries[0])
    && (entries[0] == c.Invalid() || entries[0] <= c.InlineMax())
  }

  /** memx_region_reclassify on values. */
  function Reclassified(c: Config, region: Region): (r: Region)
    requires Fits(c, region)
    ensures Fits(c, r)
  {
    match region
    case Dense(entries) =>
      if Collapsible(c, entries) then
        if entries[0] == c.Invalid() then Empty else Uniform(entries[0])
      else region
    case _ => region
  }

  predicate CanonicalRegion(c: Config, region: Region)
    requires Fits(c, region)
  {
    region.Dense? ==> !Collapsible(c, region.entries)
  }

  lemma ReclassifyMeaning(c: Config, region: Region, granule: nat)
    requires Fits(c, region) && granule < c.PerRegion()
    ensures At(c, Reclassified(c, region), granule) == At(c, region, granule)
    ensures CanonicalRegion(c, Reclassified(c, region))
  {
  }

  ghost predicate CanonicalShape(c: Config, regions: seq<Region>, leaves: set<nat>) {
    && Shapely(c, regions)
    && (forall r :: 0 <= r < |regions| ==> CanonicalRegion(c, regions[r]))
    && LeavesCover(c, regions, leaves)
    && (forall leaf :: leaf in leaves ==> LeafUsed(c, regions, leaf))
  }

  ghost predicate LeavesCover(c: Config, regions: seq<Region>, leaves: set<nat>) {
    c.mode.Sparse? ==> forall r :: 0 <= r < |regions| && regions[r] != Empty ==> Shr(r, c.LeafBits()) in leaves
  }

  ghost predicate LeafUsed(c: Config, regions: seq<Region>, leaf: nat) {
    exists r :: 0 <= r < |regions| && regions[r] != Empty && Shr(r, c.LeafBits()) == leaf
  }

  lemma RegionDetermined(c: Config, a: Region, b: Region)
    requires Fits(c, a) && Fits(c, b) && CanonicalRegion(c, a) && CanonicalRegion(c, b)
    requires forall g: nat :: g < c.PerRegion() ==> At(c, a, g) == At(c, b, g)
    ensures a == b
  {
    InlineBelowInvalid(c);
    assert At(c, a, 0) == At(c, b, 0);
    if a.Dense? && b.Dense? {
      forall i | 0 <= i < |a.entries|
        ensures a.entries[i] == b.entries[i]
      {
        assert At(c, a, i) == At(c, b, i);
      }
    } else if a.Dense? {
      NotConstant(c, a, b);
    } else if b.Dense? {
      NotConstant(c, b, a);
    }
  }

  /** A canonical DENSE region differs from every EMPTY or UNIFORM one. */
  lemma NotConstant(c: Config, dense: Region, other: Region)
    requires Fits(c, dense) && Fits(c, other) && dense.Dense? && !other.Dense? && CanonicalRegion(c, dense)
    ensures exists g: nat :: g < c.PerRegion() && At(c, dense, g) != At(c, other, g)
  {
    assert At(c, dense, 0) == dense.entries[0];
    if i :| 0 <= i < |dense.entries| && dense.entries[i] != dense.entries[0] {
      assert At(c, dense, i) != At(c, dense, 0) && At(c, other, i) == At(c, other, 0);
    }
  }

  lemma MapDeterminesRegion(c: Config, a: seq<Region>, b: seq<Region>, r: nat)
    requires Shapely(c, a) && Shapely(c, b) && r < c.RegionCount()
    requires CanonicalRegion(c, a[r]) && CanonicalRegion(c, b[r])
    requires MapOf(c, a) == MapOf(c, b)
    ensures a[r] == b[r]
  {
    hide Shl, Shr, Low, Pow2;
    forall g: nat | g < c.PerRegion()
      ensures At(c, a[r], g) == At(c, b[r], g)
    {
      var n := Shl(r, c.GranuleBits()) + g;
      Unsplit(r, g, c.GranuleBits());
      ShlMono(r, c.RegionCount(), c.GranuleBits());
      assert n in MapOf(c, a) <==> Entry(c, a, n) != c.Invalid();
      assert n in MapOf(c, b) <==> Entry(c, b, n) != c.Invalid();
    }
    RegionDetermined(c, a[r], b[r]);
  }

  lemma LeavesDetermined(c: Config, regions: seq<Region>, a: set<nat>, b: set<nat>)
    requires c.mode.Sparse? && CanonicalShape(c, regions, a) && CanonicalShape(c, regions, b)
    ensures a <= b
  {
    forall leaf | leaf in a
      ensures leaf in b
    {
      assert LeafUsed(c, regions, leaf);
    }
  }

  /** Canonical shapes with the same map are the same: the history that led there is invisible. */
  lemma CanonicalUnique(c: Config, a: seq<Region>, leavesA: set<nat>, b: seq<Region>, leavesB: set<nat>)
    requires CanonicalShape(c, a, leavesA) && CanonicalShape(c, b, leavesB)
    requires MapOf(c, a) == MapOf(c, b)
    ensures a == b
    ensures c.mode.Sparse? ==> leavesA == leavesB
  {
    forall r | 0 <= r < |a|
      ensures a[r] == b[r]
    {
      MapDeterminesRegion(c, a, b, r);
    }
    assert a == b;
    if c.mode.Sparse? {
      LeavesDetermined(c, a, leavesA, leavesB);
      LeavesDetermined(c, a, leavesB, leavesA);
    }
  }

  lemma FreshShape(c: Config)
    ensures var regions := seq(c.RegionCount(), _ => Empty);
            Shapely(c, regions) && CanonicalShape(c, regions, {}) && MapOf(c, regions) == map[]
  {
    var regions := seq(c.RegionCount(), _ => Empty);
    forall n: nat | n < c.GranuleCount()
      ensures Entry(c, regions, n) == c.Invalid()
    {
      GranuleRegion(c, n);
    }
  }

  // ----- counters

  function DenseCount(regions: seq<Region>): nat {
    if regions == [] then 0 else DenseCount(regions[1..]) + (if regions[0].Dense? then 1 else 0)
  }

  function UniformCount(regions: seq<Region>): nat {
    if regions == [] then 0 else UniformCount(regions[1..]) + (if regions[0].Uniform? then 1 else 0)
  }

  lemma {:induction false} CountUpdate(regions: seq<Region>, r: nat, region: Region)
    requires r < |regions|
    ensures DenseCount(regions[r := region]) + (if regions[r].Dense? then 1 else 0)
         == DenseCount(regions) + (if region.Dense? then 1 else 0)
    ensures UniformCount(regions[r := region]) + (if regions[r].Uniform? then 1 else 0)
         == UniformCount(regions) + (if region.Uniform? then 1 else 0)
  {
    if r == 0 {
      assert regions[0 := region][1..] == regions[1..];
    } else {
      assert regions[r := region][1..] == regions[1..][r - 1 := region];
      CountUpdate(regions[1..], r - 1, region);
    }
  }

  lemma {:induction false} CountBounds(regions: seq<Region>)
    ensures DenseCount(regions) + UniformCount(regions) <= |regions|
    ensures DenseCount(regions) == |regions| <==> forall r :: 0 <= r < |regions| ==> regions[r].Dense?
  {
    if regions != [] {
      CountBounds(regions[1..]);
      assert forall r :: 1 <= r < |regions| ==> regions[r] == regions[1..][r - 1];
      assert forall r :: 0 <= r < |regions| - 1 ==> regions[1..][r] == regions[r + 1];
    }
  }

  function EmptyCount(regions: seq<Region>): nat {
    if regions == [] then 0 else EmptyCount(regions[1..]) + (if regions[0].Empty? then 1 else 0)
  }

  lemma {:induction false} CountsPartition(regions: seq<Region>)
    ensures EmptyCount(regions) + UniformCount(regions) + DenseCount(regions) == |regions|
  {
    if regions != [] { CountsPartition(regions[1..]); }
  }

  lemma {:induction false} CountEmpty(n: nat)
    ensures DenseCount(seq(n, _ => Empty)) == 0 == UniformCount(seq(n, _ => Empty))
  {
    if n > 0 {
      assert seq(n, _ => Empty)[1..] == seq(n - 1, _ => Empty);
      CountEmpty(n - 1);
    }
  }

  // ----- one part of an insertion or a removal

  function Fill(entries: seq<nat>, granule: nat, count: nat, value: nat): (r: seq<nat>)
    requires granule + count <= |entries|
    ensures |r| == |entries|
    ensures forall i :: 0 <= i < |r| ==> r[i] == if granule <= i < granule + count then value else entries[i]
  {
    seq(|entries|, i requires 0 <= i < |entries| => if granule <= i < granule + count then value else entries[i])
  }

  function Table(c: Config, value: nat): (r: seq<nat>)
    ensures |r| == c.PerRegion() && forall i :: 0 <= i < |r| ==> r[i] == value
  {
    seq(c.PerRegion(), _ => value)
  }

  /** What a part of an insertion leaves in a prepared region. */
  function Inserted(c: Config, region: Region, granule: nat, count: nat, handle: nat): (r: Region)
    requires Fits(c, region) && !region.Uniform? && granule + count <= c.PerRegion() && c.IsWord(handle)
    requires region.Empty? ==> handle <= c.InlineMax()
    ensures Fits(c, r)
  {
    if region.Empty? then Uniform(handle) else Reclassified(c, Dense(Fill(region.entries, granule, count, handle)))
  }

  /** What a part of a removal leaves: only whole regions are still UNIFORM by then. */
  function Removed(c: Config, region: Region, granule: nat, count: nat): (r: Region)
    requires Fits(c, region) && !region.Empty? && granule + count <= c.PerRegion()
    ensures Fits(c, r)
  {
    if region.Uniform? then Empty else Reclassified(c, Dense(Fill(region.entries, granule, count, c.Invalid())))
  }

  /** A region rewritten over granules [n, next) changes exactly those entries of the index. */
  lemma PartRewritten(c: Config, regions: seq<Region>, n: nat, next: nat, region: Region, value: nat)
    requires Shapely(c, regions) && Fits(c, region) && n < next <= c.GranuleCount()
    requires next <= Shl(Shr(n, c.GranuleBits()) + 1, c.GranuleBits())
    requires Shr(n, c.GranuleBits()) < c.RegionCount()
    requires var r, g := Shr(n, c.GranuleBits()), Low(n, c.GranuleBits());
             forall i: nat :: i < c.PerRegion() ==>
               At(c, region, i) == if g <= i < g + (next - n) then value else At(c, regions[r], i)
    ensures var regions' := regions[Shr(n, c.GranuleBits()) := region];
            && Shapely(c, regions')
            && forall m: nat :: m < c.GranuleCount() ==>
                 Entry(c, regions', m) == if n <= m < next then value else Entry(c, regions, m)
  {
    hide Shl, Shr, Low, Pow2;
    var k := c.GranuleBits();
    var r := Shr(n, k);
    var regions' := regions[r := region];
    forall m: nat | m < c.GranuleCount()
      ensures Entry(c, regions', m) == if n <= m < next then value else Entry(c, regions, m)
    {
      GranuleRegion(c, m);
      RegionSpan(n, m, k);
      RegionSpan(n, n, k);
    }
  }

  /** A representation change that keeps every entry keeps the map. */
  lemma SameMeaning(c: Config, regions: seq<Region>, r: nat, region: Region)
    requires Shapely(c, regions) && r < |regions| && Fits(c, region)
    requires forall g: nat :: g < c.PerRegion() ==> At(c, region, g) == At(c, regions[r], g)
    ensures Shapely(c, regions[r := region])
    ensures forall n: nat :: n < c.GranuleCount() ==> Entry(c, regions[r := region], n) == Entry(c, regions, n)
    ensures MapOf(c, regions[r := region]) == MapOf(c, regions)
  {
    forall n: nat | n < c.GranuleCount()
      ensures Entry(c, regions[r := region], n) == Entry(c, regions, n)
    {
      GranuleRegion(c, n);
    }
  }
}
