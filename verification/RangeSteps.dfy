/**
 The loops of insert and remove walk a run [lo, hi) of granules one region part at a time.
 These are the facts about one step and about the whole walk, on region values.
 */
module RangeSteps {
  import opened Bits
  import opened IndexSpec
  import opened RegionShapes

  ghost predicate RunOf(c: Config, lo: nat, hi: nat) {
    c.Legal() && lo < hi <= c.GranuleCount() && c.IsWord(c.Address(hi))
  }

  /** Regions the run touches. */
  ghost predicate Touched(c: Config, lo: nat, hi: nat, r: nat)
    requires hi > 0
  {
    Shr(lo, c.GranuleBits()) <= r <= Shr(hi - 1, c.GranuleBits())
  }

  /** The walk stands at granule n: at the start of the run, at a region boundary, or at the end. */
  ghost predicate AtPart(c: Config, lo: nat, n: nat, hi: nat) {
    lo <= n <= hi && (n == lo || n == hi || Low(n, c.GranuleBits()) == 0)
  }

  /** The region the walk handles next; every touched region before it is done. */
  ghost function Frontier(c: Config, n: nat, hi: nat): nat
    requires hi > 0
  {
    if n < hi then Shr(n, c.GranuleBits()) else Shr(hi - 1, c.GranuleBits()) + 1
  }

  /** The whole of region r lies in the run. */
  ghost predicate Whole(c: Config, lo: nat, hi: nat, r: nat) {
    lo <= Shl(r, c.GranuleBits()) && Shl(r + 1, c.GranuleBits()) <= hi
  }

  lemma StepForward(c: Config, lo: nat, n: nat, hi: nat)
    requires RunOf(c, lo, hi) && AtPart(c, lo, n, hi) && n < hi
    ensures var next, r := NextPart(c, n, hi), Shr(n, c.GranuleBits());
            && AtPart(c, lo, next, hi) && n < next
            && Frontier(c, n, hi) == r && Frontier(c, next, hi) == r + 1
            && Touched(c, lo, hi, r) && Shr(lo, c.GranuleBits()) <= r < c.RegionCount()
            && Low(n, c.GranuleBits()) + (next - n) <= c.PerRegion()
            && next <= Shl(r + 1, c.GranuleBits())
            && (Whole(c, lo, hi, r) <==> next - n == c.PerRegion())
            && (Whole(c, lo, hi, r) <==> Low(n, c.GranuleBits()) == 0 && Shl(r + 1, c.GranuleBits()) <= hi)
  {
    hide Shl, Shr, Low, Pow2, NextPart;
    PartSize(c, lo, n, hi);
    PartFrontier(c, lo, n, hi);
    GranuleRegion(c, n);
  }

  lemma PartSize(c: Config, lo: nat, n: nat, hi: nat)
    requires AtPart(c, lo, n, hi) && n < hi
    ensures var next, r := NextPart(c, n, hi), Shr(n, c.GranuleBits());
            && n < next <= hi
            && Low(n, c.GranuleBits()) + (next - n) <= c.PerRegion()
            && next <= Shl(r + 1, c.GranuleBits())
            && (Whole(c, lo, hi, r) <==> next - n == c.PerRegion())
            && (Whole(c, lo, hi, r) <==> Low(n, c.GranuleBits()) == 0 && Shl(r + 1, c.GranuleBits()) <= hi)
  {
    hide Shl, Shr, Low, Pow2;
    RegionSpan(n, n, c.GranuleBits());
    if Shl(Shr(n, c.GranuleBits()), c.GranuleBits()) >= lo && n == lo {
      assert Low(n, c.GranuleBits()) == 0;
    }
  }

  lemma PartFrontier(c: Config, lo: nat, n: nat, hi: nat)
    requires lo <= n < hi
    ensures var next, r := NextPart(c, n, hi), Shr(n, c.GranuleBits());
            && AtPart(c, lo, next, hi)
            && Frontier(c, next, hi) == r + 1
            && Touched(c, lo, hi, r)
  {
    hide Shl, Shr, Low, Pow2;
    var k := c.GranuleBits();
    var r := Shr(n, k);
    RegionSpan(n, n, k);
    RegionSpan(n, hi - 1, k);
    SplitOrder(hi - 1, n, k);
    SplitOrder(n, lo, k);
    Unsplit(r + 1, 0, k);
  }

  /** A touched region holds a granule of the run. */
  lemma TouchedGranule(c: Config, lo: nat, hi: nat, r: nat) returns (n: nat)
    requires RunOf(c, lo, hi) && Touched(c, lo, hi, r)
    ensures lo <= n < hi && Shr(n, c.GranuleBits()) == r && r < c.RegionCount()
  {
    hide Shl, Shr, Low, Pow2;
    var k := c.GranuleBits();
    GranuleRegion(c, hi - 1);
    if r == Shr(lo, k) {
      n := lo;
    } else {
      n := Shl(r, k);
      Unsplit(r, 0, k);
      SplitOrder(lo, n, k);
      SplitOrder(hi - 1, n, k);
    }
  }

  ghost predicate RunHolds(c: Config, regions: seq<Region>, lo: nat, hi: nat, value: nat)
    requires Shapely(c, regions) && hi <= c.GranuleCount()
  {
    forall n: nat :: lo <= n < hi ==> Entry(c, regions, n) == value
  }

  /** In a run of free granules no touched region is UNIFORM, in a run of mapped ones none is EMPTY. */
  lemma RunShapes(c: Config, regions: seq<Region>, lo: nat, hi: nat, value: nat, r: nat)
    requires RunOf(c, lo, hi) && Shapely(c, regions) && RunHolds(c, regions, lo, hi, value) && Touched(c, lo, hi, r)
    ensures r < c.RegionCount()
    ensures value == c.Invalid() ==> !regions[r].Uniform?
    ensures value != c.Invalid() ==> !regions[r].Empty?
  {
    hide Shl, Shr, Low, Pow2;
    var n := TouchedGranule(c, lo, hi, r);
    assert Entry(c, regions, n) == value;
    InlineBelowInvalid(c);
    assert Fits(c, regions[r]);
  }

  /** after differs from before in granules [lo, hi) only, where it holds value. */
  ghost predicate Rewrites(c: Config, before: seq<Region>, after: seq<Region>, lo: nat, hi: nat, value: nat) {
    && Shapely(c, before) && Shapely(c, after)
    && forall m: nat :: m < c.GranuleCount() ==> Entry(c, after, m) == if lo <= m < hi then value else Entry(c, before, m)
  }

  lemma RewritesTwice(c: Config, a: seq<Region>, b: seq<Region>, d: seq<Region>, lo: nat, n: nat, hi: nat, value: nat)
    requires lo <= n <= hi && Rewrites(c, a, b, lo, n, value) && Rewrites(c, b, d, n, hi, value)
    ensures Rewrites(c, a, d, lo, hi, value)
  {
    forall m: nat | m < c.GranuleCount()
      ensures Entry(c, d, m) == if lo <= m < hi then value else Entry(c, a, m)
    {
      assert Entry(c, b, m) == if lo <= m < n then value else Entry(c, a, m);
    }
  }

  // ----- insertion

  /** A region the mutation loop of an insertion can finish without allocating. */
  ghost predicate InsertReady(c: Config, region: Region, lo: nat, hi: nat, handle: nat, r: nat) {
    region.Dense? || (region.Empty? && Whole(c, lo, hi, r) && handle <= c.InlineMax())
  }

  /** Preparation keeps every entry, and every region outside the run. */
  ghost predicate Prepared(c: Config, before: seq<Region>, after: seq<Region>, lo: nat, hi: nat) {
    && hi > 0 && Shapely(c, before) && Shapely(c, after)
    && (forall n: nat :: n < c.GranuleCount() ==> Entry(c, after, n) == Entry(c, before, n))
    && (forall r: nat :: r < |after| && !Touched(c, lo, hi, r) ==> after[r] == before[r])
  }

  ghost predicate ReadyBelow(c: Config, regions: seq<Region>, lo: nat, hi: nat, handle: nat, frontier: nat) {
    forall r: nat :: r < |regions| && Shr(lo, c.GranuleBits()) <= r < frontier ==> InsertReady(c, regions[r], lo, hi, handle, r)
  }

  ghost predicate AllInsertReady(c: Config, regions: seq<Region>, lo: nat, hi: nat, handle: nat)
    requires hi > 0
  {
    ReadyBelow(c, regions, lo, hi, handle, Frontier(c, hi, hi))
  }

  /** Root slots of the regions walked so far. */
  ghost function Roots(c: Config, lo: nat, frontier: nat): set<nat> {
    set r: nat | Shr(lo, c.GranuleBits()) <= r < frontier :: Shr(r, c.LeafBits())
  }

  lemma RootsGrow(c: Config, lo: nat, r: nat)
    requires Shr(lo, c.GranuleBits()) <= r
    ensures Roots(c, lo, r + 1) == Roots(c, lo, r) + {Shr(r, c.LeafBits())}
  {
  }

  lemma RootOfTouched(c: Config, lo: nat, hi: nat, r: nat)
    requires hi > 0 && Shr(lo, c.GranuleBits()) <= r < Frontier(c, hi, hi)
    ensures Shr(r, c.LeafBits()) in Roots(c, lo, Frontier(c, hi, hi))
  {
  }

  lemma PreparedStart(c: Config, regions: seq<Region>, lo: nat, hi: nat)
    requires Shapely(c, regions) && hi > 0
    ensures Prepared(c, regions, regions, lo, hi)
  {
  }

  lemma WalkStart(c: Config, regions: seq<Region>, lo: nat, hi: nat, handle: nat)
    requires RunOf(c, lo, hi)
    ensures AtPart(c, lo, lo, hi) && ReadyBelow(c, regions, lo, hi, handle, Frontier(c, lo, hi))
    ensures Roots(c, lo, Frontier(c, lo, hi)) == {}
  {
  }

  /** One more region prepared: unchanged, or given a table with the same entries. */
  lemma PreparedStep(c: Config, before: seq<Region>, mid: seq<Region>, after: seq<Region>, lo: nat, hi: nat, r: nat)
    requires RunOf(c, lo, hi) && Prepared(c, before, mid, lo, hi) && Touched(c, lo, hi, r) && r < c.RegionCount()
    requires |mid| == c.RegionCount()
    requires after == mid || (Fits(c, mid[r]) && !mid[r].Dense? && after == mid[r := Dense(Table(c, At(c, mid[r], 0)))])
    ensures Prepared(c, before, after, lo, hi)
    ensures forall q: nat :: q < |after| && q != r ==> after[q] == mid[q]
  {
    hide Shl, Shr, Low, Pow2, Touched;
    if after != mid {
      InitialIsWord(c, mid[r]);
      SameMeaning(c, mid, r, Dense(Table(c, At(c, mid[r], 0))));
    }
  }

  lemma PreparedHolds(c: Config, before: seq<Region>, after: seq<Region>, lo: nat, hi: nat, value: nat)
    requires RunOf(c, lo, hi) && Prepared(c, before, after, lo, hi) && RunHolds(c, before, lo, hi, value)
    ensures RunHolds(c, after, lo, hi, value)
  {
  }

  lemma InsertPart(c: Config, regions: seq<Region>, lo: nat, n: nat, hi: nat, handle: nat)
    requires RunOf(c, lo, hi) && AtPart(c, lo, n, hi) && n < hi && Shapely(c, regions)
    requires c.IsWord(handle) && handle != c.Invalid()
    requires Shr(n, c.GranuleBits()) < c.RegionCount()
    requires InsertReady(c, regions[Shr(n, c.GranuleBits())], lo, hi, handle, Shr(n, c.GranuleBits()))
    ensures var next, r, g := NextPart(c, n, hi), Shr(n, c.GranuleBits()), Low(n, c.GranuleBits());
            && g + (next - n) <= c.PerRegion()
            && Fits(c, regions[r])
            && var after := Inserted(c, regions[r], g, next - n, handle);
               && Fits(c, after) && CanonicalRegion(c, after) && after != Empty
               && Rewrites(c, regions, regions[r := after], n, next, handle)
  {
    hide Shl, Shr, Low, Pow2;
    var next, r, g := NextPart(c, n, hi), Shr(n, c.GranuleBits()), Low(n, c.GranuleBits());
    StepForward(c, lo, n, hi);
    assert Fits(c, regions[r]);
    var after := Inserted(c, regions[r], g, next - n, handle);
    if regions[r].Dense? {
      var filled := Dense(Fill(regions[r].entries, g, next - n, handle));
      forall i: nat | i < c.PerRegion()
        ensures At(c, after, i) == if g <= i < g + (next - n) then handle else At(c, regions[r], i)
      {
        ReclassifyMeaning(c, filled, i);
      }
      ReclassifyMeaning(c, filled, g);
      assert At(c, after, g) == handle;
    }
    PartRewritten(c, regions, n, next, after, handle);
  }

  /** The mutation loop of an insertion has reached granule n. */
  ghost predicate InsertApplied(c: Config, before: seq<Region>, after: seq<Region>, lo: nat, n: nat, hi: nat, handle: nat) {
    && hi > 0 && Rewrites(c, before, after, lo, n, handle)
    && (forall r: nat :: r < |after| && !(Shr(lo, c.GranuleBits()) <= r < Frontier(c, n, hi)) ==> after[r] == before[r])
    && (forall r: nat :: r < |after| && Shr(lo, c.GranuleBits()) <= r < Frontier(c, n, hi) ==>
          CanonicalRegion(c, after[r]) && after[r] != Empty)
  }

  lemma AppliedStart(c: Config, regions: seq<Region>, lo: nat, hi: nat, handle: nat)
    requires RunOf(c, lo, hi) && Shapely(c, regions)
    ensures AtPart(c, lo, lo, hi) && InsertApplied(c, regions, regions, lo, lo, hi, handle)
  {
  }

  /** The next region is still as preparation left it. */
  lemma AppliedReady(c: Config, before: seq<Region>, mid: seq<Region>, lo: nat, n: nat, hi: nat, handle: nat)
    requires RunOf(c, lo, hi) && AtPart(c, lo, n, hi) && n < hi && AllInsertReady(c, before, lo, hi, handle)
    requires InsertApplied(c, before, mid, lo, n, hi, handle)
    ensures Shr(n, c.GranuleBits()) < |mid| == c.RegionCount()
    ensures InsertReady(c, mid[Shr(n, c.GranuleBits())], lo, hi, handle, Shr(n, c.GranuleBits()))
    ensures Shr(lo, c.GranuleBits()) <= Shr(n, c.GranuleBits()) < Frontier(c, hi, hi)
  {
    hide InsertReady, Whole, Shr, Low, Shl, Pow2;
    StepForward(c, lo, n, hi);
  }

  lemma AppliedStep(c: Config, before: seq<Region>, mid: seq<Region>, lo: nat, n: nat, hi: nat, handle: nat)
    requires RunOf(c, lo, hi) && AtPart(c, lo, n, hi) && n < hi && c.IsWord(handle) && handle != c.Invalid()
    requires AllInsertReady(c, before, lo, hi, handle) && InsertApplied(c, before, mid, lo, n, hi, handle)
    ensures var next, r, g := NextPart(c, n, hi), Shr(n, c.GranuleBits()), Low(n, c.GranuleBits());
            && n < next && r < |mid| && Fits(c, mid[r]) && g + (next - n) <= c.PerRegion()
            && InsertReady(c, mid[r], lo, hi, handle, r)
            && InsertApplied(c, before, mid[r := Inserted(c, mid[r], g, next - n, handle)], lo, next, hi, handle)
            && AtPart(c, lo, next, hi)
  {
    hide Shl, Shr, Low, Pow2, Whole, NextPart;
    AppliedReady(c, before, mid, lo, n, hi, handle);
    StepForward(c, lo, n, hi);
    InsertPart(c, mid, lo, n, hi, handle);
    var next, r, g := NextPart(c, n, hi), Shr(n, c.GranuleBits()), Low(n, c.GranuleBits());
    RewritesTwice(c, before, mid, mid[r := Inserted(c, mid[r], g, next - n, handle)], lo, n, next, handle);
  }

  /** A successful insertion without a failed allocation keeps the canonical form. */
  lemma InsertCanonical(c: Config, before: seq<Region>, prepared: seq<Region>, after: seq<Region>, lo: nat, hi: nat, handle: nat,
                        leaves: set<nat>)
    requires RunOf(c, lo, hi) && CanonicalShape(c, before, leaves)
    requires Prepared(c, before, prepared, lo, hi) && InsertApplied(c, prepared, after, lo, hi, hi, handle)
    ensures CanonicalShape(c, after, if c.mode.Sparse? then leaves + Roots(c, lo, Frontier(c, hi, hi)) else leaves)
  {
    hide Shl, Shr, Low, Pow2;
    forall r: nat | r < |after|
      ensures CanonicalRegion(c, after[r])
      ensures before[r] != Empty ==> after[r] != Empty
    {
      if !Touched(c, lo, hi, r) { assert after[r] == before[r]; }
    }
    forall leaf | leaf in leaves
      ensures LeafUsed(c, after, leaf)
    {
      assert LeafUsed(c, before, leaf);
    }
    forall leaf | leaf in Roots(c, lo, Frontier(c, hi, hi))
      ensures LeafUsed(c, after, leaf)
    {
      var r: nat :| Shr(lo, c.GranuleBits()) <= r < Frontier(c, hi, hi) && Shr(r, c.LeafBits()) == leaf;
      GranuleRegion(c, hi - 1);
      assert after[r] != Empty;
    }
  }

  // ----- removal

  /** A region the mutation loop of a removal can finish without allocating. */
  ghost predicate RemoveReady(c: Config, region: Region, lo: nat, hi: nat, r: nat) {
    region.Dense? || (region.Uniform? && Whole(c, lo, hi, r))
  }

  lemma RemovePart(c: Config, regions: seq<Region>, lo: nat, n: nat, hi: nat)
    requires RunOf(c, lo, hi) && AtPart(c, lo, n, hi) && n < hi && Shapely(c, regions)
    requires Shr(n, c.GranuleBits()) < c.RegionCount()
    requires RemoveReady(c, regions[Shr(n, c.GranuleBits())], lo, hi, Shr(n, c.GranuleBits()))
    ensures var next, r, g := NextPart(c, n, hi), Shr(n, c.GranuleBits()), Low(n, c.GranuleBits());
            && g + (next - n) <= c.PerRegion()
            && Fits(c, regions[r])
            && var after := Removed(c, regions[r], g, next - n);
               && Fits(c, after) && CanonicalRegion(c, after)
               && Rewrites(c, regions, regions[r := after], n, next, c.Invalid())
  {
    hide Shl, Shr, Low, Pow2;
    var next, r, g := NextPart(c, n, hi), Shr(n, c.GranuleBits()), Low(n, c.GranuleBits());
    StepForward(c, lo, n, hi);
    assert Fits(c, regions[r]);
    var after := Removed(c, regions[r], g, next - n);
    if regions[r].Dense? {
      var filled := Dense(Fill(regions[r].entries, g, next - n, c.Invalid()));
      forall i: nat | i < c.PerRegion()
        ensures At(c, after, i) == if g <= i < g + (next - n) then c.Invalid() else At(c, regions[r], i)
      {
        ReclassifyMeaning(c, filled, i);
      }
      ReclassifyMeaning(c, filled, g);
    }
    PartRewritten(c, regions, n, next, after, c.Invalid());
  }

  ghost predicate AllRemoveReady(c: Config, regions: seq<Region>, lo: nat, hi: nat, frontier: nat) {
    forall r: nat :: r < |regions| && Shr(lo, c.GranuleBits()) <= r < frontier ==> RemoveReady(c, regions[r], lo, hi, r)
  }

  /** The mutation loop of a removal has reached granule n. */
  ghost predicate RemoveApplied(c: Config, before: seq<Region>, after: seq<Region>, lo: nat, n: nat, hi: nat) {
    && hi > 0 && Rewrites(c, before, after, lo, n, c.Invalid())
    && (forall r: nat :: r < |after| && !(Shr(lo, c.GranuleBits()) <= r < Frontier(c, n, hi)) ==> after[r] == before[r])
    && (forall r: nat :: r < |after| && Shr(lo, c.GranuleBits()) <= r < Frontier(c, n, hi) ==> CanonicalRegion(c, after[r]))
  }

  lemma RemoveStart(c: Config, regions: seq<Region>, lo: nat, hi: nat)
    requires RunOf(c, lo, hi) && Shapely(c, regions)
    ensures AtPart(c, lo, lo, hi) && RemoveApplied(c, regions, regions, lo, lo, hi)
    ensures AllRemoveReady(c, regions, lo, hi, Frontier(c, lo, hi))
  {
  }

  lemma RemoveNext(c: Config, before: seq<Region>, mid: seq<Region>, lo: nat, n: nat, hi: nat)
    requires RunOf(c, lo, hi) && AtPart(c, lo, n, hi) && n < hi && RemoveApplied(c, before, mid, lo, n, hi)
    requires AllRemoveReady(c, before, lo, hi, Frontier(c, hi, hi))
    ensures Shr(n, c.GranuleBits()) < |mid| == c.RegionCount()
    ensures RemoveReady(c, mid[Shr(n, c.GranuleBits())], lo, hi, Shr(n, c.GranuleBits()))
  {
    hide RemoveReady, Whole, Shr, Low, Shl, Pow2;
    StepForward(c, lo, n, hi);
  }

  lemma RemoveStep(c: Config, before: seq<Region>, mid: seq<Region>, lo: nat, n: nat, hi: nat)
    requires RunOf(c, lo, hi) && AtPart(c, lo, n, hi) && n < hi && RemoveApplied(c, before, mid, lo, n, hi)
    requires AllRemoveReady(c, before, lo, hi, Frontier(c, hi, hi))
    ensures var next, r, g := NextPart(c, n, hi), Shr(n, c.GranuleBits()), Low(n, c.GranuleBits());
            && n < next && r < |mid| && Fits(c, mid[r]) && g + (next - n) <= c.PerRegion()
            && RemoveReady(c, mid[r], lo, hi, r)
            && RemoveApplied(c, before, mid[r := Removed(c, mid[r], g, next - n)], lo, next, hi)
            && AtPart(c, lo, next, hi)
  {
    hide Shl, Shr, Low, Pow2, Whole, NextPart;
    RemoveNext(c, before, mid, lo, n, hi);
    StepForward(c, lo, n, hi);
    RemovePart(c, mid, lo, n, hi);
    var next, r, g := NextPart(c, n, hi), Shr(n, c.GranuleBits()), Low(n, c.GranuleBits());
    RewritesTwice(c, before, mid, mid[r := Removed(c, mid[r], g, next - n)], lo, n, next, c.Invalid());
  }

  ghost predicate AllUsed(c: Config, regions: seq<Region>, leaves: set<nat>) {
    forall leaf :: leaf in leaves ==> LeafUsed(c, regions, leaf)
  }

  lemma PreparedUsed(c: Config, before: seq<Region>, after: seq<Region>, lo: nat, hi: nat, expected: nat, leaves: set<nat>)
    requires RunOf(c, lo, hi) && Prepared(c, before, after, lo, hi) && AllUsed(c, before, leaves)
    requires RunHolds(c, after, lo, hi, expected) && expected != c.Invalid()
    ensures AllUsed(c, after, leaves)
  {
    hide Shl, Shr, Low, Pow2;
    forall leaf | leaf in leaves
      ensures LeafUsed(c, after, leaf)
    {
      assert LeafUsed(c, before, leaf);
      var q: nat :| q < |before| && before[q] != Empty && Shr(q, c.LeafBits()) == leaf;
      if Touched(c, lo, hi, q) {
        RunShapes(c, after, lo, hi, expected, q);
      } else {
        assert after[q] == before[q];
      }
    }
  }

  /** After a part, only the leaf of its region may have fallen out of use, and not while the walk stays in it. */
  lemma LeavesAfterPart(c: Config, mid: seq<Region>, r: nat, region: Region, leaves: set<nat>)
    requires AllUsed(c, mid, leaves) && r < |mid|
    ensures AllUsed(c, mid[r := region], leaves - {Shr(r, c.LeafBits())})
  {
    hide Shr;
    forall leaf | leaf in leaves - {Shr(r, c.LeafBits())}
      ensures LeafUsed(c, mid[r := region], leaf)
    {
      var q :| 0 <= q < |mid| && mid[q] != Empty && Shr(q, c.LeafBits()) == leaf;
      assert mid[r := region][q] == mid[q];
    }
  }

  /** While the walk goes on, the next region still holds the expected handle, so its leaf is in use. */
  lemma NextStillUsed(c: Config, before: seq<Region>, mid: seq<Region>, expected: nat, lo: nat, n: nat, hi: nat)
    requires RunOf(c, lo, hi) && AtPart(c, lo, n, hi) && lo <= n < hi && expected != c.Invalid()
    requires RemoveApplied(c, before, mid, lo, n, hi) && RunHolds(c, before, lo, hi, expected)
    ensures LeafUsed(c, mid, Shr(Shr(n, c.GranuleBits()), c.LeafBits()))
  {
    hide Shl, Shr, Low, Pow2;
    StepForward(c, lo, n, hi);
    var q := Shr(n, c.GranuleBits());
    RunShapes(c, before, lo, hi, expected, q);
    assert mid[q] == before[q];
  }

  /** A removal keeps the canonical form of every region it does not touch and gives it to the others. */
  lemma RemoveCanonical(c: Config, before: seq<Region>, prepared: seq<Region>, after: seq<Region>, lo: nat, hi: nat)
    requires RunOf(c, lo, hi) && Prepared(c, before, prepared, lo, hi) && RemoveApplied(c, prepared, after, lo, hi, hi)
    requires forall r :: 0 <= r < |before| ==> CanonicalRegion(c, before[r])
    ensures forall r :: 0 <= r < |after| ==> CanonicalRegion(c, after[r])
  {
    forall r: nat | r < |after|
      ensures CanonicalRegion(c, after[r])
    {
      if !Touched(c, lo, hi, r) { assert after[r] == before[r]; }
    }
  }

  /**
   The last granule of a full-word index can never be mapped, because the exclusive end of a
   range must be a word. So the last region is never UNIFORM.
   */
  ghost predicate TopFree(c: Config, regions: seq<Region>)
    requires Shapely(c, regions)
  {
    c.CoversWord() && c.GranuleCount() > 0 ==> Entry(c, regions, c.GranuleCount() - 1) == c.Invalid()
  }

  lemma TopFreeFromMap(c: Config, regions: seq<Region>)
    requires Shapely(c, regions) && (c.CoversWord() && c.GranuleCount() > 0 ==> c.GranuleCount() - 1 !in MapOf(c, regions))
    ensures TopFree(c, regions)
  {
    if c.CoversWord() && c.GranuleCount() > 0 { MapEntry(c, regions, c.GranuleCount() - 1); }
  }

  lemma TopFreeKept(c: Config, before: seq<Region>, after: seq<Region>, lo: nat, hi: nat)
    requires RunOf(c, lo, hi) && Prepared(c, before, after, lo, hi) && TopFree(c, before)
    ensures TopFree(c, after)
  {
  }

  lemma TopFreeRewritten(c: Config, before: seq<Region>, after: seq<Region>, lo: nat, hi: nat, value: nat)
    requires lo < hi <= c.GranuleCount() && Rewrites(c, before, after, lo, hi, value) && TopFree(c, before)
    requires value == c.Invalid() || (c.CoversWord() ==> hi < c.GranuleCount())
    ensures TopFree(c, after)
  {
  }

  lemma LastRegionNotUniform(c: Config, regions: seq<Region>, r: nat)
    requires c.Legal() && Shapely(c, regions) && TopFree(c, regions) && c.LastRegion(r)
    ensures !regions[r].Uniform?
  {
    hide Shl, Shr, Low, Pow2;
    var k := c.GranuleBits();
    ShlAdd(r, 1, k);
    ShlOne(k);
    Unsplit(r, Pow2(k) - 1, k);
    assert c.GranuleCount() - 1 == Shl(r, k) + (Pow2(k) - 1);
    InlineBelowInvalid(c);
    assert Fits(c, regions[r]);
  }

  // ----- from entries to the map

  lemma MapUnchanged(c: Config, a: seq<Region>, b: seq<Region>)
    requires Shapely(c, a) && Shapely(c, b)
    requires forall n: nat :: n < c.GranuleCount() ==> Entry(c, a, n) == Entry(c, b, n)
    ensures MapOf(c, a) == MapOf(c, b)
  {
  }

  lemma MapFilled(c: Config, a: seq<Region>, b: seq<Region>, lo: nat, hi: nat, handle: nat)
    requires Shapely(c, a) && Shapely(c, b) && lo < hi <= c.GranuleCount() && handle != c.Invalid()
    requires forall n: nat :: n < c.GranuleCount() ==> Entry(c, b, n) == if lo <= n < hi then handle else Entry(c, a, n)
    ensures MapOf(c, b) == MapOf(c, a) + Filled(lo, hi, handle)
  {
  }

  lemma MapCleared(c: Config, a: seq<Region>, b: seq<Region>, lo: nat, hi: nat)
    requires Shapely(c, a) && Shapely(c, b) && lo < hi <= c.GranuleCount()
    requires forall n: nat :: n < c.GranuleCount() ==> Entry(c, b, n) == if lo <= n < hi then c.Invalid() else Entry(c, a, n)
    ensures MapOf(c, b) == MapOf(c, a) - Span(lo, hi)
  {
  }

  lemma MapEntry(c: Config, regions: seq<Region>, n: nat)
    requires Shapely(c, regions) && n < c.GranuleCount()
    ensures (if n in MapOf(c, regions) then MapOf(c, regions)[n] else c.Invalid()) == Entry(c, regions, n)
    ensures n in MapOf(c, regions) <==> Entry(c, regions, n) != c.Invalid()
  {
  }

  lemma FreeIsRun(c: Config, regions: seq<Region>, lo: nat, hi: nat)
    requires Shapely(c, regions) && hi <= c.GranuleCount()
    ensures Free(MapOf(c, regions), lo, hi) <==> RunHolds(c, regions, lo, hi, c.Invalid())
  {
    forall n: nat | lo <= n < hi
      ensures n in MapOf(c, regions) <==> Entry(c, regions, n) != c.Invalid()
    {
      MapEntry(c, regions, n);
    }
  }

  lemma HoldsIsRun(c: Config, regions: seq<Region>, lo: nat, hi: nat, handle: nat)
    requires Shapely(c, regions) && hi <= c.GranuleCount() && handle != c.Invalid()
    ensures Holds(MapOf(c, regions), lo, hi, handle) <==> RunHolds(c, regions, lo, hi, handle)
  {
    hide MapOf;
    var m := MapOf(c, regions);
    forall n: nat | lo <= n < hi
      ensures n in m && m[n] == handle <==> Entry(c, regions, n) == handle
    {
      MapEntry(c, regions, n);
    }
  }

  lemma PreparedKeepsMap(c: Config, before: seq<Region>, after: seq<Region>, lo: nat, hi: nat)
    requires Prepared(c, before, after, lo, hi)
    ensures Shapely(c, before) && Shapely(c, after) && MapOf(c, after) == MapOf(c, before)
  {
    MapUnchanged(c, before, after);
  }

  lemma InsertedMap(c: Config, before: seq<Region>, after: seq<Region>, lo: nat, hi: nat, handle: nat)
    requires RunOf(c, lo, hi) && handle != c.Invalid() && InsertApplied(c, before, after, lo, hi, hi, handle)
    requires TopFree(c, before) && (c.CoversWord() ==> hi < c.GranuleCount())
    ensures MapOf(c, after) == MapOf(c, before) + Filled(lo, hi, handle) && TopFree(c, after)
  {
    MapFilled(c, before, after, lo, hi, handle);
    TopFreeRewritten(c, before, after, lo, hi, handle);
  }

  lemma RemovedMap(c: Config, before: seq<Region>, after: seq<Region>, lo: nat, hi: nat)
    requires RunOf(c, lo, hi) && RemoveApplied(c, before, after, lo, hi, hi) && TopFree(c, before)
    ensures MapOf(c, after) == MapOf(c, before) - Span(lo, hi) && TopFree(c, after)
  {
    MapCleared(c, before, after, lo, hi);
    TopFreeRewritten(c, before, after, lo, hi, c.Invalid());
  }
}
