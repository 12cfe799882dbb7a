/**
 The memory of an adaptive index as values: the descriptor words of the bounded array or of
 the sparse leaves, and the dense tables by address. Sound says that these words stand for a
 given sequence of regions and that every block is reachable from exactly one place.
 */
module DirectoryStore {
  import opened Bits
  import opened IndexSpec
  import opened RegionShapes
  import opened Descriptors

  datatype Store = Store(
    bounded: seq<nat>, root: seq<nat>, leaves: map<nat, seq<nat>>, tables: map<nat, seq<nat>>,
    leafOwner: map<nat, nat>, tableOwner: map<nat, nat>)

  lemma RootIndex(c: Config, r: nat)
    requires c.mode.Sparse? && r < c.RegionCount()
    ensures Shr(r, c.LeafBits()) < c.RootCount() && Low(r, c.LeafBits()) < c.LeafCount()
    ensures And(r, c.LeafCount() - 1) == Low(r, c.LeafBits())
  {
    Split(r, c.LeafBits());
    AndMask(r, c.LeafBits());
    Pow2Add(c.RegionBits() - c.LeafBits(), c.LeafBits());
    ShlMono(c.RootCount(), Shr(r, c.LeafBits()), c.LeafBits());
  }

  /** A region is determined by its root index and its place in the leaf. */
  lemma SameSlot(c: Config, r: nat, q: nat)
    ensures Shr(r, c.LeafBits()) == Shr(q, c.LeafBits()) && Low(r, c.LeafBits()) == Low(q, c.LeafBits()) <==> r == q
  {
    Split(r, c.LeafBits());
    Split(q, c.LeafBits());
  }

  /** Every slot of a leaf below the root count belongs to some region. */
  lemma RegionOfSlot(c: Config, rootIndex: nat, offset: nat) returns (r: nat)
    requires c.mode.Sparse? && rootIndex < c.RootCount() && offset < c.LeafCount()
    ensures r < c.RegionCount() && Shr(r, c.LeafBits()) == rootIndex && Low(r, c.LeafBits()) == offset
  {
    r := Shl(rootIndex, c.LeafBits()) + offset;
    Unsplit(rootIndex, offset, c.LeafBits());
    Pow2Add(c.RegionBits() - c.LeafBits(), c.LeafBits());
    ShlMono(rootIndex, c.RootCount(), c.LeafBits());
  }

  // ----- what the words mean

  ghost predicate LeafLinked(c: Config, s: Store, i: nat)
    requires i < |s.root|
  {
    s.root[i] != 0 ==> s.root[i] in s.leaves && s.root[i] in s.leafOwner && s.leafOwner[s.root[i]] == i
  }

  ghost predicate LeafOwned(c: Config, s: Store, p: nat)
    requires p in s.leaves
  {
    && p != 0 && p in s.leafOwner && s.leafOwner[p] < |s.root| && s.root[s.leafOwner[p]] == p
    && |s.leaves[p]| == c.LeafCount()
  }

  ghost predicate DirectoryShape(c: Config, s: Store) {
    match c.mode
    case Bounded => |s.bounded| == c.RegionCount() && s.root == [] && s.leaves == map[]
    case Sparse =>
      && s.bounded == [] && |s.root| == c.RootCount()
      && (forall i: nat :: i < |s.root| ==> LeafLinked(c, s, i))
      && (forall p :: p in s.leaves ==> LeafOwned(c, s, p))
  }

  ghost function Descriptor(c: Config, s: Store, r: nat): nat
    requires r < c.RegionCount() && DirectoryShape(c, s)
  {
    if c.mode.Bounded? then s.bounded[r]
    else
      RootIndex(c, r);
      assert LeafLinked(c, s, Shr(r, c.LeafBits()));
      var leaf := s.root[Shr(r, c.LeafBits())];
      if leaf == 0 then 0 else s.leaves[leaf][Low(r, c.LeafBits())]
  }

  ghost predicate Linked(c: Config, s: Store, regions: seq<Region>, r: nat)
    requires r < c.RegionCount() && |regions| == c.RegionCount() && DirectoryShape(c, s)
  {
    var d := Descriptor(c, s, r);
    match regions[r]
    case Empty => d == 0
    case Uniform(handle) => d == UniformEncode(c, handle)
    case Dense(entries) =>
      d >= 2 && d - 2 in s.tables && s.tables[d - 2] == entries && d - 2 in s.tableOwner && s.tableOwner[d - 2] == r
  }

  ghost predicate TableOwned(c: Config, s: Store, regions: seq<Region>, p: nat)
    requires p in s.tables && |regions| == c.RegionCount() && DirectoryShape(c, s)
  {
    && p != 0 && c.IsWord(p) && Low(p, 2) == 0
    && p in s.tableOwner && s.tableOwner[p] < |regions| && regions[s.tableOwner[p]].Dense?
    && Descriptor(c, s, s.tableOwner[p]) == p + 2
  }

  ghost predicate Sound(c: Config, s: Store, regions: seq<Region>) {
    && Shapely(c, regions)
    && DirectoryShape(c, s)
    && (forall r: nat :: r < |regions| ==> Linked(c, s, regions, r))
    && (forall p :: p in s.tables ==> TableOwned(c, s, regions, p))
  }

  lemma SoundShape(c: Config, s: Store, regions: seq<Region>)
    requires Sound(c, s, regions)
    ensures Shapely(c, regions) && DirectoryShape(c, s) && |regions| == c.RegionCount()
    ensures c.mode.Bounded? ==> Present(s) == {} && s.leaves == map[] && |s.bounded| == c.RegionCount()
  {
  }

  lemma SoundLinked(c: Config, s: Store, regions: seq<Region>, r: nat)
    requires Sound(c, s, regions) && r < c.RegionCount()
    ensures |regions| == c.RegionCount() && DirectoryShape(c, s) && Linked(c, s, regions, r)
  {
  }

  lemma SoundFits(c: Config, s: Store, regions: seq<Region>, r: nat)
    requires Sound(c, s, regions) && r < c.RegionCount()
    ensures Shapely(c, regions) && DirectoryShape(c, s) && r < |regions| && Fits(c, regions[r])
  {
  }

  ghost function Present(s: Store): set<nat> {
    set i: nat | i < |s.root| && s.root[i] != 0
  }

  // ----- stores through a descriptor pointer

  datatype Slot = NoSlot | BoundedSlot(region: nat) | LeafSlot(leaf: nat, offset: nat)

  ghost predicate Points(c: Config, s: Store, slot: Slot, r: nat)
    requires r < c.RegionCount() && DirectoryShape(c, s)
  {
    if c.mode.Bounded? then slot == BoundedSlot(r)
    else
      RootIndex(c, r);
      var leaf := s.root[Shr(r, c.LeafBits())];
      leaf != 0 && slot == LeafSlot(leaf, Low(r, c.LeafBits()))
  }

  ghost function Stored(c: Config, s: Store, slot: Slot, r: nat, word: nat): Store
    requires r < c.RegionCount() && DirectoryShape(c, s) && Points(c, s, slot, r)
  {
    if c.mode.Bounded? then s.(bounded := s.bounded[r := word])
    else
      RootIndex(c, r);
      assert LeafLinked(c, s, Shr(r, c.LeafBits()));
      var leaf: seq<nat> := s.leaves[slot.leaf][slot.offset := word];
      s.(leaves := s.leaves[slot.leaf := leaf])
  }

  lemma StoredDescriptor(c: Config, s: Store, slot: Slot, r: nat, word: nat)
    requires r < c.RegionCount() && DirectoryShape(c, s) && Points(c, s, slot, r)
    ensures var t := Stored(c, s, slot, r, word);
            && DirectoryShape(c, t) && Points(c, t, slot, r)
            && forall q: nat :: q < c.RegionCount() ==> Descriptor(c, t, q) == if q == r then word else Descriptor(c, s, q)
  {
    hide Shl, Shr, Low, Pow2, And;
    if c.mode.Sparse? {
      RootIndex(c, r);
      assert LeafLinked(c, s, Shr(r, c.LeafBits()));
      var t := Stored(c, s, slot, r, word);
      forall i: nat | i < |t.root|
        ensures LeafLinked(c, t, i)
      {
        assert LeafLinked(c, s, i);
      }
      forall p | p in t.leaves
        ensures LeafOwned(c, t, p)
      {
        assert LeafOwned(c, s, p);
      }
      forall q: nat | q < c.RegionCount()
        ensures Descriptor(c, t, q) == if q == r then word else Descriptor(c, s, q)
      {
        RootIndex(c, q);
        SameSlot(c, q, r);
        assert LeafLinked(c, s, Shr(q, c.LeafBits()));
      }
    }
  }

  lemma StoredFrame(c: Config, s: Store, slot: Slot, r: nat, word: nat)
    requires r < c.RegionCount() && DirectoryShape(c, s) && Points(c, s, slot, r)
    ensures var t := Stored(c, s, slot, r, word);
            && t.root == s.root && t.tables == s.tables && t.tableOwner == s.tableOwner && t.leafOwner == s.leafOwner
            && t.leaves.Keys == s.leaves.Keys && Present(t) == Present(s) && LeafTotal(t) == LeafTotal(s)
  {
    if c.mode.Sparse? {
      RootIndex(c, r);
      assert LeafLinked(c, s, Shr(r, c.LeafBits()));
      assert Stored(c, s, slot, r, word).leaves.Keys == s.leaves.Keys;
    }
  }

  // ----- leaves

  function ZeroWords(count: nat): (words: seq<nat>)
    ensures |words| == count && forall i :: 0 <= i < count ==> words[i] == 0
  {
    seq(count, _ => 0)
  }

  ghost function FreshStore(c: Config): Store {
    if c.mode.Bounded? then Store(ZeroWords(c.RegionCount()), [], map[], map[], map[], map[])
    else Store([], ZeroWords(c.RootCount()), map[], map[], map[], map[])
  }

  lemma FreshStoreSound(c: Config)
    ensures Sound(c, FreshStore(c), seq(c.RegionCount(), _ => Empty)) && Present(FreshStore(c)) == {}
  {
    hide Shl, Shr, Low, Pow2, And;
    var s := FreshStore(c);
    var regions := seq(c.RegionCount(), _ => Empty);
    forall r: nat | r < c.RegionCount()
      ensures Linked(c, s, regions, r)
    {
      if c.mode.Sparse? { RootIndex(c, r); }
    }
  }

  ghost function WithLeaf(c: Config, s: Store, i: nat, leaf: nat): Store
    requires i < |s.root|
  {
    s.(root := s.root[i := leaf], leaves := s.leaves[leaf := ZeroWords(c.LeafCount())], leafOwner := s.leafOwner[leaf := i])
  }

  ghost function WithoutLeaf(s: Store, i: nat): Store
    requires i < |s.root|
  {
    s.(root := s.root[i := 0], leaves := s.leaves - {s.root[i]})
  }

  ghost function WithTable(s: Store, p: nat, entries: seq<nat>, r: nat): Store {
    s.(tables := s.tables[p := entries], tableOwner := s.tableOwner[p := r])
  }

  ghost function WithoutTable(s: Store, p: nat): Store {
    s.(tables := s.tables - {p})
  }

  /** A fresh leaf of zero words changes no descriptor. */
  lemma LeafAdded(c: Config, s: Store, regions: seq<Region>, i: nat, leaf: nat)
    requires Sound(c, s, regions) && c.mode.Sparse? && i < |s.root| && s.root[i] == 0
    requires leaf != 0 && leaf !in s.leaves
    ensures Sound(c, WithLeaf(c, s, i, leaf), regions)
    ensures Present(WithLeaf(c, s, i, leaf)) == Present(s) + {i}
  {
    hide Shl, Shr, Low, Pow2, And;
    var t := WithLeaf(c, s, i, leaf);
    forall j: nat | j < |t.root|
      ensures LeafLinked(c, t, j)
    {
      assert LeafLinked(c, s, j);
      if j != i && s.root[j] != 0 { assert LeafOwned(c, s, s.root[j]); }
    }
    forall p | p in t.leaves
      ensures LeafOwned(c, t, p)
    {
      if p != leaf { assert LeafOwned(c, s, p); }
    }
    forall q: nat | q < c.RegionCount()
      ensures Descriptor(c, t, q) == Descriptor(c, s, q)
    {
      RootIndex(c, q);
      assert LeafLinked(c, s, Shr(q, c.LeafBits()));
    }
    SameDescriptors(c, s, t, regions);
  }

  lemma SameDescriptors(c: Config, s: Store, t: Store, regions: seq<Region>)
    requires Sound(c, s, regions) && DirectoryShape(c, t)
    requires t.tables == s.tables && t.tableOwner == s.tableOwner
    requires forall q: nat :: q < c.RegionCount() ==> Descriptor(c, t, q) == Descriptor(c, s, q)
    ensures Sound(c, t, regions)
  {
    hide Descriptor, DirectoryShape, Fits;
    forall q: nat | q < |regions|
      ensures Linked(c, t, regions, q)
    {
      assert Linked(c, s, regions, q);
    }
    forall p | p in t.tables
      ensures TableOwned(c, t, regions, p)
    {
      assert TableOwned(c, s, regions, p);
    }
  }

  /** Dropping a leaf of zero words changes no descriptor. */
  lemma LeafDropped(c: Config, s: Store, regions: seq<Region>, i: nat)
    requires Sound(c, s, regions) && c.mode.Sparse? && i < |s.root| && s.root[i] != 0
    requires s.root[i] in s.leaves && forall j :: 0 <= j < |s.leaves[s.root[i]]| ==> s.leaves[s.root[i]][j] == 0
    ensures Sound(c, WithoutLeaf(s, i), regions)
    ensures Present(WithoutLeaf(s, i)) == Present(s) - {i}
  {
    hide Shl, Shr, Low, Pow2, And;
    var t := WithoutLeaf(s, i);
    assert LeafLinked(c, s, i);
    forall j: nat | j < |t.root|
      ensures LeafLinked(c, t, j)
    {
      assert LeafLinked(c, s, j);
    }
    forall p | p in t.leaves
      ensures LeafOwned(c, t, p)
    {
      assert LeafOwned(c, s, p);
    }
    forall q: nat | q < c.RegionCount()
      ensures Descriptor(c, t, q) == Descriptor(c, s, q)
    {
      RootIndex(c, q);
      assert LeafLinked(c, s, Shr(q, c.LeafBits()));
    }
    SameDescriptors(c, s, t, regions);
  }

  // ----- tables

  /** Publishing a fresh table in place of an EMPTY or UNIFORM region. */
  lemma TableInstalled(c: Config, s: Store, regions: seq<Region>, slot: Slot, r: nat, p: nat, entries: seq<nat>)
    requires Sound(c, s, regions) && r < c.RegionCount() && Points(c, s, slot, r)
    requires !regions[r].Dense? && Fits(c, Dense(entries))
    requires p != 0 && c.IsWord(p) && Low(p, 2) == 0 && p !in s.tables
    ensures var t := WithTable(s, p, entries, r);
            && DirectoryShape(c, t) && Points(c, t, slot, r)
            && Sound(c, Stored(c, t, slot, r, DenseEncode(p)), regions[r := Dense(entries)])
  {
    hide Descriptor, Present, LeafTotal, Shl, Shr, Low, Pow2, And, Or;
    var t := WithTable(s, p, entries, r);
    DirectoryOnly(c, s, t);
    TableRoles(c, s, regions, r);
    DenseRoundTrip(c, p);
    StoredDescriptor(c, t, slot, r, DenseEncode(p));
    ReplaceRegion(c, s, Stored(c, t, slot, r, DenseEncode(p)), regions, r, Dense(entries), {p});
  }

  /** The directory part of a store decides its descriptors. */
  lemma DirectoryOnly(c: Config, s: Store, t: Store)
    requires DirectoryShape(c, s)
    requires t.bounded == s.bounded && t.root == s.root && t.leaves == s.leaves && t.leafOwner == s.leafOwner
    ensures DirectoryShape(c, t)
    ensures forall r: nat :: r < c.RegionCount() ==> Descriptor(c, t, r) == Descriptor(c, s, r)
    ensures forall r: nat, slot :: r < c.RegionCount() ==> (Points(c, t, slot, r) <==> Points(c, s, slot, r))
    ensures Present(t) == Present(s) && LeafTotal(t) == LeafTotal(s)
  {
    hide Shl, Shr, Low, Pow2, And;
    if c.mode.Sparse? {
      forall i: nat | i < |t.root|
        ensures LeafLinked(c, t, i)
      {
        assert LeafLinked(c, s, i);
      }
      forall p | p in t.leaves
        ensures LeafOwned(c, t, p)
      {
        assert LeafOwned(c, s, p);
      }
    }
  }

  /** One region changes its word and its table; everything else keeps both. */
  lemma ReplaceRegion(c: Config, s: Store, t: Store, regions: seq<Region>, r: nat, region: Region, touched: set<nat>)
    requires Sound(c, s, regions) && DirectoryShape(c, t) && r < |regions| && Fits(c, region)
    requires forall q: nat :: q < c.RegionCount() && q != r ==> Descriptor(c, t, q) == Descriptor(c, s, q)
    requires forall p :: p !in touched ==>
                (p in t.tables <==> p in s.tables) && (p in t.tables ==>
                  t.tables[p] == s.tables[p] && p in t.tableOwner && p in s.tableOwner && t.tableOwner[p] == s.tableOwner[p])
    requires forall p :: p in s.tables && p in touched ==> p in s.tableOwner && s.tableOwner[p] == r
    requires forall p :: p in s.tables && p !in touched ==> p in s.tableOwner && s.tableOwner[p] != r
    requires Linked(c, t, regions[r := region], r)
    requires forall p :: p in t.tables && p in touched ==> TableOwned(c, t, regions[r := region], p)
    ensures Sound(c, t, regions[r := region])
  {
    hide Descriptor, DirectoryShape, Fits, Low, Pow2, UniformEncode;
    var after := regions[r := region];
    forall q: nat | q < |after|
      ensures Linked(c, t, after, q)
    {
      if q != r { assert Linked(c, s, regions, q); }
    }
    forall p | p in t.tables
      ensures TableOwned(c, t, after, p)
    {
      if p !in touched { assert TableOwned(c, s, regions, p); }
    }
  }

  /** The tables of the other regions: none of them belongs to a region without a table. */
  lemma OwnerIsDense(c: Config, s: Store, regions: seq<Region>, p: nat)
    requires Sound(c, s, regions) && p in s.tables
    ensures p in s.tableOwner && s.tableOwner[p] < |regions| && regions[s.tableOwner[p]].Dense?
    ensures Descriptor(c, s, s.tableOwner[p]) == p + 2
  {
    assert TableOwned(c, s, regions, p);
  }

  /** Storing an inline word over a region that owns no table. */
  lemma WordInstalled(c: Config, s: Store, regions: seq<Region>, slot: Slot, r: nat, region: Region)
    requires Sound(c, s, regions) && r < c.RegionCount() && Points(c, s, slot, r)
    requires !regions[r].Dense? && !region.Dense? && Fits(c, region)
    ensures Sound(c, Stored(c, s, slot, r, InlineWord(c, region)), regions[r := region])
  {
    hide Present, LeafTotal, Shl, Shr, Low, Pow2, And, Or;
    StoredDescriptor(c, s, slot, r, InlineWord(c, region));
    forall p | p in s.tables
      ensures p in s.tableOwner && s.tableOwner[p] != r
    {
      OwnerIsDense(c, s, regions, p);
    }
    ReplaceRegion(c, s, Stored(c, s, slot, r, InlineWord(c, region)), regions, r, region, {});
  }

  function InlineWord(c: Config, region: Region): nat
    requires !region.Dense?
  {
    if region.Empty? then 0 else UniformEncode(c, region.handle)
  }

  /** Overwriting the table of a DENSE region. */
  lemma TableWritten(c: Config, s: Store, regions: seq<Region>, r: nat, entries: seq<nat>)
    requires Sound(c, s, regions) && r < c.RegionCount() && regions[r].Dense? && Fits(c, Dense(entries))
    ensures Descriptor(c, s, r) >= 2 && Descriptor(c, s, r) - 2 in s.tables
    ensures Sound(c, s.(tables := s.tables[Descriptor(c, s, r) - 2 := entries]), regions[r := Dense(entries)])
  {
    hide Present, LeafTotal, Shl, Shr, Low, Pow2, And, Or;
    assert Linked(c, s, regions, r);
    var p := Descriptor(c, s, r) - 2;
    var t := s.(tables := s.tables[p := entries]);
    DirectoryOnly(c, s, t);
    TableRoles(c, s, regions, r);
    assert TableOwned(c, s, regions, p);
    ReplaceRegion(c, s, t, regions, r, Dense(entries), {p});
  }

  /** Exactly one table belongs to a DENSE region. */
  lemma TableRoles(c: Config, s: Store, regions: seq<Region>, r: nat)
    requires Sound(c, s, regions) && r < c.RegionCount()
    ensures forall p :: p in s.tables ==>
              p in s.tableOwner && (s.tableOwner[p] == r <==> regions[r].Dense? && p == Descriptor(c, s, r) - 2)
  {
    forall p | p in s.tables
      ensures p in s.tableOwner && (s.tableOwner[p] == r <==> regions[r].Dense? && p == Descriptor(c, s, r) - 2)
    {
      OwnerIsDense(c, s, regions, p);
      assert Linked(c, s, regions, r);
    }
  }

  lemma AllOwned(c: Config, s: Store, regions: seq<Region>)
    requires Sound(c, s, regions)
    ensures forall p :: p in s.tables ==> p in s.tableOwner && s.tableOwner[p] < |regions|
  {
    forall p | p in s.tables
      ensures p in s.tableOwner && s.tableOwner[p] < |regions|
    {
      OwnerIsDense(c, s, regions, p);
    }
  }

  /** Replacing the table of a DENSE region by an inline word. */
  lemma TableDropped(c: Config, s: Store, regions: seq<Region>, slot: Slot, r: nat, region: Region)
    requires Sound(c, s, regions) && r < c.RegionCount() && Points(c, s, slot, r)
    requires regions[r].Dense? && !region.Dense? && Fits(c, region)
    ensures Descriptor(c, s, r) >= 2 && Descriptor(c, s, r) - 2 in s.tables
    ensures var t := WithoutTable(s, Descriptor(c, s, r) - 2);
            && DirectoryShape(c, t) && Points(c, t, slot, r)
            && Sound(c, Stored(c, t, slot, r, InlineWord(c, region)), regions[r := region])
  {
    hide Present, LeafTotal, Shl, Shr, Low, Pow2, And, Or;
    assert Linked(c, s, regions, r);
    var p := Descriptor(c, s, r) - 2;
    var t := WithoutTable(s, p);
    DirectoryOnly(c, s, t);
    TableRoles(c, s, regions, r);
    StoredDescriptor(c, t, slot, r, InlineWord(c, region));
    ReplaceRegion(c, s, Stored(c, t, slot, r, InlineWord(c, region)), regions, r, region, {p});
  }

  /** What the type tag of a descriptor says about the region it stands for. */
  lemma DescriptorType(c: Config, s: Store, regions: seq<Region>, r: nat)
    requires Sound(c, s, regions) && r < c.RegionCount()
    ensures var d := Descriptor(c, s, r);
            match regions[r]
            case Empty => d == 0 && TypeDecode(d) == TypeEmpty
            case Uniform(handle) => TypeDecode(d) == TypeUniform && UniformDecode(d) == handle && c.IsWord(d)
            case Dense(entries) =>
              && TypeDecode(d) == TypeDense && c.IsWord(d) && d >= 2
              && DenseDecode(c, d) == d - 2 && d - 2 in s.tables && s.tables[d - 2] == entries
  {
    hide Shl, Shr, Low, Pow2, And, Or;
    assert Linked(c, s, regions, r);
    assert Fits(c, regions[r]);
    match regions[r]
    case Empty =>
    case Uniform(handle) =>
      InlineBelowInvalid(c);
      UniformRoundTrip(c, handle);
    case Dense(entries) =>
      assert TableOwned(c, s, regions, Descriptor(c, s, r) - 2);
      DenseRoundTrip(c, Descriptor(c, s, r) - 2);
  }

  // ----- the ledger

  /** The live allocations are exactly the index object, its directory, what the directory reaches, and the blocks of others. */
  ghost predicate Reachable(live: set<nat>, self: nat, directory: nat, outside: set<nat>, s: Store) {
    Owned(live, self, directory, outside, s.leaves.Keys, s.tables.Keys)
  }

  ghost predicate Owned(live: set<nat>, self: nat, directory: nat, outside: set<nat>, leaves: set<nat>, tables: set<nat>) {
    && self != 0 && directory != 0 && 0 !in leaves && 0 !in tables && self != directory
    && self in live && directory in live && leaves <= live && tables <= live && outside <= live
    && leaves !! tables && outside !! leaves && outside !! tables && self !in outside && directory !in outside
    && self !in leaves && self !in tables && directory !in leaves && directory !in tables
    && forall p :: p in live ==> p == self || p == directory || p in leaves || p in tables || p in outside
  }

  ghost function LeafTotal(s: Store): nat { |s.leaves.Keys| }

  lemma LeafLedger(c: Config, live: set<nat>, self: nat, directory: nat, outside: set<nat>, s: Store, i: nat, leaf: nat)
    requires Reachable(live, self, directory, outside, s) && leaf !in live && leaf != 0 && i < |s.root|
    ensures Reachable(live + {leaf}, self, directory, outside, WithLeaf(c, s, i, leaf))
    ensures LeafTotal(WithLeaf(c, s, i, leaf)) == LeafTotal(s) + 1 && leaf !in s.leaves
  {
    hide Owned;
    OwnedLive(live, self, directory, outside, s.leaves.Keys, s.tables.Keys, leaf);
    assert WithLeaf(c, s, i, leaf).leaves.Keys == s.leaves.Keys + {leaf};
    OwnedGrows(live, self, directory, outside, s.leaves.Keys, s.tables.Keys, leaf);
  }

  lemma OwnedLive(live: set<nat>, self: nat, directory: nat, outside: set<nat>, leaves: set<nat>, tables: set<nat>, p: nat)
    requires Owned(live, self, directory, outside, leaves, tables)
    ensures p !in live ==> p !in leaves && p !in tables
    ensures p in leaves || p in tables ==> p in live
  {
  }

  lemma OwnedGrows(live: set<nat>, self: nat, directory: nat, outside: set<nat>, leaves: set<nat>, tables: set<nat>, p: nat)
    requires Owned(live, self, directory, outside, leaves, tables) && p !in live && p != 0
    ensures Owned(live + {p}, self, directory, outside, leaves + {p}, tables)
    ensures Owned(live + {p}, self, directory, outside, leaves, tables + {p})
  {
  }

  lemma LeafFreedLedger(live: set<nat>, self: nat, directory: nat, outside: set<nat>, s: Store, i: nat)
    requires Reachable(live, self, directory, outside, s) && i < |s.root| && s.root[i] in s.leaves
    ensures s.root[i] in live && Reachable(live - {s.root[i]}, self, directory, outside, WithoutLeaf(s, i))
    ensures LeafTotal(WithoutLeaf(s, i)) == LeafTotal(s) - 1
  {
    assert WithoutLeaf(s, i).leaves.Keys == s.leaves.Keys - {s.root[i]};
  }

  lemma TableLedger(live: set<nat>, self: nat, directory: nat, outside: set<nat>, s: Store, p: nat, entries: seq<nat>, r: nat)
    requires Reachable(live, self, directory, outside, s) && p !in live && p != 0
    ensures Reachable(live + {p}, self, directory, outside, WithTable(s, p, entries, r)) && p !in s.tables
  {
    assert p !in s.tables.Keys;
    assert WithTable(s, p, entries, r).tables.Keys == s.tables.Keys + {p};
  }

  lemma TableFreedLedger(live: set<nat>, self: nat, directory: nat, outside: set<nat>, s: Store, p: nat)
    requires Reachable(live, self, directory, outside, s) && p in s.tables
    ensures p in live && Reachable(live - {p}, self, directory, outside, WithoutTable(s, p))
  {
    assert WithoutTable(s, p).tables.Keys == s.tables.Keys - {p};
  }

  lemma BoundedLedger(live: set<nat>, self: nat, directory: nat, outside: set<nat>, s: Store)
    requires Reachable(live, self, directory, outside, s) && s.leaves == map[]
    ensures forall p :: p in live <==> p == self || p == directory || p in s.tables || p in outside
    ensures self !in s.tables && directory !in s.tables && self != directory && self != 0 && directory != 0
    ensures outside !! s.tables.Keys && self !in outside && directory !in outside
  {
  }

  lemma LedgerNames(live: set<nat>, self: nat, directory: nat, outside: set<nat>, s: Store)
    requires Reachable(live, self, directory, outside, s)
    ensures self != directory && self !in s.tables && directory !in s.tables && s.leaves.Keys !! s.tables.Keys
    ensures outside !! s.tables.Keys && outside !! s.leaves.Keys && self !in outside && directory !in outside
    ensures forall p :: p in live <==> p == self || p == directory || p in s.leaves || p in s.tables || p in outside
  {
  }

  /** Who owns what in a sparse directory. */
  lemma SparseRoles(c: Config, s: Store, regions: seq<Region>)
    requires Sound(c, s, regions) && c.mode.Sparse?
    ensures |s.root| == c.RootCount()
    ensures forall p :: p in s.leaves ==>
              p in s.leafOwner && s.leafOwner[p] < |s.root| && s.root[s.leafOwner[p]] == p && |s.leaves[p]| == c.LeafCount()
    ensures forall i: nat :: i < |s.root| && s.root[i] != 0 ==> s.root[i] in s.leaves && s.leafOwner[s.root[i]] == i
    ensures forall p :: p in s.tables ==>
              p in s.tableOwner && Shr(s.tableOwner[p], c.LeafBits()) < |s.root| && s.root[Shr(s.tableOwner[p], c.LeafBits())] != 0
  {
    hide Shl, Shr, Low, Pow2, And;
    forall p | p in s.leaves
      ensures p in s.leafOwner && s.leafOwner[p] < |s.root| && s.root[s.leafOwner[p]] == p && |s.leaves[p]| == c.LeafCount()
    {
      assert LeafOwned(c, s, p);
    }
    forall i: nat | i < |s.root| && s.root[i] != 0
      ensures s.root[i] in s.leaves && s.leafOwner[s.root[i]] == i
    {
      assert LeafLinked(c, s, i);
    }
    forall p | p in s.tables
      ensures p in s.tableOwner && Shr(s.tableOwner[p], c.LeafBits()) < |s.root| && s.root[Shr(s.tableOwner[p], c.LeafBits())] != 0
    {
      OwnerIsDense(c, s, regions, p);
      RootIndex(c, s.tableOwner[p]);
    }
  }

  /** The region behind a leaf word, the table it owns if any, and the fact that no other table claims that place. */
  lemma SlotRegion(c: Config, s: Store, regions: seq<Region>, i: nat, j: nat) returns (r: nat)
    requires Sound(c, s, regions) && c.mode.Sparse? && i < |s.root| && s.root[i] != 0 && j < c.LeafCount()
    requires s.root[i] in s.leaves && |s.leaves[s.root[i]]| == c.LeafCount()
    ensures r < c.RegionCount() && Shr(r, c.LeafBits()) == i && Low(r, c.LeafBits()) == j
    ensures var d := s.leaves[s.root[i]][j];
            && (TypeDecode(d) == TypeDense ==>
                  c.IsWord(d) && d >= 2 && DenseDecode(c, d) == d - 2 && d - 2 in s.tables && d - 2 in s.tableOwner && s.tableOwner[d - 2] == r)
            && forall p :: p in s.tables && p in s.tableOwner ==>
                 Shr(s.tableOwner[p], c.LeafBits()) == i && Low(s.tableOwner[p], c.LeafBits()) == j ==> TypeDecode(d) == TypeDense && p == d - 2
  {
    hide Shl, Shr, Low, Pow2, And, Or;
    r := RegionOfSlot(c, i, j);
    DescriptorType(c, s, regions, r);
    assert Linked(c, s, regions, r);
    forall p | p in s.tables && p in s.tableOwner
      && Shr(s.tableOwner[p], c.LeafBits()) == i && Low(s.tableOwner[p], c.LeafBits()) == j
      ensures TypeDecode(s.leaves[s.root[i]][j]) == TypeDense && p == s.leaves[s.root[i]][j] - 2
    {
      OwnerIsDense(c, s, regions, p);
      SameSlot(c, s.tableOwner[p], r);
    }
  }

  /** Reachability looks at addresses only. */
  lemma SameBlocks(live: set<nat>, self: nat, directory: nat, outside: set<nat>, s: Store, t: Store)
    requires Reachable(live, self, directory, outside, s)
    requires t.leaves.Keys == s.leaves.Keys && t.tables.Keys == s.tables.Keys
    ensures Reachable(live, self, directory, outside, t)
  {
  }

  // ----- which leaves are in use

  /** A nonzero word of a leaf belongs to a region that is not EMPTY. */
  lemma UsedWord(c: Config, s: Store, regions: seq<Region>, i: nat, offset: nat)
    requires Sound(c, s, regions) && c.mode.Sparse? && i < |s.root| && s.root[i] in s.leaves
    requires offset < |s.leaves[s.root[i]]| && s.leaves[s.root[i]][offset] != 0
    ensures LeafUsed(c, regions, i)
  {
    hide Shl, Shr, Low, Pow2, And, Or, Fits;
    assert LeafOwned(c, s, s.root[i]);
    var r := RegionOfSlot(c, i, offset);
    RootIndex(c, r);
    assert Linked(c, s, regions, r);
    assert regions[r] != Empty;
  }

  /** A leaf of zero words holds EMPTY regions only. */
  lemma UnusedLeaf(c: Config, s: Store, regions: seq<Region>, i: nat)
    requires Sound(c, s, regions) && c.mode.Sparse? && i < |s.root| && s.root[i] in s.leaves
    requires forall j :: 0 <= j < |s.leaves[s.root[i]]| ==> s.leaves[s.root[i]][j] == 0
    ensures !LeafUsed(c, regions, i)
  {
    hide Shl, Shr, Low, Pow2, And, Or, Fits;
    assert LeafOwned(c, s, s.root[i]);
    forall r: nat | r < |regions| && Shr(r, c.LeafBits()) == i
      ensures regions[r] == Empty
    {
      RootIndex(c, r);
      EmptyWord(c, s, regions, r);
    }
  }

  lemma EmptyWord(c: Config, s: Store, regions: seq<Region>, r: nat)
    requires Sound(c, s, regions) && r < c.RegionCount() && Descriptor(c, s, r) == 0
    ensures regions[r] == Empty
  {
    DescriptorType(c, s, regions, r);
  }

  /** A region that is not EMPTY has its leaf in place. */
  lemma SoundCovers(c: Config, s: Store, regions: seq<Region>)
    requires Sound(c, s, regions)
    ensures LeavesCover(c, regions, Present(s))
  {
    hide Shl, Shr, Low, Pow2, And, Or, Fits;
    if c.mode.Sparse? {
      forall r: nat | r < |regions| && regions[r] != Empty
        ensures Shr(r, c.LeafBits()) in Present(s)
      {
        RootIndex(c, r);
        DescriptorType(c, s, regions, r);
      }
    }
  }

  /** Leaves and occupied root slots are in one-to-one correspondence. */
  lemma LeavesArePresent(c: Config, s: Store, regions: seq<Region>)
    requires Sound(c, s, regions)
    ensures LeafTotal(s) == |Present(s)|
  {
    hide Shl, Shr, Low, Pow2, And, Descriptor;
    if c.mode.Sparse? {
      SparseRoles(c, s, regions);
      Matching(s.root, s.leaves.Keys, s.leafOwner, Present(s));
    } else {
      assert Present(s) == {} && s.leaves.Keys == {};
    }
  }

  lemma {:induction false} Matching(root: seq<nat>, leaves: set<nat>, owner: map<nat, nat>, present: set<nat>)
    requires forall p :: p in leaves ==> p in owner && owner[p] in present && owner[p] < |root| && root[owner[p]] == p
    requires forall i :: i in present ==> i < |root| && root[i] in leaves && owner[root[i]] == i
    ensures |leaves| == |present|
    decreases |present|
  {
    if present == {} {
      assert leaves == {};
    } else {
      var i :| i in present;
      Matching(root, leaves - {root[i]}, owner, present - {i});
    }
  }

  // ----- whole transitions of one region

  /** What every one-region transition keeps besides soundness. */
  ghost predicate Preserved(c: Config, s: Store, t: Store, slot: Slot, r: nat)
    requires r < c.RegionCount()
  {
    && DirectoryShape(c, t) && Points(c, t, slot, r)
    && Present(t) == Present(s) && LeafTotal(t) == LeafTotal(s)
  }

  ghost function Installed(c: Config, s: Store, slot: Slot, r: nat, p: nat, entries: seq<nat>): Store
    requires r < c.RegionCount() && DirectoryShape(c, s) && Points(c, s, slot, r)
  {
    DirectoryOnly(c, s, WithTable(s, p, entries, r));
    Stored(c, WithTable(s, p, entries, r), slot, r, DenseEncode(p))
  }

  lemma InstallTransition(c: Config, live: set<nat>, self: nat, directory: nat, outside: set<nat>, s: Store, regions: seq<Region>,
                          slot: Slot, r: nat, p: nat, entries: seq<nat>)
    requires Sound(c, s, regions) && r < c.RegionCount() && Points(c, s, slot, r)
    requires !regions[r].Dense? && Fits(c, Dense(entries))
    requires Reachable(live, self, directory, outside, s) && p !in live && p != 0 && c.IsWord(p) && Low(p, 2) == 0
    ensures var t := Installed(c, s, slot, r, p, entries);
            && Sound(c, t, regions[r := Dense(entries)]) && Preserved(c, s, t, slot, r)
            && Reachable(live + {p}, self, directory, outside, t)
  {
    hide Present, LeafTotal, Shl, Shr, Low, Pow2, And, Or, Sound, Reachable;
    var t := WithTable(s, p, entries, r);
    SoundFits(c, s, regions, r);
    TableLedger(live, self, directory, outside, s, p, entries, r);
    TableInstalled(c, s, regions, slot, r, p, entries);
    DirectoryOnly(c, s, t);
    StoredDescriptor(c, t, slot, r, DenseEncode(p));
    StoredFrame(c, t, slot, r, DenseEncode(p));
    SameBlocks(live + {p}, self, directory, outside, t, Stored(c, t, slot, r, DenseEncode(p)));
  }

  ghost function Inlined(c: Config, s: Store, slot: Slot, r: nat, region: Region): Store
    requires r < c.RegionCount() && DirectoryShape(c, s) && Points(c, s, slot, r) && !region.Dense?
  {
    Stored(c, s, slot, r, InlineWord(c, region))
  }

  lemma InlineTransition(c: Config, live: set<nat>, self: nat, directory: nat, outside: set<nat>, s: Store, regions: seq<Region>,
                         slot: Slot, r: nat, region: Region)
    requires Sound(c, s, regions) && r < c.RegionCount() && Points(c, s, slot, r)
    requires !regions[r].Dense? && !region.Dense? && Fits(c, region)
    requires Reachable(live, self, directory, outside, s)
    ensures var t := Inlined(c, s, slot, r, region);
            && Sound(c, t, regions[r := region]) && Preserved(c, s, t, slot, r) && Reachable(live, self, directory, outside, t)
  {
    hide Present, LeafTotal, Shl, Shr, Low, Pow2, And, Or, Sound, Reachable;
    SoundFits(c, s, regions, r);
    WordInstalled(c, s, regions, slot, r, region);
    StoredDescriptor(c, s, slot, r, InlineWord(c, region));
    StoredFrame(c, s, slot, r, InlineWord(c, region));
    SameBlocks(live, self, directory, outside, s, Inlined(c, s, slot, r, region));
  }

  ghost function Overwritten(c: Config, s: Store, r: nat, entries: seq<nat>): Store
    requires r < c.RegionCount() && DirectoryShape(c, s) && Descriptor(c, s, r) >= 2
  {
    s.(tables := s.tables[Descriptor(c, s, r) - 2 := entries])
  }

  lemma WriteTransition(c: Config, live: set<nat>, self: nat, directory: nat, outside: set<nat>, s: Store, regions: seq<Region>,
                        slot: Slot, r: nat, entries: seq<nat>)
    requires Sound(c, s, regions) && r < c.RegionCount() && Points(c, s, slot, r)
    requires regions[r].Dense? && Fits(c, Dense(entries))
    requires Reachable(live, self, directory, outside, s)
    ensures Descriptor(c, s, r) >= 2
    ensures var t := Overwritten(c, s, r, entries);
            && Sound(c, t, regions[r := Dense(entries)]) && Preserved(c, s, t, slot, r) && Reachable(live, self, directory, outside, t)
  {
    hide Present, LeafTotal, Shl, Shr, Low, Pow2, And, Or, Sound, Reachable;
    SoundFits(c, s, regions, r);
    TableWritten(c, s, regions, r, entries);
    var t := Overwritten(c, s, r, entries);
    DirectoryOnly(c, s, t);
    assert t.tables.Keys == s.tables.Keys;
    SameBlocks(live, self, directory, outside, s, t);
  }

  ghost function Collapsed(c: Config, s: Store, slot: Slot, r: nat, region: Region): Store
    requires r < c.RegionCount() && DirectoryShape(c, s) && Points(c, s, slot, r) && !region.Dense?
    requires Descriptor(c, s, r) >= 2
  {
    var u := WithoutTable(s, Descriptor(c, s, r) - 2);
    DirectoryOnly(c, s, u);
    Stored(c, u, slot, r, InlineWord(c, region))
  }

  lemma CollapseTransition(c: Config, live: set<nat>, self: nat, directory: nat, outside: set<nat>, s: Store, regions: seq<Region>,
                           slot: Slot, r: nat, region: Region)
    requires Sound(c, s, regions) && r < c.RegionCount() && Points(c, s, slot, r)
    requires regions[r].Dense? && !region.Dense? && Fits(c, region)
    requires Reachable(live, self, directory, outside, s)
    ensures Descriptor(c, s, r) >= 2
    ensures var p, t := Descriptor(c, s, r) - 2, Collapsed(c, s, slot, r, region);
            && Sound(c, t, regions[r := region]) && Preserved(c, s, t, slot, r)
            && p in live && Reachable(live - {p}, self, directory, outside, t)
  {
    hide Present, LeafTotal, Shl, Shr, Low, Pow2, And, Or, Sound, Reachable;
    SoundFits(c, s, regions, r);
    TableDropped(c, s, regions, slot, r, region);
    var p := Descriptor(c, s, r) - 2;
    var u := WithoutTable(s, p);
    TableFreedLedger(live, self, directory, outside, s, p);
    DirectoryOnly(c, s, u);
    StoredDescriptor(c, u, slot, r, InlineWord(c, region));
    StoredFrame(c, u, slot, r, InlineWord(c, region));
    SameBlocks(live - {p}, self, directory, outside, u, Stored(c, u, slot, r, InlineWord(c, region)));
  }
}
