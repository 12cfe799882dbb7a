/**
 The radix baseline: a three-level trie with a small cache of leaves, a two-level trie and a
 flat array, all maps from granules to handles. Blocks are named by pointers, so a cached leaf
 is the leaf of the trie itself.
 */
module Radix {
  import opened Bits
  import C = SizeClasses

  datatype Option<+T> = None | Some(value: T)

  datatype Config = Config(wordLog: nat, base: nat, managedSize: nat, granuleShift: nat) {
    function WordBits(): nat { Pow2(wordLog + 3) }
    function WordMax(): nat { Pow2(WordBits()) - 1 }
    function Invalid(): nat { WordMax() }
    function Count(): nat { Shr(managedSize, granuleShift) }

    /** baseline_config_valid. */
    predicate Legal() {
      && managedSize != 0 && granuleShift < WordBits() && base <= WordMax()
      && And(base, Pow2(granuleShift) - 1) == 0 && And(managedSize, Pow2(granuleShift) - 1) == 0
      && managedSize <= WordMax() - base && Count() != 0
    }

    /** baseline_index. */
    function Index(address: nat): Option<nat> {
      if address < base || address - base >= managedSize then None
      else if Shr(address - base, granuleShift) < Count() then Some(Shr(address - base, granuleShift)) else None
    }
  }

  /** Every managed address has an index; the last check of baseline_index never fails. */
  lemma IndexExact(c: Config, address: nat)
    requires c.Legal()
    ensures c.Index(address).Some? <==> c.base <= address < c.base + c.managedSize
    ensures c.Index(address).Some? ==> c.Index(address).value < c.Count()
  {
    hide Shl, Shr, Low, Pow2, And;
    if c.base <= address < c.base + c.managedSize {
      AndMask(c.managedSize, c.granuleShift);
      Split(c.managedSize, c.granuleShift);
      Split(address - c.base, c.granuleShift);
      ShlMono(c.Count(), Shr(address - c.base, c.granuleShift), c.granuleShift);
    }
  }

  /** The three lookups answer from one sequence of handles, one per granule. */
  function Answer(c: Config, contents: seq<nat>, address: nat): nat
    requires |contents| == c.Count()
  {
    match c.Index(address) case None => c.Invalid() case Some(i) => if i < |contents| then contents[i] else c.Invalid()
  }

  /** A successful set changes one granule. */
  function Updated(c: Config, contents: seq<nat>, address: nat, value: nat): (next: seq<nat>)
    requires |contents| == c.Count()
    ensures |next| == c.Count()
  {
    match c.Index(address) case None => contents case Some(i) => if i < |contents| then contents[i := value] else contents
  }

  /** The loop that counts the bits of an index. */
  method EntryBits(count: nat) returns (bits: nat)
    requires count > 0
    ensures bits == C.BitWidth(count - 1) && count <= Pow2(bits)
  {
    bits := 0;
    var value: nat := count - 1;
    while value != 0
      invariant bits + C.BitWidth(value) == C.BitWidth(count - 1)
    {
      bits := bits + 1;
      value := value / 2;
    }
    if count > 1 { C.BitWidthBounds(count - 1); }
  }

  // ----- flat

  class Flat {
    const c: Config
    var entries: seq<nat>

    ghost predicate Valid() reads this { c.Legal() && |entries| == c.Count() }

    constructor (c: Config)
      requires c.Legal()
      ensures Valid() && this.c == c && entries == seq(c.Count(), _ => c.Invalid())
    {
      this.c := c;
      entries := seq(c.Count(), _ => c.Invalid());
    }

    method Set(address: nat, value: nat) returns (ok: bool)
      requires Valid()
      modifies this
      ensures Valid() && ok == c.Index(address).Some? && entries == Updated(c, old(entries), address, value)
    {
      hide Shr, And, Pow2, Config.Legal;
      IndexExact(c, address);
      match c.Index(address)
      case None => ok := false;
      case Some(i) =>
        entries := entries[i := value];
        ok := true;
    }

    function Lookup(address: nat): (handle: nat)
      requires Valid()
      reads this
      ensures handle == Answer(c, entries, address)
    {
      match c.Index(address) case None => c.Invalid() case Some(i) => entries[i]
    }
  }

  // ----- a trie as pointers

  /** Leaf pointers by leaf key, and the leaves they name. */
  datatype Leaves = Leaves(bits: nat, pointers: seq<nat>, blocks: map<nat, seq<nat>>, owner: map<nat, nat>)

  ghost predicate Sound(t: Leaves) {
    forall k :: 0 <= k < |t.pointers| && t.pointers[k] != 0 ==> LeafAt(t, k)
  }

  /** The leaf of key k exists, has its size, and belongs to no other key. */
  ghost predicate LeafAt(t: Leaves, k: nat)
    requires k < |t.pointers|
  {
    var p := t.pointers[k];
    p in t.blocks && |t.blocks[p]| == Pow2(t.bits) && p in t.owner && t.owner[p] == k
  }

  /** The handle of entry i. */
  function Entry(t: Leaves, invalid: nat, i: nat): nat {
    var k := Shr(i, t.bits);
    if k >= |t.pointers| || t.pointers[k] == 0 || t.pointers[k] !in t.blocks then invalid
    else
      var leaf := t.blocks[t.pointers[k]];
      if Low(i, t.bits) < |leaf| then leaf[Low(i, t.bits)] else invalid
  }

  function Contents(t: Leaves, invalid: nat, count: nat): seq<nat> { seq(count, i requires 0 <= i < count => Entry(t, invalid, i)) }

  lemma LowBound(i: nat, n: nat)
    ensures Low(i, n) < Pow2(n)
  {
  }

  function Written(t: Leaves, p: nat, offset: nat, value: nat): Leaves
    requires p in t.blocks && offset < |t.blocks[p]|
  {
    var leaf: seq<nat> := t.blocks[p][offset := value];
    t.(blocks := t.blocks[p := leaf])
  }

  /** Writing one slot of an existing leaf changes one entry. */
  lemma WriteEntry(t: Leaves, invalid: nat, count: nat, i: nat, value: nat)
    requires Sound(t) && i < count && Shr(i, t.bits) < |t.pointers| && t.pointers[Shr(i, t.bits)] != 0
    ensures var p := t.pointers[Shr(i, t.bits)];
            && p in t.blocks && Low(i, t.bits) < |t.blocks[p]|
            && var next := Written(t, p, Low(i, t.bits), value);
            && Sound(next) && Contents(next, invalid, count) == Contents(t, invalid, count)[i := value]
  {
    hide Shr, Low, Pow2;
    var key := Shr(i, t.bits);
    var p := t.pointers[key];
    assert LeafAt(t, key);
    LowBound(i, t.bits);
    var next := Written(t, p, Low(i, t.bits), value);
    forall k | 0 <= k < |next.pointers| && next.pointers[k] != 0
      ensures LeafAt(next, k)
    {
      assert LeafAt(t, k);
    }
    forall j | 0 <= j < count
      ensures Entry(next, invalid, j) == if j == i then value else Entry(t, invalid, j)
    {
      SameSlot(t.bits, i, j);
      var k := Shr(j, t.bits);
      if k < |t.pointers| && t.pointers[k] != 0 { assert LeafAt(t, k); }
    }
  }

  lemma SameSlot(bits: nat, i: nat, j: nat)
    ensures Shr(i, bits) == Shr(j, bits) && Low(i, bits) == Low(j, bits) ==> i == j
  {
    Split(i, bits);
    Split(j, bits);
  }

  /** A new leaf full of invalid handles changes no entry. */
  function WithLeaf(t: Leaves, key: nat, p: nat, invalid: nat): Leaves
    requires key < |t.pointers|
  {
    t.(pointers := t.pointers[key := p], blocks := t.blocks[p := seq(Pow2(t.bits), _ => invalid)], owner := t.owner[p := key])
  }

  lemma NewLeaf(t: Leaves, invalid: nat, count: nat, key: nat, p: nat)
    requires Sound(t) && key < |t.pointers| && t.pointers[key] == 0 && p != 0 && p !in t.blocks
    ensures var next := WithLeaf(t, key, p, invalid);
            && Sound(next) && Contents(next, invalid, count) == Contents(t, invalid, count)
            && (forall k :: 0 <= k < |t.pointers| && t.pointers[k] != 0 ==> next.pointers[k] == t.pointers[k])
  {
    hide Shr, Low, Pow2;
    var next := WithLeaf(t, key, p, invalid);
    forall k | 0 <= k < |next.pointers| && next.pointers[k] != 0
      ensures LeafAt(next, k)
    {
      if k != key { assert LeafAt(t, k); }
    }
    forall j | 0 <= j < count
      ensures Entry(next, invalid, j) == Entry(t, invalid, j)
    {
      var k := Shr(j, t.bits);
      if k < |t.pointers| && t.pointers[k] != 0 { assert LeafAt(t, k); }
    }
  }

  // ----- two levels

  class TwoLevel {
    const c: Config
    const leafBits: nat
    var root: seq<nat>
    var leaves: map<nat, seq<nat>>
    ghost var owner: map<nat, nat>
    ghost var failures: nat

    ghost function Tree(): Leaves reads this { Leaves(leafBits, root, leaves, owner) }

    ghost predicate Valid() reads this {
      c.Legal() && Sound(Tree()) && forall i: nat :: i < c.Count() ==> Shr(i, leafBits) < |root|
    }

    ghost function Entries(): (s: seq<nat>)
      reads this
      ensures |s| == c.Count()
    {
      Contents(Tree(), c.Invalid(), c.Count())
    }

    /** baseline_two_level_create once the entry bits are known. */
    constructor (c: Config, entryBits: nat)
      requires c.Legal() && c.Count() <= Pow2(entryBits)
      ensures Valid() && this.c == c && Entries() == seq(c.Count(), _ => c.Invalid())
    {
      hide Shr, Pow2, And, Config.Legal;
      this.c, leafBits := c, entryBits / 2;
      root := seq(Ceiling(c.Count(), entryBits / 2), _ => 0);
      leaves, owner, failures := map[], map[], 0;
      new;
      forall i: nat | i < c.Count()
        ensures Shr(i, leafBits) < |root|
      {
        CeilingCovers(c.Count(), leafBits, i);
      }
    }

    method Set(address: nat, value: nat) returns (ok: bool)
      requires Valid()
      modifies this
      ensures Valid() && (ok <==> c.Index(address).Some? && failures == old(failures)) && failures >= old(failures)
      ensures Entries() == if ok then Updated(c, old(Entries()), address, value) else old(Entries())
    {
      hide Shr, Low, And, Pow2, Config.Legal, Contents, Sound;
      IndexExact(c, address);
      if c.Index(address).None? { return false; }
      var i := c.Index(address).value;
      var rootIndex := Shr(i, leafBits);
      AndMask(i, leafBits);
      var leafIndex := And(i, Pow2(leafBits) - 1);
      if root[rootIndex] == 0 {
        var p: nat := *;
        if p == 0 || p in leaves {
          failures := failures + 1;
          return false;
        }
        NewLeaf(Tree(), c.Invalid(), c.Count(), rootIndex, p);
        root := root[rootIndex := p];
        leaves := leaves[p := seq(Pow2(leafBits), _ => c.Invalid())];
        owner := owner[p := rootIndex];
      }
      WriteEntry(Tree(), c.Invalid(), c.Count(), i, value);
      var leaf: seq<nat> := leaves[root[rootIndex]][leafIndex := value];
      leaves := leaves[root[rootIndex] := leaf];
      ok := true;
    }

    method Lookup(address: nat) returns (handle: nat)
      requires Valid()
      ensures handle == Answer(c, Entries(), address)
    {
      hide Shr, Low, And, Pow2, Config.Legal;
      IndexExact(c, address);
      if c.Index(address).None? { return c.Invalid(); }
      var i := c.Index(address).value;
      AndMask(i, leafBits);
      var rootIndex, leafIndex := Shr(i, leafBits), And(i, Pow2(leafBits) - 1);
      if root[rootIndex] == 0 { return c.Invalid(); }
      assert LeafAt(Tree(), rootIndex);
      LowBound(i, leafBits);
      return leaves[root[rootIndex]][leafIndex];
    }
  }

  /** (count + 2^n - 1) / 2^n. */
  function Ceiling(count: nat, n: nat): nat { Shr(count + Pow2(n) - 1, n) }

  lemma CeilingCovers(count: nat, n: nat, i: nat)
    requires i < count
    ensures Shr(i, n) < Ceiling(count, n)
  {
    hide Shl, Shr, Low, Pow2;
    var x := count + Pow2(n) - 1;
    Split(x, n);
    Split(i, n);
    LowBound(x, n);
    ShlAdd(Shr(x, n), 1, n);
    ShlOne(n);
    ShlMono(Shr(i, n), Shr(x, n), n);
    ShlMono(Shr(i, n) + 1, Shr(x, n), n);
    ShlAdd(Shr(i, n), 1, n);
    ShlMono(Shr(x, n), Shr(i, n), n);
  }

  // ----- three levels

  /** Leaf pointer of a key in the two upper levels. */
  function PointerAt(root: seq<nat>, middles: map<nat, seq<nat>>, middleBits: nat, key: nat): nat {
    var r := Shr(key, middleBits);
    if r >= |root| || root[r] == 0 || root[r] !in middles then 0
    else if Low(key, middleBits) < |middles[root[r]]| then middles[root[r]][Low(key, middleBits)] else 0
  }

  function PointersOf(root: seq<nat>, middles: map<nat, seq<nat>>, middleBits: nat, keys: nat): seq<nat> {
    seq(keys, k requires 0 <= k < keys => PointerAt(root, middles, middleBits, k))
  }

  /** Every middle block exists, has its size, and hangs from one root slot. */
  ghost predicate Hung(root: seq<nat>, middles: map<nat, seq<nat>>, middleBits: nat, owner: map<nat, nat>) {
    forall r :: 0 <= r < |root| && root[r] != 0 ==> MiddleAt(root, middles, middleBits, owner, r)
  }

  ghost predicate MiddleAt(root: seq<nat>, middles: map<nat, seq<nat>>, middleBits: nat, owner: map<nat, nat>, r: nat)
    requires r < |root|
  {
    root[r] in middles && |middles[root[r]]| == Pow2(middleBits) && root[r] in owner && owner[root[r]] == r
  }

  function EmptyMiddle(middleBits: nat): seq<nat> { seq(Pow2(middleBits), _ => 0) }

  /** Hanging an empty middle block shows no leaf. */
  lemma NewMiddle(root: seq<nat>, middles: map<nat, seq<nat>>, middleBits: nat, owner: map<nat, nat>, keys: nat, r: nat, p: nat)
    requires Hung(root, middles, middleBits, owner) && r < |root| && root[r] == 0 && p != 0 && p !in middles
    ensures var root' := root[r := p]; var middles' := middles[p := EmptyMiddle(middleBits)];
            && Hung(root', middles', middleBits, owner[p := r])
            && PointersOf(root', middles', middleBits, keys) == PointersOf(root, middles, middleBits, keys)
  {
    hide Shr, Low, Pow2;
    var root', middles', owner' := root[r := p], middles[p := EmptyMiddle(middleBits)], owner[p := r];
    forall q | 0 <= q < |root'| && root'[q] != 0
      ensures MiddleAt(root', middles', middleBits, owner', q)
    {
      if q != r { assert MiddleAt(root, middles, middleBits, owner, q); }
    }
    forall k | 0 <= k < keys
      ensures PointerAt(root', middles', middleBits, k) == PointerAt(root, middles, middleBits, k)
    {
      var q := Shr(k, middleBits);
      if q < |root| && root[q] != 0 { assert MiddleAt(root, middles, middleBits, owner, q); }
    }
  }

  function Linked(middles: map<nat, seq<nat>>, m: nat, slot: nat, p: nat): map<nat, seq<nat>>
    requires m in middles && slot < |middles[m]|
  {
    var block: seq<nat> := middles[m][slot := p];
    middles[m := block]
  }

  /** Storing a leaf pointer changes the pointer of one key. */
  lemma LinkLeaf(root: seq<nat>, middles: map<nat, seq<nat>>, middleBits: nat, owner: map<nat, nat>, keys: nat, key: nat, p: nat)
    requires Hung(root, middles, middleBits, owner) && key < keys && Shr(key, middleBits) < |root| && root[Shr(key, middleBits)] != 0
    ensures var m := root[Shr(key, middleBits)];
            && m in middles && Low(key, middleBits) < |middles[m]|
            && var next := Linked(middles, m, Low(key, middleBits), p);
            && Hung(root, next, middleBits, owner)
            && PointersOf(root, next, middleBits, keys) == PointersOf(root, middles, middleBits, keys)[key := p]
  {
    hide Shr, Low, Pow2;
    var r := Shr(key, middleBits);
    var m := root[r];
    assert MiddleAt(root, middles, middleBits, owner, r);
    LowBound(key, middleBits);
    var next := Linked(middles, m, Low(key, middleBits), p);
    forall q | 0 <= q < |root| && root[q] != 0
      ensures MiddleAt(root, next, middleBits, owner, q)
    {
      assert MiddleAt(root, middles, middleBits, owner, q);
    }
    forall k | 0 <= k < keys
      ensures PointerAt(root, next, middleBits, k) == if k == key then p else PointerAt(root, middles, middleBits, k)
    {
      SameSlot(middleBits, key, k);
      var q := Shr(k, middleBits);
      if q < |root| && root[q] != 0 { assert MiddleAt(root, middles, middleBits, owner, q); }
    }
  }

  // ----- the cache

  datatype CacheEntry = CacheEntry(key: nat, leaf: nat)

  /** Slot of a leaf key. */
  function SlotOf(key: nat): (slot: nat)
    ensures slot < 16
  {
    assert Pow2(4) == 16;
    AndMask(key, 4);
    LowBound(key, 4);
    And(key, 15)
  }

  /** Cached leaves are the trie's own. */
  ghost predicate CacheSound(entries: seq<CacheEntry>, pointers: seq<nat>) {
    && |entries| == 16
    && forall s :: 0 <= s < 16 && entries[s].leaf != 0 ==> entries[s].key < |pointers| && pointers[entries[s].key] == entries[s].leaf
  }

  class Cache {
    var entries: seq<CacheEntry>

    /** baseline_radix_cache_init. */
    constructor (c: Config)
      ensures |entries| == 16 && forall s :: 0 <= s < 16 ==> entries[s].leaf == 0
    {
      entries := seq(16, _ => CacheEntry(c.WordMax(), 0));
    }
  }

  class Trie {
    const c: Config
    const leafBits: nat
    const middleBits: nat
    const rootBits: nat
    var root: seq<nat>
    var middles: map<nat, seq<nat>>
    var leaves: map<nat, seq<nat>>
    ghost var owner: map<nat, nat>
    ghost var middleOwner: map<nat, nat>
    ghost var failures: nat

    ghost function Keys(): nat { Pow2(rootBits + middleBits) }

    ghost function Pointers(): (s: seq<nat>)
      reads this
      ensures |s| == Keys()
    {
      PointersOf(root, middles, middleBits, Keys())
    }

    ghost function Tree(): Leaves reads this { Leaves(leafBits, Pointers(), leaves, owner) }

    ghost predicate Valid() reads this {
      && c.Legal() && c.Count() <= Pow2(rootBits + middleBits + leafBits) && |root| == Pow2(rootBits)
      && Hung(root, middles, middleBits, middleOwner) && Sound(Tree())
    }

    ghost function Entries(): (s: seq<nat>)
      reads this
      ensures |s| == c.Count()
    {
      Contents(Tree(), c.Invalid(), c.Count())
    }

    /** baseline_radix_create once the index bits are known. */
    constructor (c: Config, bits: nat)
      requires c.Legal() && c.Count() <= Pow2(bits)
      ensures Valid() && this.c == c && Entries() == seq(c.Count(), _ => c.Invalid())
      ensures forall k :: 0 <= k < |Pointers()| ==> Pointers()[k] == 0
    {
      hide Shr, Low, Pow2, And, Config.Legal;
      this.c, leafBits, middleBits := c, bits / 3, bits / 3;
      rootBits := bits - bits / 3 - bits / 3;
      root := seq(Pow2(bits - bits / 3 - bits / 3), _ => 0);
      middles, leaves, owner, middleOwner := map[], map[], map[], map[];
      failures := 0;
    }

    /** baseline_radix_indices: the levels of an address; the final bound check never fails. */
    lemma Levels(i: nat)
      requires i < c.Count() && c.Count() <= Pow2(rootBits + middleBits + leafBits)
      ensures var key := Shr(i, leafBits);
              && key < Keys() && Shr(key, middleBits) < Pow2(rootBits)
              && Shr(i, leafBits + middleBits) == Shr(key, middleBits)
              && And(i, Pow2(leafBits) - 1) == Low(i, leafBits)
              && And(key, Pow2(middleBits) - 1) == Low(key, middleBits)
    {
      hide Shl, Shr, Low, Pow2, And;
      var key := Shr(i, leafBits);
      ShrShr(i, leafBits, middleBits);
      AndMask(i, leafBits);
      AndMask(key, middleBits);
      Quotient(i, rootBits + middleBits, leafBits);
      Quotient(key, rootBits, middleBits);
    }

    /** baseline_radix_set: a failed allocation leaves every entry as it was. */
    method Set(address: nat, value: nat) returns (ok: bool)
      requires Valid()
      modifies this
      ensures Valid() && (ok <==> c.Index(address).Some? && failures == old(failures)) && failures >= old(failures)
      ensures Entries() == if ok then Updated(c, old(Entries()), address, value) else old(Entries())
      ensures forall k :: 0 <= k < Keys() && old(Pointers())[k] != 0 ==> Pointers()[k] == old(Pointers())[k]
    {
      hide Shr, Low, And, Pow2, Config.Legal, Contents, Sound, Hung, PointersOf;
      IndexExact(c, address);
      if c.Index(address).None? { return false; }
      var i := c.Index(address).value;
      Levels(i);
      var leafIndex := And(i, Pow2(leafBits) - 1);
      var middleIndex := And(Shr(i, leafBits), Pow2(middleBits) - 1);
      var rootIndex := Shr(i, leafBits + middleBits);
      var ready := PrepareMiddle(rootIndex);
      if !ready { return false; }
      ready := PrepareLeaf(rootIndex, middleIndex, Shr(i, leafBits));
      if !ready { return false; }
      WriteEntry(Tree(), c.Invalid(), c.Count(), i, value);
      PointerIs(root, middles, middleBits, middleOwner, Keys(), Shr(i, leafBits));
      var p := middles[root[rootIndex]][middleIndex];
      var leaf: seq<nat> := leaves[p][leafIndex := value];
      leaves := leaves[p := leaf];
      ok := true;
    }

    /** The middle block of a root slot, allocated empty when missing. */
    method PrepareMiddle(rootIndex: nat) returns (ready: bool)
      requires Valid() && rootIndex < |root|
      modifies this`root, this`middles, this`middleOwner, this`failures
      ensures Valid() && Pointers() == old(Pointers()) && Entries() == old(Entries()) && |root| == old(|root|)
      ensures ready ==> root[rootIndex] != 0 && failures == old(failures)
      ensures !ready ==> failures == old(failures) + 1
    {
      hide Shr, Low, And, Pow2, Config.Legal, Contents, Sound, Hung, PointersOf;
      if root[rootIndex] == 0 {
        var p: nat := *;
        var arrayGranted: bool := *;
        if p == 0 || p in middles || !arrayGranted {
          failures := failures + 1;
          return false;
        }
        NewMiddle(root, middles, middleBits, middleOwner, Keys(), rootIndex, p);
        middles := middles[p := EmptyMiddle(middleBits)];
        root := root[rootIndex := p];
        middleOwner := middleOwner[p := rootIndex];
      }
      ready := true;
    }

    /** The leaf of a middle slot, allocated full of invalid handles when missing. */
    method PrepareLeaf(rootIndex: nat, middleIndex: nat, ghost key: nat) returns (ready: bool)
      requires Valid() && rootIndex < |root| && root[rootIndex] != 0
      requires key < Keys() && rootIndex == Shr(key, middleBits) && middleIndex == Low(key, middleBits)
      modifies this`middles, this`leaves, this`owner, this`failures
      ensures Valid() && Entries() == old(Entries())
      ensures forall k :: 0 <= k < Keys() && old(Pointers())[k] != 0 ==> Pointers()[k] == old(Pointers())[k]
      ensures ready ==> Pointers()[key] != 0 && failures == old(failures)
      ensures !ready ==> failures == old(failures) + 1
    {
      hide Shr, Low, And, Pow2, Config.Legal, Contents, Sound, Hung, PointersOf;
      PointerIs(root, middles, middleBits, middleOwner, Keys(), key);
      if middles[root[rootIndex]][middleIndex] == 0 {
        var p: nat := *;
        if p == 0 || p in leaves {
          failures := failures + 1;
          return false;
        }
        NewLeaf(Tree(), c.Invalid(), c.Count(), key, p);
        LinkLeaf(root, middles, middleBits, middleOwner, Keys(), key, p);
        middles := Linked(middles, root[rootIndex], middleIndex, p);
        leaves := leaves[p := seq(Pow2(leafBits), _ => c.Invalid())];
        owner := owner[p := key];
      }
      ready := true;
    }

    /** baseline_radix_lookup. */
    method Lookup(address: nat) returns (handle: nat)
      requires Valid()
      ensures handle == Answer(c, Entries(), address)
    {
      hide Shr, Low, And, Pow2, Config.Legal, Sound, Hung;
      IndexExact(c, address);
      if c.Index(address).None? { return c.Invalid(); }
      var i := c.Index(address).value;
      Levels(i);
      var rootIndex := Shr(i, leafBits + middleBits);
      if root[rootIndex] == 0 { return c.Invalid(); }
      PointerIs(root, middles, middleBits, middleOwner, Keys(), Shr(i, leafBits));
      var p := middles[root[rootIndex]][And(Shr(i, leafBits), Pow2(middleBits) - 1)];
      if p == 0 { return c.Invalid(); }
      LeafIs(Tree(), Shr(i, leafBits), i);
      handle := leaves[p][And(i, Pow2(leafBits) - 1)];
    }

    /** baseline_radix_cached_lookup: answers as the uncached lookup, hit or miss, and keeps the cache sound. */
    method CachedLookup(cache: Cache, address: nat) returns (handle: nat)
      requires Valid() && CacheSound(cache.entries, Pointers())
      modifies cache
      ensures handle == Answer(c, Entries(), address) && CacheSound(cache.entries, Pointers())
    {
      hide Shr, Low, And, Pow2, Config.Legal, Sound, Hung, PointersOf;
      IndexExact(c, address);
      if c.Index(address).None? { return c.Invalid(); }
      var i := c.Index(address).value;
      Levels(i);
      var leafIndex := And(i, Pow2(leafBits) - 1);
      var key := Shr(i, leafBits);
      var slot := SlotOf(key);
      if cache.entries[slot].key == key && cache.entries[slot].leaf != 0 {
        LeafIs(Tree(), key, i);
        return leaves[cache.entries[slot].leaf][leafIndex];
      }
      var rootIndex := Shr(i, leafBits + middleBits);
      PointerIs(root, middles, middleBits, middleOwner, Keys(), key);
      var leaf := if root[rootIndex] == 0 then 0 else middles[root[rootIndex]][And(Shr(i, leafBits), Pow2(middleBits) - 1)];
      if leaf == 0 { return c.Invalid(); }
      LeafIs(Tree(), key, i);
      handle := leaves[leaf][leafIndex];
      cache.entries := cache.entries[slot := CacheEntry(key, leaf)];
    }
  }

  datatype Op = SetOp(address: nat, value: nat) | LookupOp(address: nat)

  function Lookups(ops: seq<Op>): nat {
    if ops == [] then 0 else Lookups(ops[..|ops| - 1]) + if ops[|ops| - 1].LookupOp? then 1 else 0
  }

  datatype Seen = Seen(cached: nat, uncached: nat, twoLevel: nat, flat: nat)

  /**
   Any interleaving of sets and lookups on the four maps, where the flat and the two-level map
   repeat the sets the trie accepted: the cached trie, the trie and the flat map always agree,
   and so does the two-level map while none of its own allocations fails.
   */
  method RunAll(c: Config, ops: seq<Op>) returns (seen: seq<Seen>, ghost twoLevelFailures: nat)
    requires c.Legal()
    ensures |seen| == Lookups(ops)
    ensures forall i :: 0 <= i < |seen| ==> seen[i].cached == seen[i].uncached == seen[i].flat
    ensures twoLevelFailures == 0 ==> forall i :: 0 <= i < |seen| ==> seen[i].twoLevel == seen[i].flat
  {
    hide Shr, Low, And, Pow2, Config.Legal, Trie.Valid, TwoLevel.Valid, Trie.Entries, TwoLevel.Entries, Trie.Pointers, CacheSound, Updated, Answer;
    seen := [];
    CountPositive(c);
    var bits := EntryBits(c.Count());
    var flat := new Flat(c);
    var two := new TwoLevel(c, bits);
    var trie := new Trie(c, bits);
    var cache := new Cache(c);
    CacheStarts(cache.entries, trie.Pointers());
    ghost var start := two.failures;
    for n := 0 to |ops|
      invariant flat.Valid() && two.Valid() && trie.Valid() && flat.c == c && two.c == c && trie.c == c
      invariant fresh(flat) && fresh(two) && fresh(trie) && fresh(cache)
      invariant CacheSound(cache.entries, trie.Pointers()) && trie.Entries() == flat.entries
      invariant two.failures >= start && (two.failures == start ==> two.Entries() == flat.entries)
      invariant |seen| == Lookups(ops[..n]) && forall i :: 0 <= i < |seen| ==> seen[i].cached == seen[i].uncached == seen[i].flat
      invariant two.failures == start ==> forall i :: 0 <= i < |seen| ==> seen[i].twoLevel == seen[i].flat
    {
      assert ops[..n + 1][..n] == ops[..n];
      match ops[n]
      case SetOp(address, value) =>
        ghost var before := trie.Pointers();
        var ok := trie.Set(address, value);
        CacheSurvives(cache.entries, before, trie.Pointers());
        if ok {
          var flatOk := flat.Set(address, value);
          var twoOk := two.Set(address, value);
        }
      case LookupOp(address) =>
        var cached := trie.CachedLookup(cache, address);
        var uncached := trie.Lookup(address);
        var other := two.Lookup(address);
        seen := seen + [Seen(cached, uncached, other, flat.Lookup(address))];
    }
    assert ops[..|ops|] == ops;
    twoLevelFailures := two.failures - start;
  }

  lemma CountPositive(c: Config)
    requires c.Legal()
    ensures c.Count() > 0
  {
  }

  lemma CacheStarts(entries: seq<CacheEntry>, pointers: seq<nat>)
    requires |entries| == 16 && forall s :: 0 <= s < 16 ==> entries[s].leaf == 0
    ensures CacheSound(entries, pointers)
  {
  }

  /** Sets never move or free a leaf, so a cache stays sound. */
  lemma CacheSurvives(entries: seq<CacheEntry>, before: seq<nat>, after: seq<nat>)
    requires CacheSound(entries, before) && |after| == |before|
    requires forall k :: 0 <= k < |before| && before[k] != 0 ==> after[k] == before[k]
    ensures CacheSound(entries, after)
  {
  }

  lemma Quotient(i: nat, high: nat, low: nat)
    requires i < Pow2(high + low)
    ensures Shr(i, low) < Pow2(high)
  {
    hide Shl, Shr, Low, Pow2;
    Split(i, low);
    Pow2Add(high, low);
    ShlMono(Pow2(high), Shr(i, low), low);
  }

  /** The pointer of a key is what the two upper levels hold. */
  lemma PointerIs(root: seq<nat>, middles: map<nat, seq<nat>>, middleBits: nat, owner: map<nat, nat>, keys: nat, key: nat)
    requires Hung(root, middles, middleBits, owner) && key < keys && Shr(key, middleBits) < |root|
    ensures var m := root[Shr(key, middleBits)];
            && (m == 0 ==> PointersOf(root, middles, middleBits, keys)[key] == 0)
            && (m != 0 ==> m in middles && Low(key, middleBits) < |middles[m]|
                           && PointersOf(root, middles, middleBits, keys)[key] == middles[m][Low(key, middleBits)])
  {
    hide Shr, Low, Pow2;
    var r := Shr(key, middleBits);
    LowBound(key, middleBits);
    if root[r] != 0 { assert MiddleAt(root, middles, middleBits, owner, r); }
  }

  lemma LeafIs(t: Leaves, key: nat, i: nat)
    requires Sound(t) && key == Shr(i, t.bits) && key < |t.pointers| && t.pointers[key] != 0
    ensures t.pointers[key] in t.blocks && Low(i, t.bits) < |t.blocks[t.pointers[key]]|
    ensures forall invalid :: Entry(t, invalid, i) == t.blocks[t.pointers[key]][Low(i, t.bits)]
  {
    hide Shr, Low, Pow2;
    assert LeafAt(t, key);
    LowBound(i, t.bits);
  }
}
