/**
 The oracle of the trace validator: an open-addressing table with tombstones and linear
 probing. As long as one slot is EMPTY it is a finite map from granule addresses to entries.
 The hash function is arbitrary.
 */
module LifecycleTable {
  import opened Bits
  import opened TraceModel

  datatype SlotState = SlotEmpty | SlotLive | SlotTombstone

  datatype Slot = Slot(granule: nat, handle: nat, state: SlotState, retired: bool)

  // ----- the probe sequence

  /** Position visited after d steps from a start position, in a table of 2^bits slots. */
  function Probe(start: nat, d: nat, bits: nat): (position: nat)
    ensures position < Pow2(bits)
  {
    Low(start + d, bits)
  }

  lemma ProbeNext(start: nat, d: nat, bits: nat)
    ensures And(Probe(start, d, bits) + 1, Pow2(bits) - 1) == Probe(start, d + 1, bits)
  {
    AndMask(Probe(start, d, bits) + 1, bits);
    LowSum(start + d, 1, bits);
  }

  /** Reducing first does not change the sum. */
  lemma LowSum(x: nat, y: nat, n: nat)
    ensures Low(Low(x, n) + y, n) == Low(x + y, n)
  {
    Split(x, n);
    Unsplit(Shr(x, n), 0, n);
    AddAligned(Shl(Shr(x, n), n), Low(x, n) + y, n);
  }

  /** One lap visits every position. */
  lemma ProbeCovers(start: nat, position: nat, bits: nat) returns (d: nat)
    requires position < Pow2(bits)
    ensures d < Pow2(bits) && Probe(start, d, bits) == position
  {
    var s := Low(start, bits);
    d := if position >= s then position - s else position + Pow2(bits) - s;
    LowSum(start, d, bits);
    LowSmall(position, bits);
    if position < s {
      ShlOne(bits);
      Unsplit(1, position, bits);
    }
  }

  // ----- slots as values

  type Depths = map<nat, nat>

  /** Key k sits at depth depths[k] of its probe sequence, and no slot before it is EMPTY. */
  ghost predicate Placed(slots: seq<Slot>, hash: nat -> nat, bits: nat, depths: Depths, k: nat)
    requires |slots| == Pow2(bits) && k in depths
  {
    && depths[k] < Pow2(bits)
    && slots[Probe(hash(k), depths[k], bits)].state.SlotLive? && slots[Probe(hash(k), depths[k], bits)].granule == k
    && forall e: nat :: e < depths[k] ==> !slots[Probe(hash(k), e, bits)].state.SlotEmpty?
  }

  ghost predicate Known(slots: seq<Slot>, hash: nat -> nat, bits: nat, depths: Depths, i: nat)
    requires |slots| == Pow2(bits) && i < |slots|
  {
    slots[i].state.SlotLive? ==> slots[i].granule in depths && Probe(hash(slots[i].granule), depths[slots[i].granule], bits) == i
  }

  ghost predicate TableSound(slots: seq<Slot>, hash: nat -> nat, bits: nat, depths: Depths) {
    && |slots| == Pow2(bits)
    && (forall k :: k in depths ==> Placed(slots, hash, bits, depths, k))
    && (forall i: nat :: i < |slots| ==> Known(slots, hash, bits, depths, i))
  }

  ghost function ContentsOf(slots: seq<Slot>, hash: nat -> nat, bits: nat, depths: Depths): Live
    requires |slots| == Pow2(bits)
  {
    map k | k in depths :: Entry(slots[Probe(hash(k), depths[k], bits)].handle, slots[Probe(hash(k), depths[k], bits)].retired)
  }

  function UsedCount(slots: seq<Slot>): nat {
    if slots == [] then 0 else UsedCount(slots[1..]) + (if slots[0].state.SlotEmpty? then 0 else 1)
  }

  lemma {:induction false} UsedUpdate(slots: seq<Slot>, i: nat, slot: Slot)
    requires i < |slots|
    ensures UsedCount(slots[i := slot]) + (if slots[i].state.SlotEmpty? then 0 else 1)
         == UsedCount(slots) + (if slot.state.SlotEmpty? then 0 else 1)
  {
    if i == 0 {
      assert slots[0 := slot][1..] == slots[1..];
    } else {
      assert slots[i := slot][1..] == slots[1..][i - 1 := slot];
      UsedUpdate(slots[1..], i - 1, slot);
    }
  }

  lemma {:induction false} SomeEmpty(slots: seq<Slot>) returns (i: nat)
    requires UsedCount(slots) < |slots|
    ensures i < |slots| && slots[i].state.SlotEmpty?
  {
    if slots[0].state.SlotEmpty? {
      i := 0;
    } else {
      i := SomeEmpty(slots[1..]);
      i := i + 1;
    }
  }

  lemma {:induction false} UnusedCount(n: nat, slot: Slot)
    requires slot.state.SlotEmpty?
    ensures UsedCount(seq(n, _ => slot)) == 0
  {
    if n > 0 {
      assert seq(n, _ => slot)[1..] == seq(n - 1, _ => slot);
      UnusedCount(n - 1, slot);
    }
  }

  /** Putting a key that is not live into a slot its probe reaches without crossing an EMPTY one. */
  lemma SlotFilled(slots: seq<Slot>, hash: nat -> nat, bits: nat, depths: Depths, k: nat, d: nat, handle: nat)
    requires TableSound(slots, hash, bits, depths) && k !in depths && d < Pow2(bits)
    requires !slots[Probe(hash(k), d, bits)].state.SlotLive?
    requires forall e: nat :: e < d ==> !slots[Probe(hash(k), e, bits)].state.SlotEmpty?
    ensures var after, depths' := slots[Probe(hash(k), d, bits) := Slot(k, handle, SlotLive, false)], depths[k := d];
            && TableSound(after, hash, bits, depths')
            && ContentsOf(after, hash, bits, depths') == ContentsOf(slots, hash, bits, depths)[k := Entry(handle, false)]
  {
    hide Probe;
    var p := Probe(hash(k), d, bits);
    var after, depths' := slots[p := Slot(k, handle, SlotLive, false)], depths[k := d];
    forall q | q in depths'
      ensures Placed(after, hash, bits, depths', q)
    {
      if q != k { assert Placed(slots, hash, bits, depths, q); }
    }
    forall i: nat | i < |after|
      ensures Known(after, hash, bits, depths', i)
    {
      assert Known(slots, hash, bits, depths, i);
    }
  }

  /** A live slot turned into a tombstone: its key is gone, and no probe path is cut. */
  lemma SlotEntombed(slots: seq<Slot>, hash: nat -> nat, bits: nat, depths: Depths, k: nat)
    requires TableSound(slots, hash, bits, depths) && k in depths
    ensures Probe(hash(k), depths[k], bits) < |slots|
    ensures var p := Probe(hash(k), depths[k], bits);
            var after := slots[p := slots[p].(state := SlotTombstone, retired := false)];
            && TableSound(after, hash, bits, depths - {k})
            && ContentsOf(after, hash, bits, depths - {k}) == ContentsOf(slots, hash, bits, depths) - {k}
  {
    hide Probe;
    var p := Probe(hash(k), depths[k], bits);
    var after, depths' := slots[p := slots[p].(state := SlotTombstone, retired := false)], depths - {k};
    assert Placed(slots, hash, bits, depths, k);
    forall q | q in depths'
      ensures Placed(after, hash, bits, depths', q)
    {
      assert Placed(slots, hash, bits, depths, q);
    }
    forall i: nat | i < |after|
      ensures Known(after, hash, bits, depths', i)
    {
      assert Known(slots, hash, bits, depths, i);
    }
  }

  /** Marking a live slot as retired. */
  lemma SlotRetired(slots: seq<Slot>, hash: nat -> nat, bits: nat, depths: Depths, k: nat)
    requires TableSound(slots, hash, bits, depths) && k in depths
    ensures Probe(hash(k), depths[k], bits) < |slots|
    ensures var p := Probe(hash(k), depths[k], bits);
            var after := slots[p := slots[p].(retired := true)];
            && TableSound(after, hash, bits, depths)
            && ContentsOf(after, hash, bits, depths)
               == ContentsOf(slots, hash, bits, depths)[k := Entry(ContentsOf(slots, hash, bits, depths)[k].handle, true)]
  {
    hide Probe;
    var p := Probe(hash(k), depths[k], bits);
    var after := slots[p := slots[p].(retired := true)];
    assert Placed(slots, hash, bits, depths, k);
    forall q | q in depths
      ensures Placed(after, hash, bits, depths, q)
    {
      assert Placed(slots, hash, bits, depths, q);
    }
    forall i: nat | i < |after|
      ensures Known(after, hash, bits, depths, i)
    {
      assert Known(slots, hash, bits, depths, i);
    }
  }

  // ----- the table

  class Table {
    const bits: nat
    const hash: nat -> nat
    const slots: array<Slot>
    var liveCount: nat
    ghost var depths: Depths

    ghost predicate Valid()
      reads this, slots
    {
      TableSound(slots[..], hash, bits, depths) && liveCount == |depths|
    }

    ghost function Contents(): Live
      requires Valid()
      reads this, slots
    {
      ContentsOf(slots[..], hash, bits, depths)
    }

    ghost function Used(): nat
      reads this, slots
    {
      UsedCount(slots[..])
    }

    constructor (bits: nat, hash: nat -> nat)
      ensures Valid() && fresh(slots) && this.bits == bits && this.hash == hash
      ensures Contents() == map[] && Used() == 0
    {
      this.bits, this.hash := bits, hash;
      var blank := Slot(0, 0, SlotEmpty, false);
      slots := new Slot[Pow2(bits)](_ => blank);
      liveCount := 0;
      depths := map[];
      new;
      assert slots[..] == seq(Pow2(bits), _ => blank);
      UnusedCount(Pow2(bits), blank);
    }

    /** trace_lifecycle_find: the live slot of a granule, or the slot where the search or an insertion ends. */
    method Find(granule: nat, forInsert: bool) returns (position: nat, ghost depth: nat)
      requires Valid() && Used() < Pow2(bits)
      ensures position < slots.Length == Pow2(bits) && depth < Pow2(bits) && position == Probe(hash(granule), depth, bits)
      ensures granule in depths ==> position == Probe(hash(granule), depths[granule], bits)
      ensures granule !in depths ==> !slots[position].state.SlotLive? && (!forInsert ==> slots[position].state.SlotEmpty?)
      ensures slots[position].state.SlotLive? <==> granule in depths
      ensures forall e: nat :: e < depth ==> !slots[Probe(hash(granule), e, bits)].state.SlotEmpty?
    {
      hide Probe, Low, And, Pow2, UsedCount, Placed, ContentsOf;
      var at := And(hash(granule), Pow2(bits) - 1);
      AndMask(hash(granule), bits);
      assert at == Probe(hash(granule), 0, bits) by { ProbeStart(hash(granule), bits); }
      var tombstone: int := -1;
      ghost var tombstoneDepth := 0;
      ghost var hole := SomeEmpty(slots[..]);
      ghost var holeDepth := ProbeCovers(hash(granule), hole, bits);
      var probes := 0;
      while probes < slots.Length
        invariant probes <= slots.Length && at == Probe(hash(granule), probes, bits)
        invariant forall e: nat :: e < probes ==>
                    !slots[Probe(hash(granule), e, bits)].state.SlotEmpty?
                    && (slots[Probe(hash(granule), e, bits)].state.SlotLive? ==> slots[Probe(hash(granule), e, bits)].granule != granule)
        invariant tombstone >= 0 ==> forInsert && tombstoneDepth < probes && tombstone == Probe(hash(granule), tombstoneDepth, bits)
        invariant tombstone >= 0 ==> tombstone < slots.Length && slots[tombstone].state.SlotTombstone?
      {
        if slots[at].state == SlotEmpty {
          Absent(slots[..], hash, bits, depths, granule, probes);
          if forInsert && tombstone >= 0 {
            return tombstone, tombstoneDepth;
          }
          return at, probes;
        }
        if slots[at].state == SlotTombstone {
          if forInsert && tombstone < 0 { tombstone, tombstoneDepth := at, probes; }
        } else if slots[at].granule == granule {
          assert Known(slots[..], hash, bits, depths, at);
          return at, probes;
        }
        ProbeNext(hash(granule), probes, bits);
        at := And(at + 1, slots.Length - 1);
        probes := probes + 1;
      }
      assert false;
    }

    lemma Domain()
      requires Valid()
      ensures forall k :: k in Contents() <==> k in depths
    {
    }

    /** A live slot as Contents sees it. */
    lemma LiveSlot(granule: nat, position: nat)
      requires Valid() && position < slots.Length && granule in depths && position == Probe(hash(granule), depths[granule], bits)
      ensures slots[position].state.SlotLive? && Contents()[granule] == Entry(slots[position].handle, slots[position].retired)
    {
      hide Probe;
      assert Placed(slots[..], hash, bits, depths, granule);
    }

    /** trace_lifecycle_range_matches. */
    method RangeMatches(e: Event, gs: nat, requireActive: bool) returns (ok: bool)
      requires Valid() && Used() < Pow2(bits) && And(e.size, Pow2(gs) - 1) == 0
      ensures ok <==> Matches(Contents(), EventKeys(e, gs), e.handle, requireActive)
    {
      hide Shl, Shr, Low, Pow2, And, Probe, TableSound, UsedCount, Keys, Key;
      ghost var count := Shr(e.size, gs);
      ghost var j := 0;
      var address := e.address;
      KeysGrow(e.address, 0, gs);
      while address < e.address + e.size
        invariant j <= count && address == Key(e.address, j, gs)
        invariant Matches(Contents(), Keys(e.address, j, gs), e.handle, requireActive)
        decreases count - j
      {
        KeysEnd(e.address, e.size, j, gs);
        KeysGrow(e.address, j, gs);
        var position, depth := Find(address, false);
        Domain();
        if address in depths { LiveSlot(address, position); }
        var slot := slots[position];
        if slot.state != SlotLive || slot.handle != e.handle || (requireActive && slot.retired) {
          KeyInRange(e.address, j, count, gs);
          return false;
        }
        address := address + Pow2(gs);
        j := j + 1;
      }
      KeysEnd(e.address, e.size, j, gs);
      return true;
    }

    /** The first loop of trace_lifecycle_insert: no granule of the range may be live. */
    method RangeFree(e: Event, gs: nat) returns (ok: bool)
      requires Valid() && Used() < Pow2(bits) && And(e.size, Pow2(gs) - 1) == 0
      ensures ok <==> forall k :: k in EventKeys(e, gs) ==> k !in Contents()
    {
      hide Shl, Shr, Low, Pow2, And, Probe, TableSound, UsedCount, Keys, Key;
      ghost var count := Shr(e.size, gs);
      ghost var j := 0;
      var address := e.address;
      KeysGrow(e.address, 0, gs);
      while address < e.address + e.size
        invariant j <= count && address == Key(e.address, j, gs)
        invariant forall k :: k in Keys(e.address, j, gs) ==> k !in Contents()
        decreases count - j
      {
        KeysEnd(e.address, e.size, j, gs);
        KeysGrow(e.address, j, gs);
        var position, depth := Find(address, false);
        Domain();
        if slots[position].state == SlotLive {
          KeyInRange(e.address, j, count, gs);
          return false;
        }
        address := address + Pow2(gs);
        j := j + 1;
      }
      KeysEnd(e.address, e.size, j, gs);
      return true;
    }

    /** trace_lifecycle_insert. */
    method InsertRange(e: Event, gs: nat) returns (ok: bool)
      requires Valid() && Used() + Shr(e.size, gs) < Pow2(bits) && And(e.size, Pow2(gs) - 1) == 0
      modifies this, slots
      ensures Valid() && Used() <= old(Used()) + Shr(e.size, gs)
      ensures ok <==> forall k :: k in EventKeys(e, gs) ==> k !in old(Contents())
      ensures Contents() == if ok then Marked(old(Contents()), EventKeys(e, gs), Entry(e.handle, false)) else old(Contents())
    {
      hide Shr, Pow2, And, TableSound, UsedCount, ContentsOf, Keys, Marked;
      ok := RangeFree(e, gs);
      if ok { FillRange(e, gs); }
    }

    /** The second loop of trace_lifecycle_insert; it always finds a slot. */
    method FillRange(e: Event, gs: nat)
      requires Valid() && Used() + Shr(e.size, gs) < Pow2(bits) && And(e.size, Pow2(gs) - 1) == 0
      requires forall k :: k in EventKeys(e, gs) ==> k !in Contents()
      modifies this, slots
      ensures Valid() && Used() <= old(Used()) + Shr(e.size, gs)
      ensures Contents() == Marked(old(Contents()), EventKeys(e, gs), Entry(e.handle, false))
    {
      hide Shl, Shr, Low, Pow2, And, Keys, Key, Marked, Valid, Contents, Used;
      ghost var count, before := Shr(e.size, gs), Contents();
      ghost var j := 0;
      var address := e.address;
      KeysGrow(e.address, 0, gs);
      MarkedNone(before, Entry(e.handle, false));
      while address < e.address + e.size
        invariant j <= count && address == Key(e.address, j, gs)
        invariant Valid() && Used() <= old(Used()) + j
        invariant Contents() == Marked(before, Keys(e.address, j, gs), Entry(e.handle, false))
        decreases count - j
      {
        KeysEnd(e.address, e.size, j, gs);
        KeysGrow(e.address, j, gs);
        KeyInRange(e.address, j, count, gs);
        MarkedGrow(before, Keys(e.address, j, gs), address, Entry(e.handle, false));
        MarkedAt(before, Keys(e.address, j, gs), Entry(e.handle, false), address);
        FillSlot(address, e.handle);
        address := address + Pow2(gs);
        j := j + 1;
      }
      KeysEnd(e.address, e.size, j, gs);
    }

    /** One round of the second loop of trace_lifecycle_insert. */
    method FillSlot(address: nat, handle: nat)
      requires Valid() && Used() < Pow2(bits) && address !in Contents()
      modifies this, slots
      ensures Valid() && Used() <= old(Used()) + 1
      ensures Contents() == old(Contents())[address := Entry(handle, false)]
    {
      hide Low, Pow2, And, Probe, TableSound, UsedCount, ContentsOf;
      Domain();
      var position, depth := Find(address, true);
      ghost var before := slots[..];
      SlotFilled(before, hash, bits, depths, address, depth, handle);
      UsedUpdate(before, position, Slot(address, handle, SlotLive, false));
      slots[position] := Slot(address, handle, SlotLive, false);
      assert slots[..] == before[position := Slot(address, handle, SlotLive, false)];
      liveCount := liveCount + 1;
      depths := depths[address := depth];
    }

    /** trace_lifecycle_retire, after the range matched. */
    method RetireRange(e: Event, gs: nat)
      requires Valid() && Used() < Pow2(bits) && And(e.size, Pow2(gs) - 1) == 0
      requires Matches(Contents(), EventKeys(e, gs), e.handle, true)
      modifies this, slots
      ensures Valid() && Used() == old(Used())
      ensures Contents() == Marked(old(Contents()), EventKeys(e, gs), Entry(e.handle, true))
    {
      hide Shl, Shr, Low, Pow2, And, Keys, Key, Marked, Valid, Contents, Used;
      ghost var count, before := Shr(e.size, gs), Contents();
      ghost var j := 0;
      var address := e.address;
      KeysGrow(e.address, 0, gs);
      MarkedNone(before, Entry(e.handle, true));
      while address < e.address + e.size
        invariant j <= count && address == Key(e.address, j, gs)
        invariant Valid() && Used() == old(Used())
        invariant Contents() == Marked(before, Keys(e.address, j, gs), Entry(e.handle, true))
        decreases count - j
      {
        KeysEnd(e.address, e.size, j, gs);
        KeysGrow(e.address, j, gs);
        KeyInRange(e.address, j, count, gs);
        MarkedGrow(before, Keys(e.address, j, gs), address, Entry(e.handle, true));
        MarkedAt(before, Keys(e.address, j, gs), Entry(e.handle, true), address);
        RetireSlot(address);
        address := address + Pow2(gs);
        j := j + 1;
      }
      KeysEnd(e.address, e.size, j, gs);
    }

    method RetireSlot(address: nat)
      requires Valid() && Used() < Pow2(bits) && address in Contents()
      modifies this, slots
      ensures Valid() && Used() == old(Used())
      ensures Contents() == old(Contents())[address := Entry(old(Contents())[address].handle, true)]
    {
      hide Low, Pow2, And, Probe, TableSound, UsedCount, ContentsOf;
      Domain();
      var position, depth := Find(address, false);
      ghost var before := slots[..];
      SlotRetired(before, hash, bits, depths, address);
      UsedUpdate(before, position, before[position].(retired := true));
      slots[position] := slots[position].(retired := true);
      assert slots[..] == before[position := before[position].(retired := true)];
    }

    /** trace_lifecycle_remove, after the range matched: live slots become tombstones. */
    method RemoveRange(e: Event, gs: nat)
      requires Valid() && Used() < Pow2(bits) && And(e.size, Pow2(gs) - 1) == 0
      requires Matches(Contents(), EventKeys(e, gs), e.handle, false)
      modifies this, slots
      ensures Valid() && Used() == old(Used())
      ensures Contents() == old(Contents()) - EventKeys(e, gs)
    {
      hide Shl, Shr, Low, Pow2, And, Keys, Key, Marked, Valid, Contents, Used;
      ghost var count, before := Shr(e.size, gs), Contents();
      ghost var j := 0;
      var address := e.address;
      KeysGrow(e.address, 0, gs);
      while address < e.address + e.size
        invariant j <= count && address == Key(e.address, j, gs)
        invariant Valid() && Used() == old(Used())
        invariant Contents() == before - Keys(e.address, j, gs)
        decreases count - j
      {
        KeysEnd(e.address, e.size, j, gs);
        KeysGrow(e.address, j, gs);
        KeyInRange(e.address, j, count, gs);
        EntombSlot(address);
        address := address + Pow2(gs);
        j := j + 1;
      }
      KeysEnd(e.address, e.size, j, gs);
    }

    /** One round of trace_lifecycle_remove; the guard on the live count never fails. */
    method EntombSlot(address: nat)
      requires Valid() && Used() < Pow2(bits) && address in Contents()
      modifies this, slots
      ensures Valid() && Used() == old(Used())
      ensures Contents() == old(Contents()) - {address}
    {
      hide Low, Pow2, And, Probe, TableSound, UsedCount, ContentsOf;
      Domain();
      var position, depth := Find(address, false);
      ghost var before := slots[..];
      SlotEntombed(before, hash, bits, depths, address);
      UsedUpdate(before, position, before[position].(state := SlotTombstone, retired := false));
      slots[position] := slots[position].(state := SlotTombstone, retired := false);
      assert slots[..] == before[position := before[position].(state := SlotTombstone, retired := false)];
      assert |depths| == |depths - {address}| + 1 by { assert (depths - {address})[address := depths[address]] == depths; }
      liveCount := liveCount - 1;
      depths := depths - {address};
    }

    /** trace_lifecycle_lookup_matches. */
    method LookupMatches(m: Machine, e: Event, gs: nat) returns (ok: bool)
      requires Valid() && Used() < Pow2(bits)
      ensures ok <==> e.handle == var granule := e.address - Low(e.address, gs);
                                  if granule in Contents() then Contents()[granule].handle else m.Invalid()
    {
      hide Low, Pow2, And, Probe, TableSound, UsedCount, ContentsOf;
      var granule := e.address - Low(e.address, gs);
      var position, depth := Find(granule, false);
      Domain();
      if granule in depths { LiveSlot(granule, position); }
      var actual := if slots[position].state != SlotLive then m.Invalid() else slots[position].handle;
      ok := actual == e.handle;
    }
  }

  lemma ProbeStart(start: nat, bits: nat)
    ensures Low(start, bits) == Probe(start, 0, bits)
  {
  }

  /** A search that meets an EMPTY slot before the key proves the key absent. */
  lemma Absent(slots: seq<Slot>, hash: nat -> nat, bits: nat, depths: Depths, k: nat, d: nat)
    requires TableSound(slots, hash, bits, depths) && d < Pow2(bits)
    requires slots[Probe(hash(k), d, bits)].state.SlotEmpty?
    requires forall e: nat :: e < d ==>
               slots[Probe(hash(k), e, bits)].state.SlotLive? ==> slots[Probe(hash(k), e, bits)].granule != k
    ensures k !in depths
  {
    hide Probe;
    assert k in depths ==> Placed(slots, hash, bits, depths, k);
  }
}
