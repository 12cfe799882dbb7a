/**
 The trace generator: an allocator over a small arena whose every action is recorded as an
 event. Random draws are arbitrary choices.
 */
module Generator {
  import opened Bits
  import opened FreeRanges
  import T = TraceModel
  import S = TraceStats

  /** Handles and addresses are 64-bit words. */
  const MACHINE: T.Machine := T.Machine(3)

  datatype Allocation = Allocation(base: nat, size: nat, handle: nat, owner: nat, retired: bool)

  function RangeOf(x: Allocation): Range { Range(x.base, x.size) }

  function Ranges(s: seq<Allocation>): seq<Range> { seq(|s|, i requires 0 <= i < |s| => RangeOf(s[i])) }

  /** The keys of one allocation. */
  function KeysOf(x: Allocation, gs: nat): set<nat> { T.Keys(x.base, Shr(x.size, gs), gs) }

  // ----- the arena

  /** Free ranges and allocations are aligned, and every arena address is in exactly one of them. */
  ghost predicate Partition(free: seq<Range>, live: seq<Allocation>, base: nat, limit: nat, gs: nat) {
    && Gapped(free) && Aligned(free, gs) && Aligned(Ranges(live), gs)
    && (forall i :: 0 <= i < |live| ==> live[i].size > 0)
    && (forall i, j :: 0 <= i < j < |live| ==> live[i].base + live[i].size <= live[j].base || live[j].base + live[j].size <= live[i].base)
    && (forall a: nat :: base <= a < limit <==> Covers(free, a) || Covers(Ranges(live), a))
    && (forall a: nat :: !(Covers(free, a) && Covers(Ranges(live), a)))
  }

  // ----- the live map of the trace

  /** The live map holds exactly the granules of the allocations, with their handles and flags. */
  ghost predicate Mirrors(live: T.Live, s: seq<Allocation>, gs: nat) {
    && (forall i, k :: 0 <= i < |s| && k in KeysOf(s[i], gs) ==> k in live && live[k] == T.Entry(s[i].handle, s[i].retired))
    && (forall k :: k in live ==> exists i :: 0 <= i < |s| && k in KeysOf(s[i], gs))
  }

  /** Granule keys lie inside the range they belong to. */
  lemma KeyInside(x: Allocation, gs: nat, k: nat)
    requires Low(x.size, gs) == 0 && k in KeysOf(x, gs)
    ensures RangeOf(x).Has(k)
  {
    hide Shl, Shr, Low;
    var j: nat :| j < Shr(x.size, gs) && k == T.Key(x.base, j, gs);
    Split(x.size, gs);
    ShlMono(j, Shr(x.size, gs), gs);
  }

  /** Allocations apart have no granule in common. */
  lemma KeysApart(x: Allocation, y: Allocation, gs: nat)
    requires Low(x.size, gs) == 0 && Low(y.size, gs) == 0
    requires x.base + x.size <= y.base || y.base + y.size <= x.base
    ensures forall k :: k in KeysOf(x, gs) ==> k !in KeysOf(y, gs)
  {
    hide KeysOf, Low;
    forall k | k in KeysOf(x, gs)
      ensures k !in KeysOf(y, gs)
    {
      KeyInside(x, gs, k);
      if k in KeysOf(y, gs) {
        KeyInside(y, gs, k);
        assert false;
      }
    }
  }

  /** The granule of an address inside an allocation is one of its keys. */
  lemma GranuleKey(x: Allocation, gs: nat, a: nat)
    requires Low(x.base, gs) == 0 && Low(x.size, gs) == 0 && RangeOf(x).Has(a)
    ensures a - Low(a, gs) in KeysOf(x, gs)
  {
    hide Shl, Shr, Low, Pow2;
    var offset := a - x.base;
    AddAligned(x.base, offset, gs);
    Split(offset, gs);
    Split(x.size, gs);
    var j := Shr(offset, gs);
    ShlMono(Shr(x.size, gs), j, gs);
    T.KeyInRange(x.base, j, Shr(x.size, gs), gs);
    assert a - Low(a, gs) == T.Key(x.base, j, gs);
  }

  // ----- what one action does to the arena

  lemma CoversPush(s: seq<Range>, r: Range, a: nat)
    ensures Covers(s + [r], a) <==> Covers(s, a) || r.Has(a)
  {
    var next := s + [r];
    assert next[|s|] == r;
    if Covers(s, a) {
      var i :| 0 <= i < |s| && s[i].Has(a);
      assert next[i].Has(a);
    }
    if Covers(next, a) {
      var i :| 0 <= i < |next| && next[i].Has(a);
      assert i < |s| ==> s[i].Has(a);
    }
  }

  /** Ranges without a common address are apart. */
  lemma NoCommonAddress(x: Range, y: Range)
    requires x.size > 0 && y.size > 0 && forall a :: x.Has(a) ==> !y.Has(a)
    ensures x.End() <= y.base || y.End() <= x.base
  {
    assert x.Has(x.base);
    if x.Has(y.base) { assert y.Has(y.base); assert false; }
  }

  lemma AllocatePartition(free: seq<Range>, live: seq<Allocation>, base: nat, limit: nat, gs: nat,
                          i: nat, size: nat, high: bool, x: Allocation)
    requires Partition(free, live, base, limit, gs) && i < |free| && 0 < size <= free[i].size && Low(size, gs) == 0
    requires x.base == TakenBase(free, i, size, high) && x.size == size
    ensures Partition(Taken(free, i, size, high), live + [x], base, limit, gs)
    ensures base <= x.base && x.base + size <= limit && Low(x.base, gs) == 0
    ensures forall j :: 0 <= j < |live| ==> x.base + x.size <= live[j].base || live[j].base + live[j].size <= x.base
  {
    hide Low, Taken;
    TakenKeeps(free, i, size, high, gs);
    var next := Taken(free, i, size, high);
    var ranges := Ranges(live);
    assert Ranges(live + [x]) == ranges + [RangeOf(x)];
    forall a: nat
      ensures RangeOf(x).Has(a) ==> Covers(free, a)
      ensures Covers(next, a) <==> Covers(free, a) && !RangeOf(x).Has(a)
      ensures Covers(Ranges(live + [x]), a) <==> Covers(ranges, a) || RangeOf(x).Has(a)
    {
      TakenCovers(free, i, size, high, a);
      CoversPush(ranges, RangeOf(x), a);
    }
    assert RangeOf(x).Has(x.base) && RangeOf(x).Has(x.base + size - 1);
    forall j | 0 <= j < |live|
      ensures x.base + x.size <= live[j].base || live[j].base + live[j].size <= x.base
    {
      forall a | RangeOf(x).Has(a)
        ensures !RangeOf(live[j]).Has(a)
      {
        assert Covers(free, a);
        assert ranges[j] == RangeOf(live[j]);
        assert ranges[j].Has(a) ==> Covers(ranges, a);
      }
      NoCommonAddress(RangeOf(x), RangeOf(live[j]));
    }
  }

  function Without(s: seq<Allocation>, i: nat): seq<Allocation>
    requires i < |s|
  {
    s[..i] + s[i + 1..]
  }

  lemma ReleasePartition(free: seq<Range>, next: seq<Range>, live: seq<Allocation>, base: nat, limit: nat, gs: nat, i: nat)
    requires Partition(free, live, base, limit, gs) && i < |live| && Gapped(next) && Aligned(next, gs)
    requires forall a: nat :: Covers(next, a) <==> Covers(free, a) || RangeOf(live[i]).Has(a)
    ensures Partition(next, Without(live, i), base, limit, gs)
  {
    hide Low;
    var ranges := Ranges(live);
    var rest := Without(live, i);
    assert Ranges(rest) == ranges[..i] + ranges[i + 1..];
    assert ranges[i] == RangeOf(live[i]);
    forall j | 0 <= j < |rest|
      ensures rest[j].size > 0 && Low(Ranges(rest)[j].base, gs) == 0 && Low(Ranges(rest)[j].size, gs) == 0
    {
      assert Ranges(rest)[j] == ranges[if j < i then j else j + 1];
      assert rest[j] == live[if j < i then j else j + 1];
    }
    forall a: nat
      ensures Covers(Ranges(rest), a) <==> CoversBut(ranges, i, a)
      ensures Covers(ranges, a) <==> ranges[i].Has(a) || CoversBut(ranges, i, a)
      ensures ranges[i].Has(a) ==> !CoversBut(ranges, i, a)
    {
      DroppedCovers(ranges, i, a);
    }
  }

  /** Giving a range back: it is clear of the free list. */
  lemma ReleasedClear(free: seq<Range>, live: seq<Allocation>, base: nat, limit: nat, gs: nat, i: nat)
    requires Partition(free, live, base, limit, gs) && i < |live|
    ensures Clear(free, RangeOf(live[i])) && live[i].size > 0
    ensures Low(live[i].base, gs) == 0 && Low(live[i].size, gs) == 0
    ensures base <= live[i].base && live[i].base + live[i].size <= limit
  {
    hide Low;
    var ranges := Ranges(live);
    assert ranges[i] == RangeOf(live[i]);
    forall a: nat | RangeOf(live[i]).Has(a)
      ensures !Covers(free, a) && base <= a < limit
    {
      assert ranges[i].Has(a);
      assert Covers(ranges, a);
    }
    assert RangeOf(live[i]).Has(live[i].base) && RangeOf(live[i]).Has(live[i].base + live[i].size - 1);
  }

  // ----- what one action does to the live map

  lemma InsertMirrors(live: T.Live, s: seq<Allocation>, gs: nat, x: Allocation)
    requires Mirrors(live, s, gs) && !x.retired
    requires forall j, k :: 0 <= j < |s| && k in KeysOf(s[j], gs) ==> k !in KeysOf(x, gs)
    ensures forall k :: k in KeysOf(x, gs) ==> k !in live
    ensures Mirrors(T.Marked(live, KeysOf(x, gs), T.Entry(x.handle, false)), s + [x], gs)
  {
    hide KeysOf;
    var next := T.Marked(live, KeysOf(x, gs), T.Entry(x.handle, false));
    var t := s + [x];
    forall k | k in next
      ensures exists i :: 0 <= i < |t| && k in KeysOf(t[i], gs)
    {
      if k in KeysOf(x, gs) {
        assert t[|s|] == x;
      } else {
        var i :| 0 <= i < |s| && k in KeysOf(s[i], gs);
        assert t[i] == s[i];
      }
    }
  }

  lemma RetireMirrors(live: T.Live, s: seq<Allocation>, gs: nat, i: nat)
    requires Mirrors(live, s, gs) && i < |s|
    requires forall j, k :: 0 <= j < |s| && j != i && k in KeysOf(s[j], gs) ==> k !in KeysOf(s[i], gs)
    ensures Mirrors(T.Marked(live, KeysOf(s[i], gs), T.Entry(s[i].handle, true)), s[i := s[i].(retired := true)], gs)
    ensures T.Matches(live, KeysOf(s[i], gs), s[i].handle, !s[i].retired)
  {
    var t := s[i := s[i].(retired := true)];
    SameKeys(s, t, gs, i);
    hide KeysOf, T.Marked, T.Matches;
    RetireMatches(live, s, gs, i);
    RetireForward(live, s, t, gs, i);
    RetireBack(live, s, t, gs, i);
  }

  lemma SameKeys(s: seq<Allocation>, t: seq<Allocation>, gs: nat, i: nat)
    requires i < |s| && t == s[i := s[i].(retired := true)]
    ensures forall j :: 0 <= j < |s| ==> KeysOf(t[j], gs) == KeysOf(s[j], gs)
  {
  }

  lemma RetireMatches(live: T.Live, s: seq<Allocation>, gs: nat, i: nat)
    requires Mirrors(live, s, gs) && i < |s|
    ensures T.Matches(live, KeysOf(s[i], gs), s[i].handle, !s[i].retired)
  {
    hide KeysOf;
  }

  lemma RetireForward(live: T.Live, s: seq<Allocation>, t: seq<Allocation>, gs: nat, i: nat)
    requires Mirrors(live, s, gs) && i < |s| && t == s[i := s[i].(retired := true)]
    requires forall j :: 0 <= j < |s| ==> KeysOf(t[j], gs) == KeysOf(s[j], gs)
    requires forall j, k :: 0 <= j < |s| && j != i && k in KeysOf(s[j], gs) ==> k !in KeysOf(s[i], gs)
    ensures var next := T.Marked(live, KeysOf(s[i], gs), T.Entry(s[i].handle, true));
            forall j, k :: 0 <= j < |t| && k in KeysOf(t[j], gs) ==> k in next && next[k] == T.Entry(t[j].handle, t[j].retired)
  {
    hide KeysOf, T.Marked;
    var keys := KeysOf(s[i], gs);
    var next := T.Marked(live, keys, T.Entry(s[i].handle, true));
    forall j, k | 0 <= j < |t| && k in KeysOf(t[j], gs)
      ensures k in next && next[k] == T.Entry(t[j].handle, t[j].retired)
    {
      T.MarkedAt(live, keys, T.Entry(s[i].handle, true), k);
      assert k in KeysOf(s[j], gs);
    }
  }

  lemma RetireBack(live: T.Live, s: seq<Allocation>, t: seq<Allocation>, gs: nat, i: nat)
    requires Mirrors(live, s, gs) && i < |s| && |t| == |s|
    requires forall j :: 0 <= j < |s| ==> KeysOf(t[j], gs) == KeysOf(s[j], gs)
    ensures var next := T.Marked(live, KeysOf(s[i], gs), T.Entry(s[i].handle, true));
            forall k :: k in next ==> exists j :: 0 <= j < |t| && k in KeysOf(t[j], gs)
  {
    hide KeysOf, T.Marked;
    var keys := KeysOf(s[i], gs);
    var next := T.Marked(live, keys, T.Entry(s[i].handle, true));
    forall k | k in next
      ensures exists j :: 0 <= j < |t| && k in KeysOf(t[j], gs)
    {
      T.MarkedAt(live, keys, T.Entry(s[i].handle, true), k);
      if k in keys {
        assert k in KeysOf(t[i], gs);
      } else {
        var j :| 0 <= j < |s| && k in KeysOf(s[j], gs);
        assert k in KeysOf(t[j], gs);
      }
    }
  }

  lemma RemoveMirrors(live: T.Live, s: seq<Allocation>, gs: nat, i: nat)
    requires Mirrors(live, s, gs) && i < |s|
    requires forall j, k :: 0 <= j < |s| && j != i && k in KeysOf(s[j], gs) ==> k !in KeysOf(s[i], gs)
    ensures Mirrors(live - KeysOf(s[i], gs), Without(s, i), gs)
    ensures T.Matches(live, KeysOf(s[i], gs), s[i].handle, false)
  {
    hide KeysOf;
    var next := live - KeysOf(s[i], gs);
    var t := Without(s, i);
    forall j, k | 0 <= j < |t| && k in KeysOf(t[j], gs)
      ensures k in next && next[k] == T.Entry(t[j].handle, t[j].retired)
    {
      assert t[j] == s[if j < i then j else j + 1];
    }
    forall k | k in next
      ensures exists j :: 0 <= j < |t| && k in KeysOf(t[j], gs)
    {
      var j :| 0 <= j < |s| && k in KeysOf(s[j], gs);
      assert t[if j < i then j else j - 1] == s[j];
    }
  }

  /** Distinct allocations have no granule in common. */
  lemma AllApart(free: seq<Range>, live: seq<Allocation>, base: nat, limit: nat, gs: nat, i: nat)
    requires Partition(free, live, base, limit, gs) && i < |live|
    ensures forall j, k :: 0 <= j < |live| && j != i && k in KeysOf(live[j], gs) ==> k !in KeysOf(live[i], gs)
  {
    hide Low, KeysOf;
    forall j | 0 <= j < |live| && j != i
      ensures forall k :: k in KeysOf(live[j], gs) ==> k !in KeysOf(live[i], gs)
    {
      assert Ranges(live)[i] == RangeOf(live[i]) && Ranges(live)[j] == RangeOf(live[j]);
      KeysApart(live[j], live[i], gs);
    }
  }

  // ----- the log

  /** The events so far: numbered, well shaped but for the one handle no event may carry, and accepted by the live map. */
  ghost predicate Logged(events: seq<T.Event>, threads: nat, nextHandle: nat, gs: nat, live: T.Live) {
    && nextHandle >= 1
    && (forall i :: 0 <= i < |events| ==> events[i].sequence == i + 1 && events[i].thread < threads && EventFine(events[i], gs))
    && T.LiveAfter(MACHINE, gs, events) == T.Some(live)
    && (nextHandle <= MACHINE.WordMax() ==> forall i :: 0 <= i < |events| ==> events[i].handle < nextHandle)
    && (nextHandle > MACHINE.WordMax() ==> exists i :: 0 <= i < |events| && Unusable(events[i]))
    && (nextHandle <= MACHINE.WordMax() ==> S.Count(events, T.Insert) + 1 == nextHandle)
    && (nextHandle > MACHINE.WordMax() ==> S.Count(events, T.Insert) >= MACHINE.WordMax())
  }

  /** The handle counter before and after an event. */
  predicate Counts(before: nat, after: nat, e: T.Event) {
    || after == before + (if e.operation.Insert? then 1 else 0)
    || (before == MACHINE.WordMax() && e.operation.Insert? && after > MACHINE.WordMax())
    || (before > MACHINE.WordMax() && after > MACHINE.WordMax())
  }

  /** The shape of an event, but for the word its address, size and handle must fit. */
  predicate EventFine(e: T.Event, gs: nat) {
    && !e.operation.Unknown?
    && (T.RangeOperation(e.operation) ==> e.size > 0 && And(e.address, Pow2(gs) - 1) == 0 && And(e.size, Pow2(gs) - 1) == 0)
    && (e.operation.Lookup? ==> e.size == 0)
    && (e.operation.Quiescent? ==> e.address == 0 && e.size == 0)
  }

  /** An insertion of the reserved handle. */
  predicate Unusable(e: T.Event) { e.operation.Insert? && e.handle == MACHINE.Invalid() }

  lemma LogGrows(events: seq<T.Event>, threads: nat, nextHandle: nat, after: nat, gs: nat, live: T.Live, next: T.Live, e: T.Event)
    requires Logged(events, threads, nextHandle, gs, live) && e.sequence == |events| + 1 && e.thread < threads && EventFine(e, gs)
    requires T.Advance(MACHINE, gs, live, e) == T.Some(next)
    requires after >= nextHandle && (after <= MACHINE.WordMax() ==> e.handle < after)
    requires after > MACHINE.WordMax() ==> nextHandle > MACHINE.WordMax() || Unusable(e)
    requires Counts(nextHandle, after, e)
    ensures Logged(events + [e], threads, after, gs, next)
  {
    hide EventFine, Unusable, T.Advance, Pow2;
    var all := events + [e];
    assert all[..|all| - 1] == events && all[|all| - 1] == e;
    if after > MACHINE.WordMax() && nextHandle > MACHINE.WordMax() {
      var i :| 0 <= i < |events| && Unusable(events[i]);
      assert Unusable(all[i]);
    }
  }

  /** Every insertion ends within a word. */
  ghost predicate InsertsFit(events: seq<T.Event>) {
    forall i :: 0 <= i < |events| && events[i].operation.Insert? ==> S.EventEnd(events[i]) <= MACHINE.WordMax()
  }

  /** Event j inserts the bytes from low to high. */
  predicate InsertOver(events: seq<T.Event>, j: nat, low: nat, high: nat) {
    j < |events| && events[j].operation.Insert? && events[j].address <= low && high <= S.EventEnd(events[j])
  }

  ghost predicate Inserted(events: seq<T.Event>, low: nat, high: nat) { exists j: nat :: InsertOver(events, j, low, high) }

  /** Insertions lie in the arena, and every other address in the log or in an allocation was inserted. */
  ghost predicate Placed(events: seq<T.Event>, s: seq<Allocation>, base: nat, limit: nat, gs: nat) {
    && (forall i :: 0 <= i < |events| && events[i].operation.Insert? ==> base <= events[i].address && S.EventEnd(events[i]) <= limit)
    && (forall i :: 0 <= i < |s| ==> Inserted(events, s[i].base, s[i].base + s[i].size))
    && (forall i: nat :: S.Placed(events, i) ==> Inserted(events, events[i].address, S.EventEnd(events[i])))
    && T.PossibleLive(gs, events) <= 512 * S.Count(events, T.Insert)
  }

  lemma InsertedGrows(events: seq<T.Event>, e: T.Event, low: nat, high: nat)
    requires Inserted(events, low, high) || (e.operation.Insert? && e.address <= low && high <= S.EventEnd(e))
    ensures Inserted(events + [e], low, high)
  {
    if Inserted(events, low, high) {
      var j: nat :| InsertOver(events, j, low, high);
      assert InsertOver(events + [e], j, low, high);
    } else {
      assert InsertOver(events + [e], |events|, low, high);
    }
  }

  /** Allocation j holds the bytes from low to high. */
  predicate HeldBy(s: seq<Allocation>, j: nat, low: nat, high: nat) { j < |s| && s[j].base <= low && high <= s[j].base + s[j].size }

  ghost predicate Held(s: seq<Allocation>, low: nat, high: nat) { exists j: nat :: HeldBy(s, j, low, high) }

  /** An event over allocated bytes, or an insertion into the arena, keeps the log in its place. */
  lemma PlacedGrows(events: seq<T.Event>, s: seq<Allocation>, t: seq<Allocation>, base: nat, limit: nat, gs: nat, e: T.Event)
    requires Placed(events, s, base, limit, gs)
    requires e.operation.Insert? ==> base <= e.address && S.EventEnd(e) <= limit && Shr(e.size, gs) <= 512
    requires !e.operation.Quiescent? && !e.operation.Insert? ==> Held(s, e.address, S.EventEnd(e))
    requires forall i :: 0 <= i < |t| ==>
               Held(s, t[i].base, t[i].base + t[i].size) || (e.operation.Insert? && RangeOf(t[i]) == Range(e.address, e.size))
    ensures Placed(events + [e], t, base, limit, gs)
  {
    hide Inserted, Held, Shr;
    var all := events + [e];
    assert all[..|all| - 1] == events;
    forall i | 0 <= i < |t|
      ensures Inserted(all, t[i].base, t[i].base + t[i].size)
    {
      if Held(s, t[i].base, t[i].base + t[i].size) { HeldInserted(events, s, t[i].base, t[i].base + t[i].size); }
      InsertedGrows(events, e, t[i].base, t[i].base + t[i].size);
    }
    forall i: nat | S.Placed(all, i)
      ensures Inserted(all, all[i].address, S.EventEnd(all[i]))
    {
      if i < |events| {
        assert S.Placed(events, i);
      } else if !e.operation.Insert? {
        HeldInserted(events, s, e.address, S.EventEnd(e));
      }
      InsertedGrows(events, e, all[i].address, S.EventEnd(all[i]));
    }
  }

  lemma HeldInserted(events: seq<T.Event>, s: seq<Allocation>, low: nat, high: nat)
    requires Held(s, low, high) && forall i :: 0 <= i < |s| ==> Inserted(events, s[i].base, s[i].base + s[i].size)
    ensures Inserted(events, low, high)
  {
    var i: nat :| HeldBy(s, i, low, high);
    var j: nat :| InsertOver(events, j, s[i].base, s[i].base + s[i].size);
    assert InsertOver(events, j, low, high);
  }

  lemma PlacedInsert(events: seq<T.Event>, s: seq<Allocation>, base: nat, limit: nat, gs: nat, e: T.Event, x: Allocation)
    requires Placed(events, s, base, limit, gs) && e.operation.Insert? && RangeOf(x) == Range(e.address, e.size)
    requires base <= x.base && x.base + x.size <= limit && Shr(x.size, gs) <= 512
    ensures Placed(events + [e], s + [x], base, limit, gs)
  {
    hide Placed, Shr;
    var t := s + [x];
    forall i | 0 <= i < |s|
      ensures Held(s, t[i].base, t[i].base + t[i].size)
    {
      assert HeldBy(s, i, t[i].base, t[i].base + t[i].size);
    }
    PlacedGrows(events, s, t, base, limit, gs, e);
  }

  /** A lookup in, a retirement of, or a removal of allocation i. */
  lemma PlacedUse(events: seq<T.Event>, s: seq<Allocation>, base: nat, limit: nat, gs: nat, e: T.Event, i: nat)
    requires Placed(events, s, base, limit, gs) && !e.operation.Insert? && i < |s|
    requires s[i].base <= e.address && S.EventEnd(e) <= s[i].base + s[i].size
    ensures Placed(events + [e], s, base, limit, gs)
    ensures Placed(events + [e], s[i := s[i].(retired := true)], base, limit, gs)
    ensures Placed(events + [e], Without(s, i), base, limit, gs)
  {
    hide Placed;
    assert HeldBy(s, i, e.address, S.EventEnd(e));
    AllHeld(s);
    PlacedGrows(events, s, s, base, limit, gs, e);
    PlacedGrows(events, s, s[i := s[i].(retired := true)], base, limit, gs, e);
    PlacedGrows(events, s, Without(s, i), base, limit, gs, e);
  }

  lemma AllHeld(s: seq<Allocation>)
    ensures forall j :: 0 <= j < |s| ==> Held(s, s[j].base, s[j].base + s[j].size)
  {
    forall j | 0 <= j < |s|
      ensures Held(s, s[j].base, s[j].base + s[j].size)
    {
      assert HeldBy(s, j, s[j].base, s[j].base + s[j].size);
    }
  }

  lemma PlacedQuiescent(events: seq<T.Event>, s: seq<Allocation>, base: nat, limit: nat, gs: nat, e: T.Event)
    requires Placed(events, s, base, limit, gs) && e.operation.Quiescent?
    ensures Placed(events + [e], s, base, limit, gs)
  {
    hide Placed;
    AllHeld(s);
    PlacedGrows(events, s, s, base, limit, gs, e);
  }

  /** The handle counter has passed the reserved handle exactly when there are as many insertions as words. */
  lemma CounterCounts(events: seq<T.Event>, threads: nat, nextHandle: nat, gs: nat, live: T.Live)
    requires Logged(events, threads, nextHandle, gs, live)
    ensures nextHandle <= MACHINE.WordMax() <==> S.Count(events, T.Insert) < MACHINE.WordMax()
  {
    hide T.LiveAfter, Pow2, S.Count, EventFine;
  }

  /**
   The emitted list is lifecycle-valid exactly while the handle counter has not passed the
   reserved handle and the arena has not been used beyond the last word; the guard of insert
   steps over the reserved handle one call too late.
   */
  lemma ValidExactly(events: seq<T.Event>, s: seq<Allocation>, threads: nat, nextHandle: nat, base: nat, limit: nat, rs: nat, gs: nat, live: T.Live)
    requires Logged(events, threads, nextHandle, gs, live) && Placed(events, s, base, limit, gs) && gs <= rs < MACHINE.WordBits()
    ensures T.LifecycleValid(MACHINE, T.Trace(1, rs, gs, events)) <==> nextHandle <= MACHINE.WordMax() && InsertsFit(events)
    ensures nextHandle <= MACHINE.WordMax() <==> S.Count(events, T.Insert) < MACHINE.WordMax()
    ensures T.LifecycleValid(MACHINE, T.Trace(1, rs, gs, events)) ==> T.TypedTrace(MACHINE, T.Trace(1, rs, gs, events))
  {
    hide T.LiveAfter, Pow2, S.Count, EventFine, Inserted, And;
    var t := T.Trace(1, rs, gs, events);
    CounterCounts(events, threads, nextHandle, gs, live);
    if nextHandle <= MACHINE.WordMax() && InsertsFit(events) {
      forall i: nat | i < |events|
        ensures T.EventGood(MACHINE, t, i) && T.Typed(MACHINE, events[i])
      {
        EventFits(events, i, gs);
      }
    } else if nextHandle > MACHINE.WordMax() {
      var i :| 0 <= i < |events| && Unusable(events[i]);
      assert !T.EventGood(MACHINE, t, i);
    } else {
      var i :| 0 <= i < |events| && events[i].operation.Insert? && S.EventEnd(events[i]) > MACHINE.WordMax();
      assert !T.EventGood(MACHINE, t, i);
    }
  }

  lemma EventFits(events: seq<T.Event>, i: nat, gs: nat)
    requires i < |events| && EventFine(events[i], gs) && InsertsFit(events) && events[i].handle < MACHINE.WordMax()
    requires S.Placed(events, i) ==> Inserted(events, events[i].address, S.EventEnd(events[i]))
    ensures T.EventShape(MACHINE, gs, events[i]) && T.Typed(MACHINE, events[i])
  {
    hide Pow2, And;
  }

  // ----- the generator

  class TraceGenerator {
    const threads: nat
    const granuleShift: nat
    const regionShift: nat
    const base: nat
    const limit: nat
    var sequence: nat
    var nextHandle: nat
    var allocations: seq<Allocation>
    var freeRanges: seq<Range>
    var events: seq<T.Event>
    ghost var live: T.Live

    ghost predicate Valid()
      reads this
    {
      && threads > 0 && granuleShift <= regionShift < MACHINE.WordBits() && base < limit
      && sequence == |events|
      && Partition(freeRanges, allocations, base, limit, granuleShift)
      && Mirrors(live, allocations, granuleShift)
      && Logged(events, threads, nextHandle, granuleShift, live)
      && HandlesBelow(allocations, threads, nextHandle)
      && Placed(events, allocations, base, limit, granuleShift)
    }

    /** At most one event and one allocation more than before. */
    ghost predicate Grown(events: nat, allocations: nat)
      reads this
    {
      |this.events| <= events + 1 && |this.allocations| <= allocations + 1
    }

    /** __init__ over an arena of whole regions. */
    constructor (threads: nat, granuleShift: nat, regionShift: nat, base: nat, regionCount: nat)
      requires threads > 0 && regionCount > 0 && granuleShift <= regionShift < MACHINE.WordBits()
      requires Low(base, regionShift) == 0
      ensures Valid() && this.threads == threads && this.granuleShift == granuleShift && this.regionShift == regionShift
      ensures this.base == base && this.limit == base + Shl(regionCount, regionShift)
      ensures events == [] && allocations == [] && nextHandle == 1
    {
      hide Partition, Mirrors, Logged, Placed, Low, Shl, Pow2;
      this.threads, this.granuleShift, this.regionShift, this.base := threads, granuleShift, regionShift, base;
      limit := base + Shl(regionCount, regionShift);
      sequence, nextHandle, allocations, events := 0, 1, [], [];
      freeRanges := [Range(base, Shl(regionCount, regionShift))];
      live := map[];
      new;
      ArenaStart(base, regionCount, regionShift, granuleShift);
      LogStart(threads, granuleShift, base, limit);
    }

    /** emit; next is the live map the event leads to. */
    method Emit(thread: nat, operation: T.Operation, address: nat, size: nat, handle: nat, ghost before: nat, ghost next: T.Live)
      requires sequence == |events| && Logged(events, threads, before, granuleShift, live)
      requires var e := T.Event(sequence + 1, thread, operation, address, size, handle);
               && thread < threads && EventFine(e, granuleShift) && T.Advance(MACHINE, granuleShift, live, e) == T.Some(next)
               && nextHandle >= before && (nextHandle <= MACHINE.WordMax() ==> handle < nextHandle)
               && (nextHandle > MACHINE.WordMax() ==> before > MACHINE.WordMax() || Unusable(e)) && Counts(before, nextHandle, e)
      modifies this`sequence, this`events, this`live
      ensures sequence == |events| && Logged(events, threads, nextHandle, granuleShift, live) && live == next
      ensures events == old(events) + [T.Event(old(sequence) + 1, thread, operation, address, size, handle)]
    {
      hide EventFine, Unusable, T.Advance, Logged, Pow2;
      ghost var e := T.Event(sequence + 1, thread, operation, address, size, handle);
      LogGrows(events, threads, before, nextHandle, granuleShift, live, next, e);
      sequence := sequence + 1;
      events := events + [T.Event(sequence, thread, operation, address, size, handle)];
      live := next;
    }

    /** allocate_range: from the low or the high end of any range that is large enough. */
    method AllocateRange(size: nat) returns (result: T.Option<nat>, ghost index: nat, ghost high: bool)
      requires size > 0
      modifies this`freeRanges
      ensures result.None? ==> freeRanges == old(freeRanges) && forall i :: 0 <= i < |freeRanges| ==> freeRanges[i].size < size
      ensures result.Some? ==>
                && index < |old(freeRanges)| && size <= old(freeRanges)[index].size
                && result.value == TakenBase(old(freeRanges), index, size, high)
                && freeRanges == Taken(old(freeRanges), index, size, high)
    {
      index, high := 0, false;
      if forall i :: 0 <= i < |freeRanges| ==> freeRanges[i].size < size { return T.None, 0, false; }
      var chosen: nat :| chosen < |freeRanges| && freeRanges[chosen].size >= size;
      var atHighEnd: bool := *;
      var range := freeRanges[chosen];
      var remaining := range.size - size;
      index, high := chosen, atHighEnd;
      if atHighEnd {
        result := T.Some(range.base + range.size - size);
        freeRanges := if remaining != 0 then freeRanges[chosen := Range(range.base, remaining)]
                      else freeRanges[..chosen] + freeRanges[chosen + 1..];
      } else {
        result := T.Some(range.base);
        freeRanges := if remaining != 0 then freeRanges[chosen := Range(range.base + size, remaining)]
                      else freeRanges[..chosen] + freeRanges[chosen + 1..];
      }
    }

    /** free_range: append, sort, merge; the ranges stay sorted and apart. */
    method FreeRange(start: nat, size: nat)
      requires Gapped(freeRanges) && Aligned(freeRanges, granuleShift) && size > 0 && Clear(freeRanges, Range(start, size))
      requires Low(start, granuleShift) == 0 && Low(size, granuleShift) == 0
      modifies this`freeRanges
      ensures Gapped(freeRanges) && Aligned(freeRanges, granuleShift)
      ensures forall a: nat :: Covers(freeRanges, a) <==> Covers(old(freeRanges), a) || Range(start, size).Has(a)
    {
      hide Low, Sort, Place, Covers;
      ghost var x := Range(start, size);
      SortAppended(freeRanges, x);
      PlaceSorted(freeRanges, x);
      PlaceMembers(freeRanges, x);
      MembersAligned(freeRanges, Place(freeRanges, x), x, granuleShift);
      forall a: nat
        ensures Covers(Place(freeRanges, x), a) <==> Covers(freeRanges, a) || x.Has(a)
      {
        PlaceCovers(freeRanges, x, a);
      }
      freeRanges := freeRanges + [Range(start, size)];
      freeRanges := Sort(freeRanges);
      freeRanges := Merge(freeRanges, granuleShift);
    }

    /** insert. */
    method Insert()
      requires Valid()
      modifies this
      ensures Valid() && nextHandle >= old(nextHandle) && (old(nextHandle) < MACHINE.WordMax() ==> nextHandle <= old(nextHandle) + 1)
      ensures events == old(events) ==> allocations == old(allocations) && freeRanges == old(freeRanges) && nextHandle == old(nextHandle)
      ensures events != old(events) ==>
                && |allocations| == |old(allocations)| + 1 && allocations[..|old(allocations)|] == old(allocations)
                && var x := allocations[|old(allocations)|];
                && x.handle == old(nextHandle) && !x.retired
                && events == old(events) + [T.Event(old(sequence) + 1, x.owner, T.Insert, x.base, x.size, x.handle)]
      ensures Grown(|old(events)|, |old(allocations)|)
    {
      hide Valid, Grown;
      var granules: nat :| granules in [1, 2, 4, 8, 16, 32, 64, 128, 256, 512];
      InsertRun(granules);
    }

    /** insert, once the number of granules is drawn. */
    method InsertRun(granules: nat)
      requires Valid() && 1 <= granules <= 512
      modifies this
      ensures Valid() && Grown(|old(events)|, |old(allocations)|)
      ensures events == old(events) ==>
                && allocations == old(allocations) && freeRanges == old(freeRanges) && nextHandle == old(nextHandle)
                && forall i :: 0 <= i < |freeRanges| ==> freeRanges[i].size < Shl(granules, granuleShift)
      ensures events != old(events) ==>
                && |allocations| == |old(allocations)| + 1 && allocations[..|old(allocations)|] == old(allocations)
                && nextHandle == old(nextHandle) + (if old(nextHandle) == MACHINE.Invalid() then 2 else 1)
                && var x := allocations[|old(allocations)|];
                && x.handle == old(nextHandle) && !x.retired && x.size == Shl(granules, granuleShift)
                && events == old(events) + [T.Event(old(sequence) + 1, x.owner, T.Insert, x.base, x.size, x.handle)]
    {
      hide Partition, Mirrors, Logged, Placed, Pow2, Low, Shl, EventFine, Unusable, T.Advance, Taken, TakenBase;
      var size := Shl(granules, granuleShift);
      WholeGranules(granules, granuleShift);
      ghost var free := freeRanges;
      var address, index, high := AllocateRange(size);
      if address.None? { return; }
      var thread: nat :| thread < threads;
      var handle := nextHandle;
      nextHandle := nextHandle + 1;
      if handle == MACHINE.Invalid() { nextHandle := nextHandle + 1; }
      var x := Allocation(address.value, size, handle, thread, false);
      ghost var before := allocations;
      InsertStep(free, before, base, limit, granuleShift, live, index, size, high, x, sequence + 1, threads, events);
      PlacedInsert(events, before, base, limit, granuleShift, T.Event(sequence + 1, thread, T.Insert, x.base, x.size, handle), x);
      allocations := allocations + [x];
      Emit(thread, T.Insert, address.value, size, handle, handle, T.Marked(live, KeysOf(x, granuleShift), T.Entry(handle, false)));
    }

    /** lookup. */
    method Lookup()
      requires Valid()
      modifies this
      ensures Valid() && nextHandle == old(nextHandle) && allocations == old(allocations) && freeRanges == old(freeRanges)
      ensures if forall i :: 0 <= i < |allocations| ==> allocations[i].retired then events == old(events)
              else exists i, thread, address :: 0 <= i < |allocations| && ActiveLookup(allocations[i], threads, thread, address)
                     && events == old(events) + [T.Event(old(sequence) + 1, thread, T.Lookup, address, 0, allocations[i].handle)]
      ensures Grown(|old(events)|, |old(allocations)|)
    {
      hide Partition, Mirrors, Logged, Placed, Pow2, Low, Shl, EventFine, Unusable, T.Advance;
      if forall i :: 0 <= i < |allocations| ==> allocations[i].retired { return; }
      var i: nat :| i < |allocations| && !allocations[i].retired;
      var x := allocations[i];
      SizesPositive(freeRanges, allocations, base, limit, granuleShift, i);
      var thread: nat :| thread < threads;
      var own: bool := *;
      var offset: nat :| offset < x.size;
      LookupStep(freeRanges, allocations, base, limit, granuleShift, live, i, x.base + offset, sequence + 1, if own then x.owner else thread);
      assert ActiveLookup(allocations[i], threads, if own then x.owner else thread, x.base + offset);
      PlacedUse(events, allocations, base, limit, granuleShift,
                T.Event(sequence + 1, if own then x.owner else thread, T.Lookup, x.base + offset, 0, x.handle), i);
      Emit(if own then x.owner else thread, T.Lookup, x.base + offset, 0, x.handle, nextHandle, live);
    }

    /** Marks allocation i retired and records it: retire, and the first loop of finish. */
    method RetireAt(i: nat)
      requires Valid() && i < |allocations| && !allocations[i].retired
      modifies this
      ensures Valid() && nextHandle == old(nextHandle) && freeRanges == old(freeRanges)
      ensures allocations == old(allocations)[i := old(allocations)[i].(retired := true)]
      ensures var x := old(allocations)[i];
              events == old(events) + [T.Event(old(sequence) + 1, x.owner, T.Retire, x.base, x.size, x.handle)]
    {
      hide Partition, Mirrors, Logged, Placed, Pow2, Low, Shl, EventFine, Unusable, T.Advance;
      var x := allocations[i];
      RetireStep(freeRanges, allocations, base, limit, granuleShift, live, i, sequence + 1);
      PlacedUse(events, allocations, base, limit, granuleShift, T.Event(sequence + 1, x.owner, T.Retire, x.base, x.size, x.handle), i);
      allocations := allocations[i := x.(retired := true)];
      Emit(x.owner, T.Retire, x.base, x.size, x.handle, nextHandle, T.Marked(live, KeysOf(x, granuleShift), T.Entry(x.handle, true)));
    }

    /** retire: any allocation still active, if there is one. */
    method Retire()
      requires Valid()
      modifies this
      ensures Valid() && nextHandle == old(nextHandle)
      ensures (forall i :: 0 <= i < |old(allocations)| ==> old(allocations)[i].retired) ==> allocations == old(allocations) && events == old(events)
      ensures (exists i :: 0 <= i < |old(allocations)| && !old(allocations)[i].retired) ==>
                exists i :: 0 <= i < |old(allocations)| && !old(allocations)[i].retired
                              && allocations == old(allocations)[i := old(allocations)[i].(retired := true)]
      ensures Grown(|old(events)|, |old(allocations)|)
    {
      hide Valid;
      if forall i :: 0 <= i < |allocations| ==> allocations[i].retired { return; }
      var i: nat :| i < |allocations| && !allocations[i].retired;
      RetireAt(i);
    }

    /** quiescent. */
    method Quiescent(thread: nat)
      requires Valid() && thread < threads
      modifies this
      ensures Valid() && nextHandle == old(nextHandle) && allocations == old(allocations) && freeRanges == old(freeRanges)
      ensures events == old(events) + [T.Event(old(sequence) + 1, thread, T.Quiescent, 0, 0, 0)]
    {
      hide Partition, Mirrors, Logged, Placed, Pow2, T.EventKeys;
      NextIsPositive(events, threads, nextHandle, granuleShift, live);
      PlacedQuiescent(events, allocations, base, limit, granuleShift, T.Event(sequence + 1, thread, T.Quiescent, 0, 0, 0));
      Emit(thread, T.Quiescent, 0, 0, 0, nextHandle, live);
    }

    /** Records the removal of allocation i, forgets it and gives its range back: remove_retired, and the last loop of finish. */
    method RemoveAt(i: nat)
      requires Valid() && i < |allocations|
      modifies this
      ensures Valid() && nextHandle == old(nextHandle) && allocations == Without(old(allocations), i)
      ensures var x := old(allocations)[i];
              events == old(events) + [T.Event(old(sequence) + 1, x.owner, T.Remove, x.base, x.size, x.handle)]
    {
      hide Partition, Mirrors, Logged, Placed, Pow2, Low, Shl, EventFine, Unusable, T.Advance, Covers;
      var x := allocations[i];
      ghost var free, before := freeRanges, allocations;
      RemoveStep(free, before, base, limit, granuleShift, live, i, sequence + 1);
      PlacedUse(events, allocations, base, limit, granuleShift, T.Event(sequence + 1, x.owner, T.Remove, x.base, x.size, x.handle), i);
      Emit(x.owner, T.Remove, x.base, x.size, x.handle, nextHandle, live - KeysOf(x, granuleShift));
      allocations := allocations[..i] + allocations[i + 1..];
      FreeRange(x.base, x.size);
      ReleasePartition(free, freeRanges, before, base, limit, granuleShift, i);
      WithoutBelow(before, threads, nextHandle, i);
    }

    /** remove_retired: any retired allocation, if there is one. */
    method RemoveRetired()
      requires Valid()
      modifies this
      ensures Valid() && nextHandle == old(nextHandle)
      ensures (forall i :: 0 <= i < |old(allocations)| ==> !old(allocations)[i].retired) ==> allocations == old(allocations) && events == old(events)
      ensures (exists i :: 0 <= i < |old(allocations)| && old(allocations)[i].retired) ==>
                exists i :: 0 <= i < |old(allocations)| && old(allocations)[i].retired && allocations == Without(old(allocations), i)
      ensures Grown(|old(events)|, |old(allocations)|)
    {
      hide Valid;
      if forall i :: 0 <= i < |allocations| ==> !allocations[i].retired { return; }
      var i: nat :| i < |allocations| && allocations[i].retired;
      RemoveAt(i);
    }

    /** step: any of the five actions. */
    method Step()
      requires Valid()
      modifies this
      ensures Valid() && nextHandle >= old(nextHandle) && (old(nextHandle) < MACHINE.WordMax() ==> nextHandle <= old(nextHandle) + 1)
      ensures Grown(|old(events)|, |old(allocations)|)
    {
      var roll: nat :| roll < 5;
      var thread := AnyThread();
      hide Valid;
      if roll == 0 { Insert(); }
      else if roll == 1 { Lookup(); }
      else if roll == 2 { Retire(); }
      else if roll == 3 { Quiescent(thread); }
      else { RemoveRetired(); }
    }

    method AnyThread() returns (thread: nat)
      requires Valid()
      ensures thread < threads
    {
      thread :| thread < threads;
    }

    method QuiescentAll()
      requires Valid()
      modifies this
      ensures Valid() && nextHandle == old(nextHandle) && allocations == old(allocations)
      ensures |events| == |old(events)| + threads
    {
      hide Valid;
      var thread := 0;
      while thread < threads
        invariant thread <= threads && Valid() && nextHandle == old(nextHandle) && allocations == old(allocations)
        invariant |events| == |old(events)| + thread
      {
        Quiescent(thread);
        thread := thread + 1;
      }
    }

    /** finish: everything is retired, then removed; the free list ends as one range over the whole arena. */
    method Finish()
      requires Valid()
      modifies this
      ensures Valid() && nextHandle == old(nextHandle)
      ensures allocations == [] && freeRanges == [Range(base, limit - base)]
      ensures |events| <= |old(events)| + 2 * threads + 2 * |old(allocations)|
    {
      hide Valid, Without;
      QuiescentAll();
      var i := 0;
      while i < |allocations|
        invariant i <= |allocations| == |old(allocations)| && Valid() && nextHandle == old(nextHandle)
        invariant |events| <= |old(events)| + threads + i
      {
        if !allocations[i].retired { RetireAt(i); }
        i := i + 1;
      }
      QuiescentAll();
      while allocations != []
        invariant Valid() && nextHandle == old(nextHandle)
        invariant |events| + |allocations| <= |old(events)| + 2 * threads + 2 * |old(allocations)|
        decreases |allocations|
      {
        WithoutShorter(allocations, 0);
        RemoveAt(0);
      }
      OneRangeLeft();
    }

    lemma OneRangeLeft()
      requires Valid() && allocations == []
      ensures freeRanges == [Range(base, limit - base)]
    {
      hide Mirrors, Logged, Pow2;
      assert Ranges(allocations) == [];
      SoleRange(freeRanges, base, limit);
    }

    /** main: any number of steps, then finish. */
    method Generate(steps: nat) returns (trace: T.Trace)
      requires Valid() && events == [] && allocations == [] && nextHandle == 1
      modifies this
      ensures Valid() && trace == T.Trace(1, regionShift, granuleShift, events)
      ensures T.LifecycleValid(MACHINE, trace) <==> S.Count(events, T.Insert) < MACHINE.WordMax() && InsertsFit(events)
      ensures T.LifecycleValid(MACHINE, trace) ==> T.TypedTrace(MACHINE, trace)
      ensures steps < MACHINE.WordMax() ==>
                S.Count(events, T.Insert) <= steps && T.PossibleLive(granuleShift, events) <= 512 * steps && |events| <= 3 * steps + 2 * threads
      ensures InArena(events, base, limit)
      ensures (exists i: nat :: S.Placed(events, i)) <==> S.Count(events, T.Insert) > 0
      ensures forall i :: 0 <= i < |events| ==> events[i].sequence == i + 1 && events[i].thread < threads
      ensures freeRanges == [Range(base, limit - base)]
    {
      hide Valid, Logged, T.LifecycleValid, T.PossibleLive, T.TypedTrace, InsertsFit, InArena, Pow2, S.Count, S.Placed;
      for step := 0 to steps
        invariant Valid() && (step < MACHINE.WordMax() ==> nextHandle <= step + 1) && |events| <= step && |allocations| <= step
      {
        Step();
      }
      Finish();
      WhatIsLogged();
      trace := T.Trace(1, regionShift, granuleShift, events);
    }

    lemma FitsInWord()
      requires Valid()
      ensures limit <= MACHINE.WordMax() ==> InsertsFit(events)
    {
      hide Partition, Mirrors, Logged, Pow2, S.Count, S.Placed, InsertsFit, InArena;
      PlacedInArena(events, allocations, base, limit, granuleShift);
    }

    lemma WhatIsLogged()
      requires Valid()
      ensures var t := T.Trace(1, regionShift, granuleShift, events);
              && (T.LifecycleValid(MACHINE, t) <==> S.Count(events, T.Insert) < MACHINE.WordMax() && InsertsFit(events))
              && (T.LifecycleValid(MACHINE, t) ==> T.TypedTrace(MACHINE, t))
      ensures nextHandle <= MACHINE.WordMax() ==> S.Count(events, T.Insert) + 1 == nextHandle
      ensures T.PossibleLive(granuleShift, events) <= 512 * S.Count(events, T.Insert)
      ensures InArena(events, base, limit) && ((exists i: nat :: S.Placed(events, i)) <==> S.Count(events, T.Insert) > 0)
      ensures forall i :: 0 <= i < |events| ==> events[i].sequence == i + 1 && events[i].thread < threads
    {
      hide Partition, Mirrors, T.LifecycleValid, T.PossibleLive, T.TypedTrace, T.LiveAfter, InsertsFit, InArena, Pow2, S.Count, S.Placed,
        EventFine, Inserted;
      ValidExactly(events, allocations, threads, nextHandle, base, limit, regionShift, granuleShift, live);
      PlacedInArena(events, allocations, base, limit, granuleShift);
    }
  }

  lemma CountPush(events: seq<T.Event>, e: T.Event, op: T.Operation)
    ensures S.Count(events + [e], op) == S.Count(events, op) + if e.operation == op then 1 else 0
    ensures S.Count([], op) == 0
  {
    assert (events + [e])[..|events|] == events;
  }

  /** The arena holds a granule, and there are handles. */
  lemma GranuleInArena(count: nat, rs: nat, gs: nat)
    requires count > 0 && gs <= rs
    ensures 0 < Shl(1, gs) <= Shl(count, rs) && MACHINE.WordMax() >= 1
  {
    hide Shl;
    ShlOne(gs);
    ShlOne(rs);
    Pow2Mono(gs, rs);
    ShlMono(1, count, rs);
    Pow2Mono(1, MACHINE.WordBits());
    assert Pow2(1) == 2;
  }

  /**
   A run that hands out the reserved handle: one granule is inserted, retired and removed
   again as many times as there are handles. The trace it leaves is not lifecycle-valid.
   */
  method ExhaustHandles(threads: nat, granuleShift: nat, regionShift: nat, base: nat, regionCount: nat) returns (trace: T.Trace)
    requires threads > 0 && regionCount > 0 && granuleShift <= regionShift < MACHINE.WordBits() && Low(base, regionShift) == 0
    ensures S.Count(trace.events, T.Insert) == MACHINE.WordMax() && |trace.events| == 3 * MACHINE.WordMax()
    ensures !T.LifecycleValid(MACHINE, trace)
  {
    hide TraceGenerator.Valid, T.LifecycleValid, Low, Shl, Pow2, S.Count, Without;
    var generator := new TraceGenerator(threads, granuleShift, regionShift, base, regionCount);
    ghost var whole := [Range(base, generator.limit - base)];
    GranuleInArena(regionCount, regionShift, granuleShift);
    generator.OneRangeLeft();
    assert S.Count(generator.events, T.Insert) == 0 by { CountPush([], T.Event(0, 0, T.Insert, 0, 0, 0), T.Insert); }
    var n := 0;
    while n < MACHINE.WordMax()
      invariant n <= MACHINE.WordMax() && generator.Valid() && fresh(generator) && generator.allocations == [] && generator.freeRanges == whole
      invariant generator.nextHandle == if n < MACHINE.WordMax() then n + 1 else n + 2
      invariant |generator.events| == 3 * n && S.Count(generator.events, T.Insert) == n
    {
      assert generator.freeRanges[0].size >= Shl(1, granuleShift);
      ghost var start := generator.events;
      generator.InsertRun(1);
      CountPush(start, generator.events[3 * n], T.Insert);
      ghost var inserted := generator.events;
      generator.RetireAt(0);
      CountPush(inserted, generator.events[3 * n + 1], T.Insert);
      ghost var retired, last := generator.events, generator.allocations;
      generator.RemoveAt(0);
      CountPush(retired, generator.events[3 * n + 2], T.Insert);
      WithoutShorter(last, 0);
      generator.OneRangeLeft();
      n := n + 1;
    }
    generator.WhatIsLogged();
    trace := T.Trace(1, regionShift, granuleShift, generator.events);
  }

  /** A run in an arena past the last word: its only insertion cannot be recorded. */
  method PastLastWord(threads: nat, granuleShift: nat, regionShift: nat, base: nat, regionCount: nat) returns (trace: T.Trace)
    requires threads > 0 && regionCount > 0 && granuleShift <= regionShift < MACHINE.WordBits() && Low(base, regionShift) == 0
    requires base > MACHINE.WordMax()
    ensures S.Count(trace.events, T.Insert) == 1 && !T.LifecycleValid(MACHINE, trace)
  {
    hide TraceGenerator.Valid, T.LifecycleValid, Low, Shl, Pow2, S.Count;
    var generator := new TraceGenerator(threads, granuleShift, regionShift, base, regionCount);
    GranuleInArena(regionCount, regionShift, granuleShift);
    generator.OneRangeLeft();
    assert generator.freeRanges[0].size >= Shl(1, granuleShift);
    generator.InsertRun(1);
    CountPush([], generator.events[0], T.Insert);
    generator.WhatIsLogged();
    assert S.Placed(generator.events, 0) && generator.events[0].operation.Insert?;
    trace := T.Trace(1, regionShift, granuleShift, generator.events);
  }

  /** Every address of the log lies in the arena. */
  ghost predicate InArena(events: seq<T.Event>, base: nat, limit: nat) {
    forall i: nat :: S.Placed(events, i) ==> base <= events[i].address && S.EventEnd(events[i]) <= limit
  }

  lemma PlacedInArena(events: seq<T.Event>, s: seq<Allocation>, base: nat, limit: nat, gs: nat)
    requires Placed(events, s, base, limit, gs)
    ensures InArena(events, base, limit) && (limit <= MACHINE.WordMax() ==> InsertsFit(events))
    ensures (exists i: nat :: S.Placed(events, i)) <==> S.Count(events, T.Insert) > 0
  {
    hide Pow2;
    CountPositive(events, T.Insert);
    if i: nat :| S.Placed(events, i) {
      assert Inserted(events, events[i].address, S.EventEnd(events[i]));
    }
    if i :| 0 <= i < |events| && events[i].operation.Insert? {
      assert S.Placed(events, i);
    }
  }

  lemma {:induction false} CountPositive(events: seq<T.Event>, op: T.Operation)
    ensures S.Count(events, op) > 0 <==> exists i :: 0 <= i < |events| && events[i].operation == op
  {
    if events != [] {
      var n := |events| - 1;
      CountPositive(events[..n], op);
      if i :| 0 <= i < n && events[i].operation == op { assert events[..n][i].operation == op; }
    }
  }

  lemma LogStart(threads: nat, gs: nat, base: nat, limit: nat)
    ensures Logged([], threads, 1, gs, map[]) && Mirrors(map[], [], gs) && Placed([], [], base, limit, gs)
  {
    Pow2Mono(1, MACHINE.WordBits());
    assert Pow2(1) == 2;
  }

  lemma NextIsPositive(events: seq<T.Event>, threads: nat, nextHandle: nat, gs: nat, live: T.Live)
    requires Logged(events, threads, nextHandle, gs, live)
    ensures nextHandle >= 1 && MACHINE.WordMax() >= 1
  {
    Pow2Mono(1, MACHINE.WordBits());
    assert Pow2(1) == 2;
  }

  lemma MembersAligned(s: seq<Range>, t: seq<Range>, x: Range, gs: nat)
    requires Aligned(s, gs) && Low(x.base, gs) == 0 && Low(x.size, gs) == 0
    requires forall r :: r in t ==> r == x || r in s
    ensures Aligned(t, gs)
  {
    hide Low;
    forall i | 0 <= i < |t|
      ensures Low(t[i].base, gs) == 0 && Low(t[i].size, gs) == 0
    {
      assert t[i] in t;
    }
  }

  lemma WholeGranules(granules: nat, gs: nat)
    requires granules >= 1
    ensures Shl(granules, gs) > 0 && Low(Shl(granules, gs), gs) == 0 && Shr(Shl(granules, gs), gs) == granules
  {
    hide Shl, Low, Pow2;
    Unsplit(granules, 0, gs);
    ShlMono(0, granules, gs);
    ShlOne(gs);
  }

  lemma SizesPositive(free: seq<Range>, live: seq<Allocation>, base: nat, limit: nat, gs: nat, i: nat)
    requires Partition(free, live, base, limit, gs) && i < |live|
    ensures live[i].size > 0
  {
  }

  lemma WithoutShorter(s: seq<Allocation>, i: nat)
    requires i < |s|
    ensures |Without(s, i)| == |s| - 1
  {
  }

  lemma WithoutBelow(s: seq<Allocation>, threads: nat, nextHandle: nat, i: nat)
    requires i < |s| && HandlesBelow(s, threads, nextHandle)
    ensures HandlesBelow(Without(s, i), threads, nextHandle)
  {
  }

  /** A range event over an aligned stretch of the arena has the shape the validator asks for. */
  lemma RangeFine(e: T.Event, gs: nat)
    requires T.RangeOperation(e.operation) && e.size > 0 && Low(e.address, gs) == 0 && Low(e.size, gs) == 0
    ensures EventFine(e, gs)
  {
    hide Low, Pow2;
    AndMask(e.address, gs);
    AndMask(e.size, gs);
  }

  lemma InsertStep(free: seq<Range>, allocations: seq<Allocation>, base: nat, limit: nat, gs: nat, live: T.Live,
                   index: nat, size: nat, high: bool, x: Allocation, sequence: nat, threads: nat, events: seq<T.Event>)
    requires Partition(free, allocations, base, limit, gs) && Mirrors(live, allocations, gs)
    requires index < |free| && 0 < size <= free[index].size && Low(size, gs) == 0 && !x.retired
    requires x.base == TakenBase(free, index, size, high) && x.size == size
    requires HandlesBelow(allocations, threads, x.handle) && x.owner < threads && Logged(events, threads, x.handle, gs, live)
    ensures Partition(Taken(free, index, size, high), allocations + [x], base, limit, gs)
    ensures base <= x.base && x.base + size <= limit
    ensures var next := T.Marked(live, KeysOf(x, gs), T.Entry(x.handle, false));
            var e := T.Event(sequence, x.owner, T.Insert, x.base, x.size, x.handle);
            && Mirrors(next, allocations + [x], gs) && EventFine(e, gs) && T.Advance(MACHINE, gs, live, e) == T.Some(next)
            && (x.handle == MACHINE.Invalid() ==> Unusable(e))
    ensures HandlesBelow(allocations + [x], threads, x.handle + 1) && HandlesBelow(allocations + [x], threads, x.handle + 2)
  {
    hide Low, Pow2, Taken, TakenBase, KeysOf, EventFine, T.Marked, Shl;
    AllocatePartition(free, allocations, base, limit, gs, index, size, high, x);
    forall j, k | 0 <= j < |allocations| && k in KeysOf(allocations[j], gs)
      ensures k !in KeysOf(x, gs)
    {
      assert Ranges(allocations)[j] == RangeOf(allocations[j]);
      KeysApart(allocations[j], x, gs);
    }
    InsertMirrors(live, allocations, gs, x);
    var e := T.Event(sequence, x.owner, T.Insert, x.base, x.size, x.handle);
    RangeFine(e, gs);
    EventKeysAre(e, x, gs);
  }

  lemma EventKeysAre(e: T.Event, x: Allocation, gs: nat)
    requires e.address == x.base && e.size == x.size
    ensures T.EventKeys(e, gs) == KeysOf(x, gs)
  {
  }

  lemma LookupStep(free: seq<Range>, allocations: seq<Allocation>, base: nat, limit: nat, gs: nat, live: T.Live,
                   i: nat, address: nat, sequence: nat, thread: nat)
    requires Partition(free, allocations, base, limit, gs) && Mirrors(live, allocations, gs)
    requires i < |allocations| && RangeOf(allocations[i]).Has(address)
    ensures var e := T.Event(sequence, thread, T.Lookup, address, 0, allocations[i].handle);
            EventFine(e, gs) && T.Advance(MACHINE, gs, live, e) == T.Some(live)
  {
    hide Low, Pow2, KeysOf;
    ReleasedClear(free, allocations, base, limit, gs, i);
    GranuleKey(allocations[i], gs, address);
  }

  lemma RetireStep(free: seq<Range>, allocations: seq<Allocation>, base: nat, limit: nat, gs: nat, live: T.Live, i: nat, sequence: nat)
    requires Partition(free, allocations, base, limit, gs) && Mirrors(live, allocations, gs)
    requires i < |allocations| && !allocations[i].retired
    ensures var x := allocations[i]; var next := T.Marked(live, KeysOf(x, gs), T.Entry(x.handle, true));
            var e := T.Event(sequence, x.owner, T.Retire, x.base, x.size, x.handle);
            && EventFine(e, gs) && T.Advance(MACHINE, gs, live, e) == T.Some(next)
            && Mirrors(next, allocations[i := x.(retired := true)], gs)
    ensures Partition(free, allocations[i := allocations[i].(retired := true)], base, limit, gs)
  {
    hide Low, Pow2, KeysOf, EventFine, T.Marked, Shl, T.Matches;
    var x := allocations[i];
    AllApart(free, allocations, base, limit, gs, i);
    RetireMirrors(live, allocations, gs, i);
    ReleasedClear(free, allocations, base, limit, gs, i);
    var e := T.Event(sequence, x.owner, T.Retire, x.base, x.size, x.handle);
    RangeFine(e, gs);
    EventKeysAre(e, x, gs);
    RetirePartition(free, allocations, base, limit, gs, i);
  }

  lemma RetirePartition(free: seq<Range>, allocations: seq<Allocation>, base: nat, limit: nat, gs: nat, i: nat)
    requires Partition(free, allocations, base, limit, gs) && i < |allocations|
    ensures Partition(free, allocations[i := allocations[i].(retired := true)], base, limit, gs)
  {
    hide Low, Covers;
    assert Ranges(allocations[i := allocations[i].(retired := true)]) == Ranges(allocations);
  }

  lemma RemoveStep(free: seq<Range>, allocations: seq<Allocation>, base: nat, limit: nat, gs: nat, live: T.Live, i: nat, sequence: nat)
    requires Partition(free, allocations, base, limit, gs) && Mirrors(live, allocations, gs)
    requires i < |allocations|
    ensures var x := allocations[i]; var next := live - KeysOf(x, gs);
            var e := T.Event(sequence, x.owner, T.Remove, x.base, x.size, x.handle);
            && EventFine(e, gs) && T.Advance(MACHINE, gs, live, e) == T.Some(next)
            && Mirrors(next, Without(allocations, i), gs)
            && Gapped(free) && Aligned(free, gs) && Clear(free, RangeOf(x)) && x.size > 0 && Low(x.base, gs) == 0 && Low(x.size, gs) == 0
  {
    hide Low, Pow2, KeysOf, EventFine, Shl, T.Matches, Covers;
    var x := allocations[i];
    AllApart(free, allocations, base, limit, gs, i);
    RemoveMirrors(live, allocations, gs, i);
    ReleasedClear(free, allocations, base, limit, gs, i);
    var e := T.Event(sequence, x.owner, T.Remove, x.base, x.size, x.handle);
    RangeFine(e, gs);
    EventKeysAre(e, x, gs);
  }

  /** A thread looks at an address inside an allocation that is not retired. */
  predicate ActiveLookup(x: Allocation, threads: nat, thread: nat, address: nat) { !x.retired && RangeOf(x).Has(address) && thread < threads }

  ghost predicate HandlesBelow(s: seq<Allocation>, threads: nat, nextHandle: nat) {
    forall i :: 0 <= i < |s| ==> s[i].handle < nextHandle && s[i].owner < threads
  }

  lemma ArenaStart(base: nat, count: nat, rs: nat, gs: nat)
    requires gs <= rs && Low(base, rs) == 0 && count > 0
    ensures base < base + Shl(count, rs)
    ensures Partition([Range(base, Shl(count, rs))], [], base, base + Shl(count, rs), gs)
  {
    hide Shl, Low, Pow2, Shr;
    ShrShr(base, gs, rs - gs);
    ShrShr(Shl(count, rs), gs, rs - gs);
    Unsplit(count, 0, rs);
    LowSmall(0, gs);
    ShlMono(0, count, rs);
    ShlOne(rs);
    var s := [Range(base, Shl(count, rs))];
    forall a: nat
      ensures Covers(s, a) <==> s[0].Has(a)
    {
    }
    assert Ranges([]) == [];
  }
}
