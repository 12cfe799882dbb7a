/**
 The trace replayer: every event goes to an address index and the answers are compared with
 what the trace recorded. Lifecycle-valid traces replay cleanly.
 */
module Replay {
  import opened Bits
  import opened IndexSpec
  import opened AdaptiveIndex
  import T = TraceModel
  import S = TraceStats
  import V = TraceValidation

  function MachineOf(c: Config): T.Machine { T.Machine(c.wordLog) }

  // ----- coverage

  datatype Range = Range(base: nat, size: nat)

  /** align_coverage: the smallest run of whole regions around all addresses of a trace. */
  function AlignCoverage(m: T.Machine, regionShift: nat, stats: S.Stats): Option<Range>
    requires regionShift <= m.WordBits() && stats.minimum <= m.WordMax() && stats.maximumExclusive <= m.WordMax()
  {
    Pow2Mono(regionShift, m.WordBits());
    var mask := Pow2(regionShift) - 1;
    var base := And(stats.minimum, Not(m.WordBits(), mask));
    if stats.maximumExclusive == 0 || stats.maximumExclusive > m.WordMax() - mask then None
    else
      var high := And(stats.maximumExclusive + mask, Not(m.WordBits(), mask));
      if high <= base then None else Some(Range(base, high - base))
  }

  lemma CoverageFacts(m: T.Machine, regionShift: nat, stats: S.Stats)
    requires regionShift <= m.WordBits() && stats.minimum <= m.WordMax() && stats.maximumExclusive <= m.WordMax()
    requires AlignCoverage(m, regionShift, stats).Some?
    ensures var r := AlignCoverage(m, regionShift, stats).value;
            && Low(r.base, regionShift) == 0 && Low(r.size, regionShift) == 0 && r.size > 0
            && r.base <= stats.minimum && stats.maximumExclusive <= r.base + r.size <= m.WordMax()
  {
    hide Shl, Shr, Low, Pow2, And;
    var w := m.WordBits();
    Pow2Mono(regionShift, w);
    var mask := Pow2(regionShift) - 1;
    AndNotMask(w, stats.minimum, regionShift);
    AndNotMask(w, stats.maximumExclusive + mask, regionShift);
    Aligned(stats.minimum, regionShift);
    Aligned(stats.maximumExclusive + mask, regionShift);
    var r := AlignCoverage(m, regionShift, stats).value;
    AddAligned(r.base, r.size, regionShift);
  }

  /** No run of whole regions around the same addresses is smaller. */
  lemma CoverageSmallest(m: T.Machine, regionShift: nat, stats: S.Stats, low: nat, high: nat)
    requires regionShift <= m.WordBits() && stats.minimum <= m.WordMax() && stats.maximumExclusive <= m.WordMax()
    requires AlignCoverage(m, regionShift, stats).Some?
    requires Low(low, regionShift) == 0 && Low(high, regionShift) == 0 && low <= stats.minimum && stats.maximumExclusive <= high
    ensures var r := AlignCoverage(m, regionShift, stats).value;
            low <= r.base && r.base + r.size <= high
  {
    hide Shl, Shr, Low, Pow2, And;
    var w := m.WordBits();
    Pow2Mono(regionShift, w);
    var top := stats.maximumExclusive + (Pow2(regionShift) - 1);
    AndNotMask(w, stats.minimum, regionShift);
    AndNotMask(w, top, regionShift);
    LargestBelow(low, stats.minimum, regionShift);
    Aligned(top, regionShift);
    MultiplesApart(high, top - Low(top, regionShift), regionShift);
  }

  /** Clearing the low digits leaves the largest multiple below. */
  lemma LargestBelow(low: nat, x: nat, n: nat)
    requires Low(low, n) == 0 && low <= x
    ensures low <= x - Low(x, n)
  {
    hide Shl, Shr, Low, Pow2;
    Aligned(x, n);
    MultiplesApart(x - Low(x, n), low, n);
  }

  lemma Aligned(x: nat, n: nat)
    ensures Low(x - Low(x, n), n) == 0 && Low(x, n) < Pow2(n)
  {
    Split(x, n);
    Unsplit(Shr(x, n), 0, n);
  }

  /** The bounded configuration the replayer builds over a coverage. */
  function BoundedConfig(m: T.Machine, t: T.Trace, r: Range): Config {
    Config(m.wordLog, Bounded, t.regionShift, t.granuleShift, r.base, r.size, m.WordBits())
  }

  /** The sparse configuration of the replayer covers 48 address bits. */
  function SparseConfig(m: T.Machine, t: T.Trace): Config {
    Config(m.wordLog, Sparse, t.regionShift, t.granuleShift, 0, 0, 48)
  }

  // ----- the index mirrors the live map

  ghost predicate Inside(c: Config, address: nat, size: nat) {
    c.base <= address && address - c.base + size <= Shl(c.GranuleCount(), c.granuleShift)
  }

  /** Every INSERT of the list lies inside the index. */
  ghost predicate InsertsInside(c: Config, events: seq<T.Event>) {
    forall i :: 0 <= i < |events| && events[i].operation.Insert? ==> Inside(c, events[i].address, events[i].size)
  }

  ghost predicate Mirrors(c: Config, mapping: Mapping, live: T.Live) {
    && (forall n: nat :: n < c.GranuleCount() ==> (n in mapping <==> c.Address(n) in live))
    && (forall n: nat :: n < c.GranuleCount() && n in mapping ==> mapping[n] == live[c.Address(n)].handle)
    && (forall n :: n in mapping ==> n < c.GranuleCount())
    && (forall k :: k in live ==> Inside(c, k, 1))
  }

  /** An event range inside the index is the run of granules the index sees, and its keys are their addresses. */
  lemma RangeAgrees(c: Config, e: T.Event)
    requires c.Legal() && T.EventShape(MachineOf(c), c.granuleShift, e) && T.RangeOperation(e.operation)
    requires Inside(c, e.address, e.size)
    ensures c.IsWord(e.address) && ValidateRange(c, e.address, e.size).status == Ok
    ensures c.base <= e.address
    ensures forall n: nat :: n < c.GranuleCount() ==>
              (RangeLow(c, e.address) <= n < RangeHigh(c, e.address, e.size) <==> c.Address(n) in T.EventKeys(e, c.granuleShift))
    ensures forall k :: k in T.EventKeys(e, c.granuleShift) ==> Inside(c, k, 1)
  {
    hide Shl, Shr, Low, Pow2, And, Covered, ValidateConfig;
    CoveredGranule(c, e.address);
    CoveredGranule(c, e.address + e.size - 1);
    RangeIsGranules(c, e.address, e.size);
    var lo, count := RangeLow(c, e.address), Shr(e.size, c.granuleShift);
    forall n: nat | n < c.GranuleCount()
      ensures lo <= n < lo + count <==> c.Address(n) in T.EventKeys(e, c.granuleShift)
    {
      KeyOfGranule(c, e, lo, n);
    }
    forall k | k in T.EventKeys(e, c.granuleShift)
      ensures Inside(c, k, 1)
    {
      var j: nat :| j < count && k == T.Key(e.address, j, c.granuleShift);
      ShlAdd(lo, j, c.granuleShift);
      ShlMono(lo + j, c.GranuleCount(), c.granuleShift);
    }
  }

  lemma KeyOfGranule(c: Config, e: T.Event, lo: nat, n: nat)
    requires e.address == c.Address(lo)
    ensures lo <= n < lo + Shr(e.size, c.granuleShift) <==> c.Address(n) in T.EventKeys(e, c.granuleShift)
  {
    hide Shl, Shr;
    if lo <= n < lo + Shr(e.size, c.granuleShift) {
      ShlAdd(lo, n - lo, c.granuleShift);
      assert T.Key(e.address, n - lo, c.granuleShift) == c.Address(n);
    }
    if c.Address(n) in T.EventKeys(e, c.granuleShift) {
      var j: nat :| j < Shr(e.size, c.granuleShift) && c.Address(n) == T.Key(e.address, j, c.granuleShift);
      ShlAdd(lo, j, c.granuleShift);
      ShlMono(n, lo + j, c.granuleShift);
      ShlMono(lo + j, n, c.granuleShift);
    }
  }

  /** A key inside the index is the address of one of its granules, and so is the rest of that granule. */
  lemma GranuleInside(c: Config, k: nat)
    requires c.Legal() && Low(k, c.granuleShift) == 0 && Inside(c, k, 1)
    ensures var n := Shr(k - c.base, c.granuleShift);
            n < c.GranuleCount() && c.Address(n) == k && Inside(c, k, Pow2(c.granuleShift))
  {
    hide Shl, Shr, Low, Pow2, ValidateConfig;
    var gs := c.granuleShift;
    BaseAligned(c);
    AddAligned(c.base, k - c.base, gs);
    Split(k - c.base, gs);
    var n := Shr(k - c.base, gs);
    ShlMono(c.GranuleCount(), n, gs);
    ShlMono(n + 1, c.GranuleCount(), gs);
    ShlAdd(n, 1, gs);
    ShlOne(gs);
  }

  /** A range all of whose granules are live lies inside the index. */
  lemma LiveRangeInside(c: Config, live: T.Live, e: T.Event)
    requires c.Legal() && T.EventShape(MachineOf(c), c.granuleShift, e) && T.RangeOperation(e.operation)
    requires forall k :: k in live ==> Inside(c, k, 1)
    requires forall k :: k in T.EventKeys(e, c.granuleShift) ==> k in live
    ensures Inside(c, e.address, e.size)
  {
    hide Shl, Shr, Low, Pow2, And, T.EventKeys, ValidateConfig;
    var gs := c.granuleShift;
    AndMask(e.size, gs);
    Split(e.size, gs);
    var count := Shr(e.size, gs);
    ShlMono(0, count, gs);
    assert Shl(0, gs) == 0 by { T.KeysGrow(e.address, 0, gs); }
    EndKeys(e, gs, count);
    var last := T.Key(e.address, count - 1, gs);
    S.RangeGrid(MachineOf(c), gs, e, last);
    GranuleInside(c, last);
    ShlAdd(count - 1, 1, gs);
    ShlOne(gs);
  }

  lemma EndKeys(e: T.Event, gs: nat, count: nat)
    requires count == Shr(e.size, gs) && count > 0
    ensures e.address in T.EventKeys(e, gs) && T.Key(e.address, count - 1, gs) in T.EventKeys(e, gs)
  {
    T.KeysGrow(e.address, 0, gs);
    T.KeyInRange(e.address, 0, count, gs);
    T.KeyInRange(e.address, count - 1, count, gs);
  }

  // ----- one event

  lemma InsertAgrees(c: Config, mapping: Mapping, live: T.Live, e: T.Event)
    requires c.Legal() && T.EventShape(MachineOf(c), c.granuleShift, e) && e.operation.Insert? && Inside(c, e.address, e.size)
    requires Mirrors(c, mapping, live) && T.Advance(MachineOf(c), c.granuleShift, live, e).Some?
    ensures c.IsWord(e.address)
    ensures InsertSpec(c, false, mapping, e.address, e.size, e.handle).status == Ok
    ensures Mirrors(c, InsertSpec(c, false, mapping, e.address, e.size, e.handle).mapping,
                    T.Advance(MachineOf(c), c.granuleShift, live, e).value)
  {
    hide Mirrors, Free, Filled, T.Marked, Shl, Shr, Low, Pow2, And, T.EventKeys, Inside,
      Config.Legal, ValidateRange, RangeLow, RangeHigh, Config.Address, Config.GranuleCount;
    RangeAgrees(c, e);
    RangeIsGranules(c, e.address, e.size);
    var lo, hi := RangeLow(c, e.address), RangeHigh(c, e.address, e.size);
    var keys := T.EventKeys(e, c.granuleShift);
    MirrorsFilled(c, mapping, live, keys, T.Entry(e.handle, false), lo, hi);
  }

  lemma MirrorsFilled(c: Config, mapping: Mapping, live: T.Live, keys: set<nat>, entry: T.Entry, lo: nat, hi: nat)
    requires Mirrors(c, mapping, live) && hi <= c.GranuleCount()
    requires forall n: nat :: n < c.GranuleCount() ==> (lo <= n < hi <==> c.Address(n) in keys)
    requires forall k :: k in keys ==> Inside(c, k, 1)
    ensures Mirrors(c, mapping + Filled(lo, hi, entry.handle), T.Marked(live, keys, entry))
    ensures (forall k :: k in keys ==> k !in live) ==> Free(mapping, lo, hi)
  {
    hide Inside, Config.Address, Config.GranuleCount;
    var mapping', live' := mapping + Filled(lo, hi, entry.handle), T.Marked(live, keys, entry);
    forall n: nat | n < c.GranuleCount()
      ensures n in mapping' <==> c.Address(n) in live'
      ensures n in mapping' ==> mapping'[n] == live'[c.Address(n)].handle
    {
    }
  }

  /** Unmapping agrees too, and a range the live map accepts is always inside. */
  lemma RemoveAgrees(c: Config, mapping: Mapping, live: T.Live, e: T.Event)
    requires c.Legal() && T.EventShape(MachineOf(c), c.granuleShift, e) && e.operation.Remove?
    requires Mirrors(c, mapping, live) && T.Advance(MachineOf(c), c.granuleShift, live, e).Some?
    ensures c.IsWord(e.address)
    ensures RemoveSpec(c, false, mapping, e.address, e.size, e.handle).status == Ok
    ensures Mirrors(c, RemoveSpec(c, false, mapping, e.address, e.size, e.handle).mapping,
                    T.Advance(MachineOf(c), c.granuleShift, live, e).value)
  {
    hide Shl, Shr, Low, Pow2, And, T.EventKeys, Inside, Config.Legal, ValidateRange, RangeLow, RangeHigh, Config.Address, Config.GranuleCount;
    LiveRangeInside(c, live, e);
    RangeAgrees(c, e);
    RangeIsGranules(c, e.address, e.size);
  }

  lemma RetireAgrees(c: Config, mapping: Mapping, live: T.Live, e: T.Event)
    requires Mirrors(c, mapping, live) && e.operation.Retire? && T.Advance(MachineOf(c), c.granuleShift, live, e).Some?
    ensures Mirrors(c, mapping, T.Advance(MachineOf(c), c.granuleShift, live, e).value)
  {
    hide T.EventKeys, Inside, Config.Address, Config.GranuleCount;
  }

  lemma SparseBase(c: Config)
    requires c.Legal()
    ensures c.mode.Sparse? ==> c.base == 0
  {
  }

  /** A lookup answers what the trace recorded, also at addresses outside the index. */
  lemma LookupAgrees(c: Config, mapping: Mapping, live: T.Live, e: T.Event)
    requires c.Legal() && c.IsWord(e.address) && e.operation.Lookup?
    requires Mirrors(c, mapping, live) && T.Advance(MachineOf(c), c.granuleShift, live, e).Some?
    ensures LookupSpec(c, mapping, e.address) == e.handle
  {
    hide Shl, Shr, Low, Pow2, And, Covered, ValidateConfig, AddressToRegion;
    var gs := c.granuleShift;
    CoveredGranule(c, e.address);
    Split(e.address, gs);
    Aligned(e.address, gs);
    var granule := e.address - Low(e.address, gs);
    if Covered(c, e.address) {
      var n := GranuleOf(c, e.address);
      SparseBase(c);
      BaseAligned(c);
      AddAligned(c.base, e.address - c.base, gs);
      Split(e.address - c.base, gs);
      assert c.Address(n) == granule;
    } else if granule in live {
      GranuleInside(c, granule);
    }
  }

  /** An insertion outside the index is refused. */
  lemma OutsideIsRefused(c: Config, mapping: Mapping, e: T.Event)
    requires c.Legal() && c.IsWord(e.address) && e.size > 0 && !Inside(c, e.address, e.size)
    ensures InsertSpec(c, false, mapping, e.address, e.size, e.handle).status != Ok
  {
    hide Shl, Shr, Low, Pow2, And, Covered, ValidateConfig, AddressToRegion, RangeLow, RangeHigh;
    CoveredGranule(c, e.address);
    if ValidateRange(c, e.address, e.size).status.Ok? {
      CoveredGranule(c, e.address + e.size - 1);
    }
  }

  // ----- the whole list

  datatype Result = Result(applied: nat, lookups: nat, lookupFailures: nat, mutationFailures: nat)

  predicate Clean(r: Result) { r.lookupFailures == 0 && r.mutationFailures == 0 }

  /** The event list is accepted, and an index that met no failure so far holds its live map. */
  ghost predicate Following(c: Config, mapping: Mapping, events: seq<T.Event>, r: Result) {
    && T.LiveAfter(MachineOf(c), c.granuleShift, events).Some?
    && r.applied == |events| && r.lookups == S.Count(events, T.Lookup)
    && (Clean(r) <==> InsertsInside(c, events))
    && (Clean(r) ==> Mirrors(c, mapping, T.LiveAfter(MachineOf(c), c.granuleShift, events).value))
  }

  method ReplayEvent(index: MemxIndex, e: T.Event, before: Result) returns (after: Result)
    requires index.Valid() && T.Typed(MachineOf(index.c), e)
    modifies index, index.allocator
    ensures index.Valid() && index.overlayMode == old(index.overlayMode) && index.flatMode == old(index.flatMode)
    ensures index.allocator.failures >= old(index.allocator.failures)
    ensures after.applied == before.applied + 1
    ensures after.lookups == before.lookups + if e.operation.Lookup? then 1 else 0
    ensures index.c.Legal() && index.c.IsWord(e.address)
    ensures index.allocator.failures == old(index.allocator.failures) ==>
              EventEffect(index.c, index.overlayMode, old(index.Mapping()), e, before, index.Mapping(), after)
  {
    hide MemxIndex.Valid, MemxIndex.Mapping, MemxIndex.Canonical, InsertSpec, RemoveSpec, LookupSpec, Config.Legal;
    index.LegalIndex();
    after := before.(applied := before.applied + 1);
    var status := Ok;
    match e.operation {
      case Insert => status := index.Insert(e.address, e.size, e.handle);
      case Lookup =>
        var handle := index.LookupAddress(e.address);
        after := after.(lookups := before.lookups + 1);
        if handle != e.handle { after := after.(lookupFailures := before.lookupFailures + 1); }
      case Retire =>
      case Remove => status := index.Remove(e.address, e.size, e.handle);
      case Quiescent =>
      case Unknown => status := InvalidArgument;
    }
    if status != Ok { after := after.(mutationFailures := before.mutationFailures + 1); }
  }

  /** What one event does to the mapping and the failure counters when no allocation fails. */
  ghost predicate EventEffect(c: Config, frozen: bool, m: Mapping, e: T.Event, before: Result, m': Mapping, after: Result)
    requires c.Legal() && c.IsWord(e.address)
  {
    match e.operation
    case Insert => SameOutcome(InsertSpec(c, frozen, m, e.address, e.size, e.handle), before, m', after)
    case Remove => SameOutcome(RemoveSpec(c, frozen, m, e.address, e.size, e.handle), before, m', after)
    case Lookup =>
      && m' == m && after.mutationFailures == before.mutationFailures
      && after.lookupFailures == before.lookupFailures + if LookupSpec(c, m, e.address) == e.handle then 0 else 1
    case Unknown => SameOutcome(Outcome(InvalidArgument, m), before, m', after)
    case _ => SameOutcome(Outcome(Ok, m), before, m', after)
  }

  ghost predicate SameOutcome(o: Outcome, before: Result, m': Mapping, after: Result) {
    && m' == o.mapping && after.lookupFailures == before.lookupFailures
    && after.mutationFailures == before.mutationFailures + if o.status == Ok then 0 else 1
  }

  /** One step of the main induction. */
  lemma FollowingStep(c: Config, m: Mapping, events: seq<T.Event>, i: nat, before: Result, m': Mapping, after: Result)
    requires i < |events| && c.Legal() && c.IsWord(events[i].address)
    requires T.EventShape(MachineOf(c), c.granuleShift, events[i])
    requires T.LiveAfter(MachineOf(c), c.granuleShift, events[..i + 1]).Some?
    requires Following(c, m, events[..i], before)
    requires EventEffect(c, false, m, events[i], before, m', after)
    requires after.applied == before.applied + 1 && after.lookups == before.lookups + if events[i].operation.Lookup? then 1 else 0
    ensures Following(c, m', events[..i + 1], after)
  {
    hide InsertSpec, RemoveSpec, LookupSpec, Config.Legal, Mirrors, T.Advance, T.EventShape, Inside;
    var e := events[i];
    assert events[..i + 1][..i] == events[..i] && events[..i + 1][i] == e;
    InsideGrows(c, events, i);
    if Clean(before) {
      var live := T.LiveAfter(MachineOf(c), c.granuleShift, events[..i]).value;
      CleanStep(c, m, live, e);
    }
  }

  lemma InsideGrows(c: Config, events: seq<T.Event>, i: nat)
    requires i < |events|
    ensures InsertsInside(c, events[..i + 1]) <==>
              InsertsInside(c, events[..i]) && (events[i].operation.Insert? ==> Inside(c, events[i].address, events[i].size))
  {
    hide Inside;
  }

  lemma CleanStep(c: Config, m: Mapping, live: T.Live, e: T.Event)
    requires c.Legal() && c.IsWord(e.address) && T.EventShape(MachineOf(c), c.granuleShift, e)
    requires Mirrors(c, m, live) && T.Advance(MachineOf(c), c.granuleShift, live, e).Some?
    ensures var live' := T.Advance(MachineOf(c), c.granuleShift, live, e).value;
            match e.operation
            case Insert =>
              var o := InsertSpec(c, false, m, e.address, e.size, e.handle);
              (o.status == Ok <==> Inside(c, e.address, e.size)) && (o.status == Ok ==> Mirrors(c, o.mapping, live'))
            case Remove =>
              var o := RemoveSpec(c, false, m, e.address, e.size, e.handle);
              o.status == Ok && Mirrors(c, o.mapping, live')
            case Lookup => LookupSpec(c, m, e.address) == e.handle && Mirrors(c, m, live')
            case _ => Mirrors(c, m, live')
    ensures !e.operation.Unknown?
  {
    hide InsertSpec, RemoveSpec, LookupSpec, Config.Legal, Mirrors, Inside, Low, And, Pow2, T.EventKeys;
    match e.operation {
      case Insert => if Inside(c, e.address, e.size) { InsertAgrees(c, m, live, e); } else { OutsideIsRefused(c, m, e); }
      case Remove => RemoveAgrees(c, m, live, e);
      case Lookup => LookupAgrees(c, m, live, e);
      case Retire => RetireAgrees(c, m, live, e);
      case _ =>
    }
  }

  /**
   replay: on a lifecycle-valid trace, and when no allocation fails, an empty index of either
   directory meets no lookup failure and no mutation failure exactly when every INSERT lies
   inside the addresses it covers.
   */
  method ReplayInto(index: MemxIndex, t: T.Trace) returns (r: Result)
    requires index.Valid() && index.Mapping() == map[] && !index.overlayMode
    requires T.TypedTrace(MachineOf(index.c), t) && T.LifecycleValid(MachineOf(index.c), t) && index.c.granuleShift == t.granuleShift
    modifies index, index.allocator
    ensures index.Valid()
    ensures r.applied == |t.events| && r.lookups == S.Count(t.events, T.Lookup)
    ensures index.allocator.failures >= old(index.allocator.failures)
    ensures index.allocator.failures == old(index.allocator.failures) ==> Following(index.c, index.Mapping(), t.events, r)
  {
    hide MemxIndex.Valid, MemxIndex.Mapping, MemxIndex.Canonical, Config.Legal, EventEffect, T.EventShape, Following, T.Typed, T.TypedTrace,
      T.LifecycleValid, T.LiveAfter, S.Count;
    r := Result(0, 0, 0, 0);
    ghost var c := index.c;
    index.LegalIndex();
    FollowingStart(c, t.events);
    CountNone(t.events);
    var i := 0;
    while i < |t.events|
      invariant i <= |t.events| && index.Valid() && !index.overlayMode
      invariant r.applied == i && r.lookups == S.Count(t.events[..i], T.Lookup)
      invariant index.allocator.failures >= old(index.allocator.failures)
      invariant index.allocator.failures == old(index.allocator.failures) ==> Following(c, index.Mapping(), t.events[..i], r)
    {
      ghost var before, m := r, index.Mapping();
      EventReady(MachineOf(c), t, i);
      r := ReplayEvent(index, t.events[i], r);
      if index.allocator.failures == old(index.allocator.failures) {
        FollowingStep(c, m, t.events, i, before, index.Mapping(), r);
      }
      i := i + 1;
    }
    assert t.events[..i] == t.events;
  }

  /** What a lifecycle-valid trace promises about its next event. */
  lemma EventReady(m: T.Machine, t: T.Trace, i: nat)
    requires T.LifecycleValid(m, t) && T.TypedTrace(m, t) && i < |t.events|
    ensures T.EventShape(m, t.granuleShift, t.events[i]) && T.Typed(m, t.events[i])
    ensures T.LiveAfter(m, t.granuleShift, t.events[..i + 1]).Some?
    ensures S.Count(t.events[..i + 1], T.Lookup) == S.Count(t.events[..i], T.Lookup) + if t.events[i].operation.Lookup? then 1 else 0
  {
    hide T.EventShape, T.LiveAfter, T.Typed, T.HeaderShape;
    assert t.events[..i + 1][..i] == t.events[..i];
    T.PrefixAccepted(m, t.granuleShift, t.events, i + 1);
    assert T.EventGood(m, t, i);
  }

  lemma CountNone(events: seq<T.Event>)
    ensures S.Count(events[..0], T.Lookup) == 0
  {
  }

  lemma FollowingStart(c: Config, events: seq<T.Event>)
    ensures Following(c, map[], events[..0], Result(0, 0, 0, 0))
  {
  }

  // ----- the two replays of a trace

  /** Aligned coverage contains every byte of every event. */
  lemma CoverageHolds(m: T.Machine, t: T.Trace, stats: S.Stats)
    requires T.StructureGood(m, t) && S.Covers(stats, t.events)
    requires stats.minimum <= m.WordMax() && stats.maximumExclusive <= m.WordMax()
    requires AlignCoverage(m, t.regionShift, stats).Some?
    ensures var c := BoundedConfig(m, t, AlignCoverage(m, t.regionShift, stats).value);
            ValidateConfig(c) == Ok && c.IsWord(c.base) && c.IsWord(c.managedSize) && (m.wordLog >= 1 ==> InsertsInside(c, t.events))
  {
    hide Shl, Shr, Low, Pow2, And, T.EventShape;
    CoverageFacts(m, t.regionShift, stats);
    var c := BoundedConfig(m, t, AlignCoverage(m, t.regionShift, stats).value);
    if m.wordLog >= 1 {
      CoverageLength(c);
      forall i | 0 <= i < |t.events| && t.events[i].operation.Insert?
        ensures Inside(c, t.events[i].address, t.events[i].size)
      {
        assert S.Placed(t.events, i);
      }
    }
  }

  /** The coverage exists exactly when some event names an address and the last one leaves room to round up. */
  lemma CoverageExists(m: T.Machine, t: T.Trace, stats: S.Stats)
    requires T.StructureGood(m, t) && S.Covers(stats, t.events)
    requires stats.minimum <= m.WordMax() && stats.maximumExclusive <= m.WordMax()
    requires (exists i: nat :: S.Placed(t.events, i)) ==> S.Attained(stats, t.events)
    requires (forall i: nat :: !S.Placed(t.events, i)) ==> stats.maximumExclusive == 0
    ensures AlignCoverage(m, t.regionShift, stats).Some? <==>
              (exists i: nat :: S.Placed(t.events, i)) && stats.maximumExclusive <= m.WordMax() - (Pow2(t.regionShift) - 1)
  {
    hide Shl, Shr, Low, Pow2, And;
    var w := m.WordBits();
    Pow2Mono(t.regionShift, w);
    var mask := Pow2(t.regionShift) - 1;
    if i: nat :| S.Placed(t.events, i) {
      assert T.EventGood(m, t, i);
      assert stats.minimum < stats.maximumExclusive;
      if stats.maximumExclusive <= m.WordMax() - mask {
        AndNotMask(w, stats.minimum, t.regionShift);
        AndNotMask(w, stats.maximumExclusive + mask, t.regionShift);
        Aligned(stats.maximumExclusive + mask, t.regionShift);
      }
    }
  }

  /** The statistics of a typed, well-shaped trace are words. */
  lemma StatsAreWords(m: T.Machine, t: T.Trace, stats: S.Stats)
    requires T.StructureGood(m, t) && T.TypedTrace(m, t)
    requires (exists i: nat :: S.Placed(t.events, i)) ==> S.Attained(stats, t.events)
    requires (forall i: nat :: !S.Placed(t.events, i)) ==> stats.minimum == 0 == stats.maximumExclusive
    ensures stats.minimum <= m.WordMax() && stats.maximumExclusive <= m.WordMax()
  {
    hide Pow2, And;
    if exists i: nat :: S.Placed(t.events, i) {
      var low: nat :| S.Placed(t.events, low) && t.events[low].address == stats.minimum;
      var high: nat :| S.Placed(t.events, high) && S.EventEnd(t.events[high]) == stats.maximumExclusive;
      assert T.EventGood(m, t, low) && T.EventGood(m, t, high);
    }
  }

  /** Builds one index, replays the trace into it and destroys it. */
  method ReplayOnce(c: Config, t: T.Trace, allocator: Allocator) returns (built: bool, r: Result)
    requires c.wordLog >= 1 && c.IsWord(c.base) && c.IsWord(c.managedSize) && c.granuleShift == t.granuleShift
    requires T.TypedTrace(MachineOf(c), t) && T.LifecycleValid(MachineOf(c), t)
    modifies allocator
    ensures allocator.live == old(allocator.live) && allocator.mappings == old(allocator.mappings) && allocator.failures >= old(allocator.failures)
    ensures allocator.failures == old(allocator.failures) ==> (built <==> CreateStatus(c) == Ok)
    ensures built ==> r.applied == |t.events| && r.lookups == S.Count(t.events, T.Lookup)
    ensures built && allocator.failures == old(allocator.failures) ==> (Clean(r) <==> InsertsInside(c, t.events))
  {
    hide MemxIndex.Valid, MemxIndex.Mapping, MemxIndex.Canonical, Config.Legal, CreateStatus, T.LifecycleValid, InsertsInside, T.TypedTrace;
    built, r := false, Result(0, 0, 0, 0);
    var status, index := Create(c, allocator);
    if index == null { return; }
    index.NotFrozen();
    built := true;
    r := ReplayInto(index, t);
    index.Destroy();
  }

  datatype Report = Unreplayable | Replayed(bounded: Result, sparse: Result)

  predicate Success(report: Report) { report.Replayed? && Clean(report.bounded) && Clean(report.sparse) }

  /** Whether a trace has an aligned coverage the bounded index can be built over. */
  ghost predicate Coverable(m: T.Machine, t: T.Trace) {
    && (exists i: nat :: S.Placed(t.events, i))
    && (forall i: nat :: S.Placed(t.events, i) ==> S.EventEnd(t.events[i]) <= m.WordMax() - (Pow2(t.regionShift) - 1))
  }

  /**
   The replayer's whole run on a trace read from a file. A lifecycle-valid trace with a
   coverage replays without one lookup or mutation failure into the bounded index, and the
   run succeeds exactly when the sparse index too covers every insertion, provided no
   allocation fails and both indexes can be described at all.
   */
  method ReplayTrace(m: T.Machine, t: T.Trace, hash: nat -> nat, tableGranted: bool, threadsGranted: bool, allocator: Allocator)
    returns (report: Report, ghost bounded: Config)
    requires m.wordLog >= 2 && T.TypedTrace(m, t)
    modifies allocator
    ensures allocator.live == old(allocator.live) && allocator.mappings == old(allocator.mappings) && allocator.failures >= old(allocator.failures)
    ensures report.Replayed? ==> T.LifecycleValid(m, t) && ValidateConfig(bounded) == Ok && InsertsInside(bounded, t.events)
    ensures report.Replayed? && allocator.failures == old(allocator.failures) ==>
              Clean(report.bounded) && (Success(report) <==> InsertsInside(SparseConfig(m, t), t.events))
    ensures report.Replayed? ==> Coverable(m, t)
    ensures
      && tableGranted && threadsGranted && allocator.failures == old(allocator.failures)
      && T.LifecycleValid(m, t) && T.PossibleLive(t.granuleShift, t.events) <= V.MaxGranules() && Coverable(m, t)
      ==> && ValidateConfig(bounded) == Ok && bounded.IsWord(bounded.managedSize)
          && bounded == BoundedConfig(m, t, Range(bounded.base, bounded.managedSize))
          && (report.Replayed? <==> CreateStatus(bounded) == Ok && CreateStatus(SparseConfig(m, t)) == Ok)
  {
    hide T.StructureGood, T.PossibleLive, T.TypedTrace, S.Covers, S.Attained, S.Tallied, AlignCoverage, InsertsInside, CreateStatus,
      ValidateConfig, Coverable, T.LiveAfter, S.Placed;
    report, bounded := Unreplayable, SparseConfig(m, t);
    var status, stats := S.CalculateStats(m, t, hash, tableGranted, threadsGranted);
    if status != V.Ok { return; }
    StatsAreWords(m, t, stats);
    ShiftFits(m, t);
    CoverageAgrees(m, t, stats);
    var coverage := AlignCoverage(m, t.regionShift, stats);
    if coverage.None? { return; }
    CoverageHolds(m, t, stats);
    var c := BoundedConfig(m, t, coverage.value);
    bounded := c;
    var built, first := ReplayOnce(c, t, allocator);
    if !built { return; }
    var sparseBuilt, second := ReplayOnce(SparseConfig(m, t), t, allocator);
    if !sparseBuilt { return; }
    report := Replayed(first, second);
  }

  lemma ShiftFits(m: T.Machine, t: T.Trace)
    requires T.StructureGood(m, t)
    ensures t.regionShift <= m.WordBits()
  {
  }

  lemma CoverageAgrees(m: T.Machine, t: T.Trace, stats: S.Stats)
    requires T.StructureGood(m, t) && S.Covers(stats, t.events)
    requires stats.minimum <= m.WordMax() && stats.maximumExclusive <= m.WordMax()
    requires (exists i: nat :: S.Placed(t.events, i)) ==> S.Attained(stats, t.events)
    requires (forall i: nat :: !S.Placed(t.events, i)) ==> stats.maximumExclusive == 0
    ensures AlignCoverage(m, t.regionShift, stats).Some? <==> Coverable(m, t)
  {
    hide Shl, Shr, Low, Pow2, And, AlignCoverage;
    CoverageExists(m, t, stats);
  }
}
