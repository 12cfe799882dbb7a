/** The tools end to end: what is generated is accepted when read, and replays cleanly. */
module Pipeline {
  import opened Bits
  import opened Generator
  import N = Numerals
  import X = TraceText
  import T = TraceModel
  import S = TraceStats
  import V = TraceValidation
  import R = Replay
  import IndexSpec
  import AdaptiveIndex

  lemma DoubleSixteen(k: nat)
    ensures Pow2(k + 4) == 16 * Pow2(k)
  {
    assert Pow2(k + 1) == 2 * Pow2(k) && Pow2(k + 2) == 2 * Pow2(k + 1) && Pow2(k + 3) == 2 * Pow2(k + 2);
  }

  lemma DoubleSixteenBits(k: nat)
    ensures Pow2(k + 16) == 0x1_0000 * Pow2(k)
  {
    hide Pow2;
    DoubleSixteen(k);
    DoubleSixteen(k + 4);
    DoubleSixteen(k + 8);
    DoubleSixteen(k + 12);
  }

  lemma SmallPowers()
    ensures Pow2(0) == 1 && Pow2(6) == 64
  {
    assert Pow2(1) == 2 && Pow2(2) == 4 && Pow2(3) == 8 && Pow2(4) == 16 && Pow2(5) == 32;
  }

  /** The generator's machine has the words strtoull reads. */
  lemma WordIsLongLong()
    ensures MACHINE.WordMax() == N.ULL_MAX
  {
    hide Pow2;
    SmallPowers();
    DoubleSixteenBits(0);
    DoubleSixteenBits(16);
    DoubleSixteenBits(32);
    DoubleSixteenBits(48);
  }

  /** Generated numbers fit the fields of the text format. */
  lemma GeneratedPrints(t: T.Trace, threads: nat)
    requires t.version == 1 && t.granuleShift <= t.regionShift <= 64 && threads <= X.UINT_MAX + 1 && |t.events| <= N.ULL_MAX
    requires forall i :: 0 <= i < |t.events| ==> t.events[i].sequence == i + 1 && t.events[i].thread < threads
    requires T.LifecycleValid(MACHINE, t)
    ensures X.Printable(t)
  {
    hide T.LiveAfter, Pow2;
    forall i | 0 <= i < |t.events|
      ensures X.EventPrintable(t.events[i])
    {
      assert T.EventGood(MACHINE, t, i);
    }
  }

  lemma ShiftsSmall(rs: nat)
    requires rs < MACHINE.WordBits()
    ensures rs < 64
  {
    SmallPowers();
  }

  // ----- what a generated trace brings to the replayer

  /** An arena of whole regions that ends within a word leaves room to round up. */
  lemma ArenaCoverable(t: T.Trace, base: nat, count: nat)
    requires t.regionShift < MACHINE.WordBits() && Low(base, t.regionShift) == 0
    requires base + Shl(count, t.regionShift) <= MACHINE.WordMax() && InArena(t.events, base, base + Shl(count, t.regionShift))
    ensures R.Coverable(MACHINE, t) <==> exists i: nat :: S.Placed(t.events, i)
  {
    hide Shl, Shr, Low, Pow2;
    var rs, w := t.regionShift, MACHINE.WordBits();
    Unsplit(count, 0, rs);
    AddAligned(base, Shl(count, rs), rs);
    Pow2Add(w - rs, rs);
    Unsplit(Pow2(w - rs), 0, rs);
    MultiplesApart(base + Shl(count, rs), Pow2(w), rs);
  }

  /** The last byte the replayer's sparse index can hold. */
  ghost predicate WithinSparse(events: seq<T.Event>) {
    forall i :: 0 <= i < |events| && events[i].operation.Insert? ==> S.EventEnd(events[i]) <= Pow2(48)
  }

  lemma SparseHolds(t: T.Trace)
    requires IndexSpec.ValidateConfig(R.SparseConfig(MACHINE, t)) == IndexSpec.Ok
    ensures R.InsertsInside(R.SparseConfig(MACHINE, t), t.events) <==> WithinSparse(t.events)
  {
    hide Shl, Pow2, IndexSpec.ValidateConfig;
    IndexSpec.CoverageLength(R.SparseConfig(MACHINE, t));
  }

  lemma SixtyFourBits()
    ensures MACHINE.WordBits() == 64
  {
    SmallPowers();
  }

  /** Tables and directories of at most 2^60 words can be described. */
  lemma SlotsFit(x: nat, n: nat)
    requires x <= Pow2(n) && n <= 60
    ensures x <= Shr(MACHINE.WordMax(), 3)
  {
    hide Shl, Shr, Low, Pow2;
    SixtyFourBits();
    Pow2Mono(n, 60);
    Pow2Add(60, 3);
    Pow2Mono(63, 64);
    ShlMono(x, Pow2(60), 3);
    Unsplit(x, 0, 3);
    SplitOrder(MACHINE.WordMax(), Shl(x, 3), 3);
  }

  /** The replayer's sparse index can be described exactly for regions of 2^16 to 2^47 bytes. */
  lemma SparseCreatable(t: T.Trace)
    requires T.HeaderShape(MACHINE, t)
    ensures AdaptiveIndex.CreateStatus(R.SparseConfig(MACHINE, t)) == IndexSpec.Ok <==> 16 <= t.regionShift < 48
  {
    hide Shl, Shr, Low, Pow2;
    SixtyFourBits();
    var c := R.SparseConfig(MACHINE, t);
    if 16 <= t.regionShift < 48 {
      SlotsFit(c.PerRegion(), c.GranuleBits());
      SlotsFit(c.RootCount(), c.RegionBits() - c.LeafBits());
    }
  }

  /** So can the bounded index over any coverage. */
  lemma BoundedCreatable(t: T.Trace, r: R.Range)
    requires T.HeaderShape(MACHINE, t) && 16 <= t.regionShift < 48 && r.size <= MACHINE.WordMax()
    requires IndexSpec.ValidateConfig(R.BoundedConfig(MACHINE, t, r)) == IndexSpec.Ok
    ensures AdaptiveIndex.CreateStatus(R.BoundedConfig(MACHINE, t, r)) == IndexSpec.Ok
  {
    hide Shl, Shr, Low, Pow2, IndexSpec.ValidateConfig;
    SixtyFourBits();
    var c := R.BoundedConfig(MACHINE, t, r);
    SlotsFit(c.PerRegion(), c.GranuleBits());
    Pow2Add(64 - t.regionShift, t.regionShift);
    Unsplit(Pow2(64 - t.regionShift), 0, t.regionShift);
    SplitOrder(r.size, Pow2(64), t.regionShift);
    SlotsFit(c.RegionCount(), 64 - t.regionShift);
  }

  lemma ArenaWithinSparse(events: seq<T.Event>, base: nat, limit: nat)
    requires InArena(events, base, limit) && limit <= Pow2(48)
    ensures WithinSparse(events)
  {
    hide Pow2;
    forall i | 0 <= i < |events| && events[i].operation.Insert?
      ensures S.EventEnd(events[i]) <= Pow2(48)
    {
      assert S.Placed(events, i);
    }
  }

  /** Few enough steps for the reader's event count and the validator's granule cap. */
  predicate ShortRun(threads: nat, steps: nat) { 3 * steps + 2 * threads <= N.ULL_MAX && 512 * steps <= V.MaxGranules() }

  /** The replayer can build both its indexes: something was inserted, and the region size is one the sparse index supports. */
  predicate Buildable(t: T.Trace) { S.Count(t.events, T.Insert) > 0 && 16 <= t.regionShift < 48 }

  /**
   Generate, write, read, replay. A short run in an arena within a word is lifecycle-valid and
   reads back as itself; when no allocation fails it is replayed exactly when something was
   inserted into regions of a supported size, the bounded index then meets no failed lookup or
   mutation, and the run succeeds exactly when every insertion ends within 48 address bits.
   */
  method GenerateAndReplay(threads: nat, granuleShift: nat, regionShift: nat, base: nat, regionCount: nat, steps: nat,
                           hash: nat -> nat, allocator: AdaptiveIndex.Allocator)
    returns (trace: T.Trace, status: V.Status, report: R.Report)
    requires 0 < threads <= X.UINT_MAX + 1 && regionCount > 0 && granuleShift <= regionShift < MACHINE.WordBits()
    requires Low(base, regionShift) == 0 && base + Shl(regionCount, regionShift) <= MACHINE.WordMax()
    modifies allocator
    ensures trace.granuleShift == granuleShift && trace.regionShift == regionShift
    ensures InArena(trace.events, base, base + Shl(regionCount, regionShift))
    ensures steps < MACHINE.WordMax() ==> T.LifecycleValid(MACHINE, trace)
    ensures T.LifecycleValid(MACHINE, trace) && |trace.events| <= N.ULL_MAX ==>
              (status == V.Ok <==> T.PossibleLive(granuleShift, trace.events) <= V.MaxGranules())
    ensures ShortRun(threads, steps) ==> T.LifecycleValid(MACHINE, trace) && status == V.Ok
    ensures allocator.live == old(allocator.live) && allocator.mappings == old(allocator.mappings) && allocator.failures >= old(allocator.failures)
    ensures status == V.Ok && allocator.failures == old(allocator.failures) ==> (report.Replayed? <==> Buildable(trace))
    ensures status == V.Ok && allocator.failures == old(allocator.failures) && report.Replayed? ==>
              R.Clean(report.bounded) && (R.Success(report) <==> WithinSparse(trace.events))
    ensures base + Shl(regionCount, regionShift) <= Pow2(48) ==> WithinSparse(trace.events)
  {
    hide TraceGenerator.Valid, T.LifecycleValid, T.PossibleLive, X.ScanText, X.TraceTextOf, X.Printable, T.TypedTrace, Pow2, Shl, Low, S.Count,
      R.Coverable, R.InsertsInside, AdaptiveIndex.CreateStatus, InArena, WithinSparse, S.Placed, IndexSpec.ValidateConfig, InsertsFit;
    report, status := R.Unreplayable, V.ArgumentError;
    var generator := new TraceGenerator(threads, granuleShift, regionShift, base, regionCount);
    trace := generator.Generate(steps);
    if base + Shl(regionCount, regionShift) <= Pow2(48) { ArenaWithinSparse(trace.events, base, generator.limit); }
    generator.FitsInWord();
    WordIsLongLong();
    ShiftsSmall(regionShift);
    // A list with more events or handles than words has no text the reader could accept.
    if S.Count(trace.events, T.Insert) >= MACHINE.WordMax() || |trace.events| > N.ULL_MAX { return; }
    GeneratedPrints(trace, threads);
    X.RoundTrip(MACHINE, trace, |trace.events|);
    var text := X.TraceTextOf(trace);
    var again, errorLine;
    status, again, errorLine := X.Read(MACHINE, text, |trace.events|, hash, true);
    if status != V.Ok { return; }
    ghost var bounded;
    report, bounded := R.ReplayTrace(MACHINE, again, hash, true, true, allocator);
    Replayable(trace, base, regionCount, bounded);
  }

  /** What the replayer asks of a generated trace, in terms of the trace alone. */
  lemma Replayable(t: T.Trace, base: nat, count: nat, bounded: IndexSpec.Config)
    requires T.LifecycleValid(MACHINE, t) && Low(base, t.regionShift) == 0
    requires base + Shl(count, t.regionShift) <= MACHINE.WordMax() && InArena(t.events, base, base + Shl(count, t.regionShift))
    requires (exists i: nat :: S.Placed(t.events, i)) <==> S.Count(t.events, T.Insert) > 0
    ensures R.Coverable(MACHINE, t) <==> S.Count(t.events, T.Insert) > 0
    ensures AdaptiveIndex.CreateStatus(R.SparseConfig(MACHINE, t)) == IndexSpec.Ok <==> 16 <= t.regionShift < 48
    ensures 16 <= t.regionShift < 48 ==>
              (R.InsertsInside(R.SparseConfig(MACHINE, t), t.events) <==> WithinSparse(t.events))
    ensures
      && 16 <= t.regionShift < 48 && IndexSpec.ValidateConfig(bounded) == IndexSpec.Ok && bounded.IsWord(bounded.managedSize)
      && bounded == R.BoundedConfig(MACHINE, t, R.Range(bounded.base, bounded.managedSize))
      ==> AdaptiveIndex.CreateStatus(bounded) == IndexSpec.Ok
  {
    hide Shl, Low, Pow2, S.Count, S.Placed, R.Coverable, InArena, WithinSparse, R.InsertsInside, T.LiveAfter;
    SixtyFourBits();
    ArenaCoverable(t, base, count);
    SparseCreatable(t);
    if 16 <= t.regionShift < 48 {
      SparseHolds(t);
      if IndexSpec.ValidateConfig(bounded) == IndexSpec.Ok && bounded.IsWord(bounded.managedSize)
         && bounded == R.BoundedConfig(MACHINE, t, R.Range(bounded.base, bounded.managedSize)) {
        BoundedCreatable(t, R.Range(bounded.base, bounded.managedSize));
      }
    }
  }
}
