/** The trace validator and the trace statistics, proved against the map of live granules. */
module TraceValidation {
  import opened Bits
  import opened TraceModel
  import opened LifecycleTable

  datatype Status = Ok | ArgumentError | IoError | FormatError | VersionError | MemoryError | SemanticError

  /** TRACE_MAX_LIFECYCLE_GRANULES. */
  function MaxGranules(): nat { Pow2(26) }

  /** memx_trace_validate: the header, then the shape of every event in order. */
  method Validate(m: Machine, t: Trace) returns (status: Status, errorEvent: nat)
    ensures status == Ok || status == SemanticError
    ensures status == Ok <==> StructureGood(m, t)
    ensures !HeaderShape(m, t) ==> errorEvent == 0
    ensures HeaderShape(m, t) && status != Ok ==>
              errorEvent < |t.events| && !EventGood(m, t, errorEvent) && forall j: nat :: j < errorEvent ==> EventGood(m, t, j)
  {
    hide EventShape;
    if !HeaderShape(m, t) { return SemanticError, 0; }
    var previous := 0;
    var i := 0;
    while i < |t.events|
      invariant i <= |t.events|
      invariant i > 0 ==> previous == t.events[i - 1].sequence
      invariant forall j: nat :: j < i ==> EventGood(m, t, j)
    {
      if (i != 0 && t.events[i].sequence <= previous) || !EventShape(m, t.granuleShift, t.events[i]) {
        assert !EventGood(m, t, i);
        return SemanticError, i;
      }
      previous := t.events[i].sequence;
      i := i + 1;
    }
    return Ok, 0;
  }

  /** trace_lifecycle_capacity: a power of two that leaves half the table EMPTY whatever the trace inserts. */
  method Capacity(m: Machine, t: Trace) returns (status: Status, bits: nat)
    requires m.wordLog >= 2
    ensures status == Ok <==> PossibleLive(t.granuleShift, t.events) <= MaxGranules()
    ensures status != Ok ==> status == MemoryError
    ensures status == Ok ==> PossibleLive(t.granuleShift, t.events) < Pow2(bits) && 2 * PossibleLive(t.granuleShift, t.events) <= Pow2(bits)
  {
    hide Pow2, Shr;
    var gs := t.granuleShift;
    var possible := 0;
    var i := 0;
    while i < |t.events|
      invariant i <= |t.events| && possible == PossibleLive(gs, t.events[..i]) <= MaxGranules()
    {
      assert t.events[..i + 1][..i] == t.events[..i];
      PossibleLiveMono(gs, t.events, i + 1);
      if t.events[i].operation.Insert? {
        var count := Shr(t.events[i].size, gs);
        if count > MaxGranules() - possible { return MemoryError, 0; }
        possible := possible + count;
      }
      i := i + 1;
    }
    assert t.events[..i] == t.events;
    var capacity := 8;
    bits := 3;
    SmallCapacity(m);
    while capacity < possible * 2
      invariant capacity == Pow2(bits) && capacity >= 8
      decreases possible * 2 - capacity
    {
      if capacity > m.WordMax() / 2 { assert false; }
      DoubleCapacity(bits);
      capacity := capacity * 2;
      bits := bits + 1;
    }
    status := Ok;
  }

  lemma DoubleCapacity(bits: nat)
    ensures Pow2(bits + 1) == 2 * Pow2(bits)
  {
  }

  /** The overflow check of the doubling loop never fires on a machine of at least 32 bits. */
  lemma SmallCapacity(m: Machine)
    requires m.wordLog >= 2
    ensures Pow2(3) == 8 && 2 * MaxGranules() <= m.WordMax() / 2
  {
    assert Pow2(1) == 2 && Pow2(2) == 4 && Pow2(3) == 8 && Pow2(4) == 16 && Pow2(5) == 32;
    Pow2Mono(5, m.wordLog + 3);
    Pow2Mono(32, m.WordBits());
    Pow2Mono(28, 32);
    Pow2Mono(26, 27);
    Pow2Mono(27, 28);
  }

  /** One event applied to the table: accepted exactly when the map accepts it. */
  method ApplyEvent(table: Table, m: Machine, e: Event, gs: nat) returns (ok: bool)
    requires table.Valid() && EventShape(m, gs, e)
    requires table.Used() + (if e.operation.Insert? then Shr(e.size, gs) else 0) < Pow2(table.bits)
    modifies table, table.slots
    ensures table.Valid() && table.Used() <= old(table.Used()) + (if e.operation.Insert? then Shr(e.size, gs) else 0)
    ensures ok <==> Advance(m, gs, old(table.Contents()), e).Some?
    ensures ok ==> table.Contents() == Advance(m, gs, old(table.Contents()), e).value
  {
    hide Shl, Shr, Low, Pow2, And, TableSound, UsedCount, ContentsOf, EventKeys;
    match e.operation
    case Insert => ok := table.InsertRange(e, gs);
    case Lookup => ok := table.LookupMatches(m, e, gs);
    case Retire =>
      ok := table.RangeMatches(e, gs, true);
      if ok { table.RetireRange(e, gs); }
    case Remove =>
      ok := table.RangeMatches(e, gs, false);
      if ok { table.RemoveRange(e, gs); }
    case Quiescent => ok := true;
    case Unknown => ok := false;
  }

  /**
   memx_trace_validate_lifecycle: accepts exactly the lifecycle-valid traces within the granule
   cap; otherwise it reports the first ill-shaped event or, failing that, the first event the
   map rejects.
   */
  method ValidateLifecycle(m: Machine, t: Trace, hash: nat -> nat, tableGranted: bool) returns (status: Status, errorEvent: nat)
    requires m.wordLog >= 2
    ensures status == Ok <==> LifecycleValid(m, t) && PossibleLive(t.granuleShift, t.events) <= MaxGranules() && tableGranted
    ensures status in {Ok, MemoryError, SemanticError}
    ensures status == MemoryError <==> StructureGood(m, t) && (PossibleLive(t.granuleShift, t.events) > MaxGranules() || !tableGranted)
    ensures status == SemanticError && !HeaderShape(m, t) ==> errorEvent == 0
    ensures status == MemoryError ==> errorEvent == 0
    ensures status == SemanticError && HeaderShape(m, t) && !StructureGood(m, t) ==>
              errorEvent < |t.events| && !EventGood(m, t, errorEvent) && forall j: nat :: j < errorEvent ==> EventGood(m, t, j)
    ensures status == SemanticError && StructureGood(m, t) ==> FirstRejected(m, t.granuleShift, t.events, errorEvent)
  {
    hide EventShape, Advance, Pow2, Shr, HeaderShape, UsedCount, TableSound, ContentsOf;
    status, errorEvent := Validate(m, t);
    if status != Ok { return; }
    var gs := t.granuleShift;
    var bits;
    status, bits := Capacity(m, t);
    if status != Ok { return status, 0; }
    if !tableGranted { return MemoryError, 0; }
    var table := new Table(bits, hash);
    var i := 0;
    while i < |t.events|
      invariant i <= |t.events| && table.Valid() && fresh(table) && fresh(table.slots) && table.bits == bits
      invariant LiveAfter(m, gs, t.events[..i]) == Some(table.Contents())
      invariant table.Used() <= PossibleLive(gs, t.events[..i])
    {
      assert t.events[..i + 1][..i] == t.events[..i];
      PossibleLiveMono(gs, t.events, i + 1);
      assert EventGood(m, t, i);
      var valid := ApplyEvent(table, m, t.events[i], gs);
      if !valid {
        assert FirstRejected(m, gs, t.events, i);
        RejectedStaysRejected(m, gs, t.events, i + 1);
        return SemanticError, i;
      }
      i := i + 1;
    }
    assert t.events[..i] == t.events;
    return Ok, 0;
  }

  lemma RejectedStaysRejected(m: Machine, gs: nat, events: seq<Event>, n: nat)
    requires n <= |events| && LiveAfter(m, gs, events[..n]).None?
    ensures LiveAfter(m, gs, events).None?
  {
    if LiveAfter(m, gs, events).Some? { PrefixAccepted(m, gs, events, n); }
  }
}
