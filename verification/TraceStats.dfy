/** memx_trace_calculate_stats: what the counters mean, and why none of them wraps. */
module TraceStats {
  import opened Bits
  import opened TraceModel
  import opened TraceValidation

  datatype Tallies = Tallies(
    inserts: nat, lookups: nat, retires: nat, removes: nat, quiescents: nat, peakLive: nat, finalLive: nat)

  datatype Stats = Stats(tallies: Tallies, threads: nat, minimum: nat, maximumExclusive: nat)

  function Count(events: seq<Event>, op: Operation): nat {
    if events == [] then 0
    else Count(events[..|events| - 1], op) + (if events[|events| - 1].operation == op then 1 else 0)
  }

  function Threads(events: seq<Event>): set<nat> { set i | 0 <= i < |events| :: events[i].thread }

  /** First byte past an event that names an address. */
  function EventEnd(e: Event): nat { if e.operation.Lookup? then e.address + 1 else e.address + e.size }

  /** Event i names an address. */
  predicate Placed(events: seq<Event>, i: nat) { i < |events| && !events[i].operation.Quiescent? }

  ghost predicate Covers(stats: Stats, events: seq<Event>) {
    forall i: nat :: Placed(events, i) ==> stats.minimum <= events[i].address && EventEnd(events[i]) <= stats.maximumExclusive
  }

  ghost predicate Attained(stats: Stats, events: seq<Event>) {
    && (exists i: nat :: Placed(events, i) && events[i].address == stats.minimum)
    && (exists i: nat :: Placed(events, i) && EventEnd(events[i]) == stats.maximumExclusive)
  }

  // ----- live bytes

  ghost function LiveMap(m: Machine, gs: nat, events: seq<Event>): Live
    requires LiveAfter(m, gs, events).Some?
  {
    LiveAfter(m, gs, events).value
  }

  /** Bytes of the live granules after a list of events. */
  ghost function LiveBytes(m: Machine, gs: nat, events: seq<Event>): nat
    requires LiveAfter(m, gs, events).Some?
  {
    Shl(|LiveMap(m, gs, events)|, gs)
  }

  /** The largest number of live bytes after any prefix. */
  ghost function PeakBytes(m: Machine, gs: nat, events: seq<Event>): nat
    requires LiveAfter(m, gs, events).Some?
  {
    if events == [] then 0
    else
      var earlier, now := PeakBytes(m, gs, events[..|events| - 1]), LiveBytes(m, gs, events);
      if earlier < now then now else earlier
  }

  lemma {:induction false} KeysSize(address: nat, count: nat, gs: nat)
    ensures |Keys(address, count, gs)| == count
  {
    KeysGrow(address, 0, gs);
    if count > 0 {
      KeysSize(address, count - 1, gs);
      KeysGrow(address, count - 1, gs);
    }
  }

  lemma InsertSize(live: Live, keys: set<nat>, entry: Entry)
    requires forall k :: k in keys ==> k !in live
    ensures |Marked(live, keys, entry)| == |live| + |keys|
  {
    assert Marked(live, keys, entry).Keys == live.Keys + keys;
  }

  lemma RetireSize(live: Live, keys: set<nat>, entry: Entry)
    requires forall k :: k in keys ==> k in live
    ensures |Marked(live, keys, entry)| == |live|
  {
    assert Marked(live, keys, entry).Keys == live.Keys;
  }

  lemma RemoveSize(live: Live, keys: set<nat>)
    requires forall k :: k in keys ==> k in live
    ensures |keys| <= |live| && |live - keys| == |live| - |keys|
  {
    assert (live - keys).Keys == live.Keys - keys;
    assert keys <= live.Keys;
    assert |keys| + |live.Keys - keys| == |live.Keys| by { assert live.Keys == keys + (live.Keys - keys); }
  }

  /** Every live granule is an aligned address whose bytes end within a word. */
  ghost predicate Grid(m: Machine, gs: nat, live: Live) {
    forall k :: k in live ==> Low(k, gs) == 0 && k + Pow2(gs) <= m.WordMax()
  }

  lemma RangeGrid(m: Machine, gs: nat, e: Event, k: nat)
    requires EventShape(m, gs, e) && RangeOperation(e.operation) && k in EventKeys(e, gs)
    ensures Low(k, gs) == 0 && k + Pow2(gs) <= m.WordMax()
  {
    hide Shl, Shr, Low, Pow2, And;
    var j: nat :| j < Shr(e.size, gs) && k == Key(e.address, j, gs);
    AndMask(e.address, gs);
    AndMask(e.size, gs);
    Split(e.size, gs);
    Unsplit(j, 0, gs);
    AddAligned(e.address, Shl(j, gs), gs);
    ShlMono(j, Shr(e.size, gs), gs);
  }

  lemma GridKept(m: Machine, gs: nat, live: Live, e: Event)
    requires EventShape(m, gs, e) && Grid(m, gs, live) && Advance(m, gs, live, e).Some?
    ensures Grid(m, gs, Advance(m, gs, live, e).value)
  {
    hide Low, Pow2, EventKeys, EventShape;
    if e.operation.Insert? || e.operation.Retire? {
      forall k | k in EventKeys(e, gs)
        ensures Low(k, gs) == 0 && k + Pow2(gs) <= m.WordMax()
      {
        RangeGrid(m, gs, e, k);
      }
    }
  }

  lemma {:induction false} GridAlways(m: Machine, t: Trace, n: nat)
    requires StructureGood(m, t) && n <= |t.events| && LiveAfter(m, t.granuleShift, t.events[..n]).Some?
    ensures Grid(m, t.granuleShift, LiveMap(m, t.granuleShift, t.events[..n]))
  {
    hide EventShape, Advance, Grid, HeaderShape;
    if n == 0 {
      assert Grid(m, t.granuleShift, map[]) by { GridEmpty(m, t.granuleShift); }
    } else {
      assert t.events[..n][..n - 1] == t.events[..n - 1];
      GridAlways(m, t, n - 1);
      assert EventGood(m, t, n - 1);
      GridKept(m, t.granuleShift, LiveMap(m, t.granuleShift, t.events[..n - 1]), t.events[n - 1]);
    }
  }

  lemma GridEmpty(m: Machine, gs: nat)
    ensures Grid(m, gs, map[])
  {
  }

  /** Live granules are distinct multiples of the granule size, so together they fit in a word. */
  lemma GridFits(m: Machine, gs: nat, live: Live)
    requires Grid(m, gs, live)
    ensures Shl(|live|, gs) <= m.WordMax()
  {
    hide Shl, Shr, Low, Pow2;
    var bound := Shr(m.WordMax(), gs);
    var numbers := set k | k in live :: Shr(k, gs);
    forall k | k in live
      ensures Shr(k, gs) < bound
    {
      Split(k, gs);
      ShlAdd(Shr(k, gs), 1, gs);
      ShlOne(gs);
      Split(m.WordMax(), gs);
      ShlAdd(bound, 1, gs);
      ShlMono(bound + 1, Shr(k, gs) + 1, gs);
    }
    SameSize(live.Keys, numbers, gs);
    BoundedSet(numbers, bound);
    ShlMono(|live|, bound, gs);
    Split(m.WordMax(), gs);
  }

  lemma {:induction false} SameSize(keys: set<nat>, numbers: set<nat>, gs: nat)
    requires forall k :: k in keys ==> Low(k, gs) == 0
    requires numbers == set k | k in keys :: Shr(k, gs)
    ensures |keys| == |numbers|
  {
    hide Shr, Low;
    if keys == {} {
      assert numbers == {};
    } else {
      var k :| k in keys;
      var rest := numbers - {Shr(k, gs)};
      forall q | q in keys && q != k
        ensures Shr(q, gs) != Shr(k, gs)
      {
        Split(q, gs);
        Split(k, gs);
      }
      assert rest == set q | q in keys - {k} :: Shr(q, gs);
      SameSize(keys - {k}, rest, gs);
    }
  }

  lemma {:induction false} BoundedSet(s: set<nat>, n: nat)
    requires forall x :: x in s ==> x < n
    ensures |s| <= n
  {
    if n == 0 {
      assert s == {};
    } else {
      BoundedSet(s - {n - 1}, n - 1);
      assert |s| <= |s - {n - 1}| + 1 by { if n - 1 in s { assert s == (s - {n - 1}) + {n - 1}; } else { assert s - {n - 1} == s; } }
    }
  }

  lemma SizeOfKeys(m: Machine, gs: nat, e: Event)
    requires EventShape(m, gs, e) && RangeOperation(e.operation)
    ensures Shl(|EventKeys(e, gs)|, gs) == e.size
  {
    hide Shl, Shr, Low, Pow2, And, Keys;
    AndMask(e.size, gs);
    Split(e.size, gs);
    KeysSize(e.address, Shr(e.size, gs), gs);
  }

  lemma InsertBytes(live: Live, keys: set<nat>, entry: Entry, gs: nat)
    requires forall k :: k in keys ==> k !in live
    ensures Shl(|Marked(live, keys, entry)|, gs) == Shl(|live|, gs) + Shl(|keys|, gs)
  {
    InsertSize(live, keys, entry);
    ShlAdd(|live|, |keys|, gs);
  }

  lemma RemoveBytes(live: Live, keys: set<nat>, gs: nat)
    requires forall k :: k in keys ==> k in live
    ensures Shl(|live - keys|, gs) + Shl(|keys|, gs) == Shl(|live|, gs)
  {
    RemoveSize(live, keys);
    ShlAdd(|live| - |keys|, |keys|, gs);
  }

  /** How one accepted event changes the number of live bytes. */
  lemma AdvanceBytes(m: Machine, gs: nat, live: Live, e: Event)
    requires EventShape(m, gs, e) && Advance(m, gs, live, e).Some?
    ensures var before, after := Shl(|live|, gs), Shl(|Advance(m, gs, live, e).value|, gs);
            && (e.operation.Insert? ==> after == before + e.size)
            && (e.operation.Remove? ==> e.size <= before && after == before - e.size)
            && (!e.operation.Insert? && !e.operation.Remove? ==> after == before)
  {
    hide Shl, Shr, Low, Pow2, And, Marked, EventKeys, EventShape;
    var keys := EventKeys(e, gs);
    if RangeOperation(e.operation) { SizeOfKeys(m, gs, e); }
    match e.operation
    case Insert => InsertBytes(live, keys, Entry(e.handle, false), gs);
    case Remove => RemoveBytes(live, keys, gs);
    case Retire => RetireSize(live, keys, Entry(e.handle, true));
    case _ =>
  }

  /** Along a lifecycle-valid trace the statements that keep the live byte count never wrap. */
  lemma LiveStep(m: Machine, t: Trace, i: nat)
    requires LifecycleValid(m, t) && i < |t.events|
    ensures LiveAfter(m, t.granuleShift, t.events[..i]).Some? && LiveAfter(m, t.granuleShift, t.events[..i + 1]).Some?
    ensures EventShape(m, t.granuleShift, t.events[i])
    ensures var gs, e := t.granuleShift, t.events[i];
            var before, after := LiveBytes(m, gs, t.events[..i]), LiveBytes(m, gs, t.events[..i + 1]);
            && after <= m.WordMax()
            && (e.operation.Insert? ==> after == before + e.size)
            && (e.operation.Remove? ==> e.size <= before && after == before - e.size)
            && (!e.operation.Insert? && !e.operation.Remove? ==> after == before)
  {
    hide Shl, EventShape, Advance, Grid, HeaderShape;
    var gs := t.granuleShift;
    PrefixAccepted(m, gs, t.events, i);
    PrefixAccepted(m, gs, t.events, i + 1);
    assert t.events[..i + 1][..i] == t.events[..i];
    assert EventGood(m, t, i);
    AdvanceBytes(m, gs, LiveMap(m, gs, t.events[..i]), t.events[i]);
    GridAlways(m, t, i + 1);
    GridFits(m, gs, LiveMap(m, gs, t.events[..i + 1]));
  }

  // ----- the statistics loop

  ghost predicate Tallied(m: Machine, gs: nat, events: seq<Event>, s: Tallies) {
    && LiveAfter(m, gs, events).Some?
    && s.inserts == Count(events, Insert) && s.lookups == Count(events, Lookup) && s.retires == Count(events, Retire)
    && s.removes == Count(events, Remove) && s.quiescents == Count(events, Quiescent)
    && s.peakLive == PeakBytes(m, gs, events) && s.finalLive == LiveBytes(m, gs, events)
  }

  method CalculateStats(m: Machine, t: Trace, hash: nat -> nat, tableGranted: bool, threadsGranted: bool)
    returns (status: Status, stats: Stats)
    requires m.wordLog >= 2 && TypedTrace(m, t)
    ensures status == Ok ==> LifecycleValid(m, t) && Tallied(m, t.granuleShift, t.events, stats.tallies) && stats.threads == |Threads(t.events)|
    ensures status == Ok ==> Covers(stats, t.events)
    ensures status == Ok && (exists i: nat :: Placed(t.events, i)) ==> Attained(stats, t.events)
    ensures status == Ok && (forall i: nat :: !Placed(t.events, i)) ==>
              stats.minimum == 0 == stats.maximumExclusive
    ensures tableGranted && threadsGranted && LifecycleValid(m, t) && PossibleLive(t.granuleShift, t.events) <= MaxGranules() ==> status == Ok
  {
    hide LifecycleValid, PossibleLive, EventShape, Tallied;
    stats := Stats(Tallies(0, 0, 0, 0, 0, 0, 0), 0, 0, 0);
    var errorEvent;
    status, errorEvent := ValidateLifecycle(m, t, hash, tableGranted);
    if status != Ok { return; }
    if |t.events| != 0 && !threadsGranted { return MemoryError, stats; }
    stats := TallyEvents(m, t);
  }

  lemma {:induction false} PeakCovers(m: Machine, gs: nat, events: seq<Event>)
    requires LiveAfter(m, gs, events).Some?
    ensures LiveBytes(m, gs, events) <= PeakBytes(m, gs, events)
  {
    if events == [] { ShlOne(gs); }
  }

  /** The switch of the statistics loop: counters, live bytes and their peak. */
  function Tally(s: Tallies, e: Event): (next: Tallies) {
    match e.operation
    case Insert =>
      var live := s.finalLive + e.size;
      s.(inserts := s.inserts + 1, finalLive := live, peakLive := if live > s.peakLive then live else s.peakLive)
    case Lookup => s.(lookups := s.lookups + 1)
    case Retire => s.(retires := s.retires + 1)
    case Remove => s.(removes := s.removes + 1, finalLive := if e.size > s.finalLive then 0 else s.finalLive - e.size)
    case _ => s.(quiescents := s.quiescents + 1)
  }

  lemma TallyStep(m: Machine, t: Trace, i: nat, s: Tallies)
    requires LifecycleValid(m, t) && i < |t.events| && Tallied(m, t.granuleShift, t.events[..i], s)
    ensures Tallied(m, t.granuleShift, t.events[..i + 1], Tally(s, t.events[i]))
    ensures Tally(s, t.events[i]).finalLive <= m.WordMax()
  {
    hide LiveAfter, LiveBytes, Threads, LifecycleValid;
    LiveStep(m, t, i);
    PeakCovers(m, t.granuleShift, t.events[..i]);
    PeakCovers(m, t.granuleShift, t.events[..i + 1]);
    assert t.events[..i + 1][..i] == t.events[..i];
    assert !t.events[i].operation.Unknown?;
  }

  /** The seen-before search over the thread table. */
  method NoteThread(threads: seq<nat>, thread: nat) returns (next: seq<nat>)
    requires forall i, j :: 0 <= i < j < |threads| ==> threads[i] != threads[j]
    ensures forall i, j :: 0 <= i < j < |next| ==> next[i] != next[j]
    ensures Members(next) == Members(threads) + {thread}
  {
    var k := 0;
    while k < |threads|
      invariant k <= |threads| && forall j :: 0 <= j < k ==> threads[j] != thread
    {
      if threads[k] == thread { return threads; }
      k := k + 1;
    }
    next := threads + [thread];
  }

  function Members(threads: seq<nat>): set<nat> { set x | x in threads }

  lemma {:induction false} DistinctSize(threads: seq<nat>)
    requires forall i, j :: 0 <= i < j < |threads| ==> threads[i] != threads[j]
    ensures |Members(threads)| == |threads|
  {
    if threads == [] {
      assert Members(threads) == {};
    } else {
      var n := |threads| - 1;
      DistinctSize(threads[..n]);
      assert threads[n] !in Members(threads[..n]);
      assert Members(threads) == Members(threads[..n]) + {threads[n]};
    }
  }

  lemma ThreadsGrow(events: seq<Event>, i: nat)
    requires i < |events|
    ensures Threads(events[..i + 1]) == Threads(events[..i]) + {events[i].thread}
  {
    assert forall k :: 0 <= k < i ==> events[..i + 1][k] == events[..i][k];
    assert events[..i + 1][i] == events[i];
  }

  /** The running bounds: they cover every placed event so far, and are attained once there is one. */
  ghost predicate Bounds(m: Machine, events: seq<Event>, minimum: nat, maximum: nat) {
    && (forall i: nat :: Placed(events, i) ==> minimum <= events[i].address && EventEnd(events[i]) <= maximum)
    && ((exists i: nat :: Placed(events, i)) ==>
          && minimum < m.WordMax()
          && (exists i: nat :: Placed(events, i) && events[i].address == minimum)
          && (exists i: nat :: Placed(events, i) && EventEnd(events[i]) == maximum))
    && ((forall i: nat :: !Placed(events, i)) ==> minimum == m.WordMax() && maximum == 0)
  }

  lemma BoundsStep(m: Machine, gs: nat, events: seq<Event>, n: nat, minimum: nat, maximum: nat)
    requires n < |events| && EventShape(m, gs, events[n]) && Typed(m, events[n]) && Bounds(m, events[..n], minimum, maximum)
    ensures var e := events[n];
            var lower := if !e.operation.Quiescent? && e.address < minimum then e.address else minimum;
            var upper := if !e.operation.Quiescent? && EventEnd(e) > maximum then EventEnd(e) else maximum;
            Bounds(m, events[..n + 1], lower, upper)
  {
    hide And, Pow2;
    var e, before, after := events[n], events[..n], events[..n + 1];
    var lower := if !e.operation.Quiescent? && e.address < minimum then e.address else minimum;
    var upper := if !e.operation.Quiescent? && EventEnd(e) > maximum then EventEnd(e) else maximum;
    forall i: nat | Placed(before, i)
      ensures Placed(after, i) && after[i] == before[i]
    {
    }
    forall i: nat | Placed(after, i)
      ensures i == n || (Placed(before, i) && after[i] == before[i])
    {
    }
    if exists i: nat :: Placed(before, i) {
      var a: nat :| Placed(before, a) && before[a].address == minimum;
      var b: nat :| Placed(before, b) && EventEnd(before[b]) == maximum;
      assert Placed(after, a) && Placed(after, b) && after[a].address == minimum && EventEnd(after[b]) == maximum;
    }
    assert after[n] == e && (Placed(after, n) <==> !e.operation.Quiescent?);
    assert !e.operation.Quiescent? ==> e.address < m.WordMax() && EventEnd(e) > 0;
  }

  method TallyEvents(m: Machine, t: Trace) returns (stats: Stats)
    requires LifecycleValid(m, t) && TypedTrace(m, t)
    ensures Tallied(m, t.granuleShift, t.events, stats.tallies) && stats.threads == |Threads(t.events)| && Covers(stats, t.events)
    ensures (exists i: nat :: Placed(t.events, i)) ==> Attained(stats, t.events)
    ensures (forall i: nat :: !Placed(t.events, i)) ==> stats.minimum == 0 == stats.maximumExclusive
  {
    hide LiveAfter, LiveBytes, Threads, LifecycleValid, Tallied, Tally, EventShape;
    var tallies := Tallies(0, 0, 0, 0, 0, 0, 0);
    var minimum, maximum := m.WordMax(), 0;
    var threads: seq<nat> := [];
    var i := 0;
    TallyNothing(m, t.granuleShift, t.events[..0]);
    while i < |t.events|
      invariant i <= |t.events| && Tallied(m, t.granuleShift, t.events[..i], tallies)
      invariant forall a, b :: 0 <= a < b < |threads| ==> threads[a] != threads[b]
      invariant Members(threads) == Threads(t.events[..i])
      invariant Bounds(m, t.events[..i], minimum, maximum)
    {
      ThreadsGrow(t.events, i);
      TallyStep(m, t, i, tallies);
      LiveStep(m, t, i);
      BoundsStep(m, t.granuleShift, t.events, i, minimum, maximum);
      var e := t.events[i];
      threads := NoteThread(threads, e.thread);
      if !e.operation.Quiescent? {
        var end := EventEnd(e);
        if e.address < minimum { minimum := e.address; }
        if end > maximum { maximum := end; }
      }
      tallies := Tally(tallies, e);
      i := i + 1;
    }
    assert t.events[..i] == t.events;
    DistinctSize(threads);
    stats := Stats(tallies, |threads|, if minimum == m.WordMax() then 0 else minimum, maximum);
  }

  lemma TallyNothing(m: Machine, gs: nat, events: seq<Event>)
    requires events == []
    ensures Tallied(m, gs, events, Tallies(0, 0, 0, 0, 0, 0, 0)) && Threads(events) == {}
  {
    ShlOne(gs);
  }
}
