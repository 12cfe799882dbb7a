/**
 Allocation traces and the rules they must follow: what one event must look like, and what a
 whole event list does to the map of live granules.
 */
module TraceModel {
  import opened Bits

  datatype Option<+T> = None | Some(value: T)

  /** Unknown stands for an operation code outside the enumeration. */
  datatype Operation = Insert | Lookup | Retire | Remove | Quiescent | Unknown

  datatype Event = Event(sequence: nat, thread: nat, operation: Operation, address: nat, size: nat, handle: nat)

  datatype Trace = Trace(version: nat, regionShift: nat, granuleShift: nat, events: seq<Event>)

  /** A machine whose words have 8 * 2^wordLog bits. */
  datatype Machine = Machine(wordLog: nat) {
    function WordBits(): nat { Pow2(wordLog + 3) }
    function WordMax(): nat { Pow2(WordBits()) - 1 }
    function Invalid(): nat { WordMax() }
  }

  // ----- one event

  predicate RangeOperation(op: Operation) { op.Insert? || op.Retire? || op.Remove? }

  /** The shape every event must have, whatever came before it. */
  predicate EventShape(m: Machine, gs: nat, e: Event) {
    && !e.operation.Unknown?
    && (RangeOperation(e.operation) ==>
          && e.size > 0 && And(e.address, Pow2(gs) - 1) == 0 && And(e.size, Pow2(gs) - 1) == 0
          && e.address + e.size <= m.WordMax())
    && (e.operation.Insert? || e.operation.Remove? ==> e.handle != m.Invalid())
    && (e.operation.Lookup? ==> e.size == 0 && e.address != m.WordMax())
    && (e.operation.Quiescent? ==> e.address == 0 && e.size == 0)
  }

  /** Fields hold words of their declared types. */
  predicate Typed(m: Machine, e: Event) {
    e.address <= m.WordMax() && e.size <= m.WordMax() && e.handle <= m.WordMax()
  }

  predicate TypedTrace(m: Machine, t: Trace) {
    forall i :: 0 <= i < |t.events| ==> Typed(m, t.events[i])
  }

  predicate HeaderShape(m: Machine, t: Trace) {
    t.version == 1 && t.regionShift < m.WordBits() && t.granuleShift < m.WordBits() && t.regionShift >= t.granuleShift
  }

  predicate EventGood(m: Machine, t: Trace, i: nat)
    requires i < |t.events|
  {
    EventShape(m, t.granuleShift, t.events[i]) && (i > 0 ==> t.events[i - 1].sequence < t.events[i].sequence)
  }

  predicate StructureGood(m: Machine, t: Trace) {
    HeaderShape(m, t) && forall i: nat :: i < |t.events| ==> EventGood(m, t, i)
  }

  // ----- the map of live granules, keyed by granule address

  datatype Entry = Entry(handle: nat, retired: bool)

  type Live = map<nat, Entry>

  /** Address of the j-th granule of a range. */
  function Key(address: nat, j: nat, gs: nat): nat { address + Shl(j, gs) }

  function Keys(address: nat, count: nat, gs: nat): set<nat> {
    set j: nat | j < count :: Key(address, j, gs)
  }

  function EventKeys(e: Event, gs: nat): set<nat> { Keys(e.address, Shr(e.size, gs), gs) }

  lemma KeysGrow(address: nat, j: nat, gs: nat)
    ensures Keys(address, j + 1, gs) == Keys(address, j, gs) + {Key(address, j, gs)}
    ensures Key(address, j, gs) !in Keys(address, j, gs)
    ensures Key(address, j + 1, gs) == Key(address, j, gs) + Pow2(gs)
    ensures Keys(address, 0, gs) == {} && Key(address, 0, gs) == address
  {
    hide Shl, Pow2;
    ShlAdd(j, 1, gs);
    ShlOne(gs);
    forall i: nat | i < j
      ensures Key(address, i, gs) != Key(address, j, gs)
    {
      ShlMono(i, j, gs);
    }
  }

  lemma KeyInRange(address: nat, j: nat, count: nat, gs: nat)
    requires j < count
    ensures Key(address, j, gs) in Keys(address, count, gs)
  {
  }

  /** Walking a range granule by granule stops exactly at its end. */
  lemma KeysEnd(address: nat, size: nat, j: nat, gs: nat)
    requires And(size, Pow2(gs) - 1) == 0 && j <= Shr(size, gs)
    ensures Key(address, j, gs) < address + size <==> j < Shr(size, gs)
  {
    hide Shl, Shr, Low, Pow2, And;
    AndMask(size, gs);
    Split(size, gs);
    ShlMono(j, Shr(size, gs), gs);
  }

  lemma MarkedNone(live: Live, entry: Entry)
    ensures Marked(live, {}, entry) == live
  {
  }

  lemma MarkedGrow(live: Live, keys: set<nat>, k: nat, entry: Entry)
    ensures Marked(live, keys + {k}, entry) == Marked(live, keys, entry)[k := entry]
  {
  }

  lemma MarkedAt(live: Live, keys: set<nat>, entry: Entry, k: nat)
    ensures k in Marked(live, keys, entry) <==> k in live || k in keys
    ensures k in keys ==> Marked(live, keys, entry)[k] == entry
    ensures k !in keys && k in live ==> Marked(live, keys, entry)[k] == live[k]
  {
  }

  predicate Matches(live: Live, keys: set<nat>, handle: nat, active: bool) {
    forall k :: k in keys ==> k in live && live[k].handle == handle && (active ==> !live[k].retired)
  }

  /** The live map with every key of a set mapped to one entry. */
  function Marked(live: Live, keys: set<nat>, entry: Entry): Live { live + map k | k in keys :: entry }

  /** What one event does to the live map; None when the map rejects it. */
  function Advance(m: Machine, gs: nat, live: Live, e: Event): Option<Live> {
    var keys := EventKeys(e, gs);
    match e.operation
    case Insert => if forall k :: k in keys ==> k !in live then Some(Marked(live, keys, Entry(e.handle, false))) else None
    case Lookup =>
      var granule := e.address - Low(e.address, gs);
      if (if granule in live then live[granule].handle else m.Invalid()) == e.handle then Some(live) else None
    case Retire => if Matches(live, keys, e.handle, true) then Some(Marked(live, keys, Entry(e.handle, true))) else None
    case Remove => if Matches(live, keys, e.handle, false) then Some(live - keys) else None
    case Quiescent => Some(live)
    case Unknown => None
  }

  /** The live map after a list of events; None when some event is rejected. */
  function LiveAfter(m: Machine, gs: nat, events: seq<Event>): Option<Live> {
    if events == [] then Some(map[])
    else
      match LiveAfter(m, gs, events[..|events| - 1])
      case None => None
      case Some(live) => Advance(m, gs, live, events[|events| - 1])
  }

  /** Lifecycle-valid: well shaped, and accepted by the map from the first event to the last. */
  predicate LifecycleValid(m: Machine, t: Trace) {
    StructureGood(m, t) && LiveAfter(m, t.granuleShift, t.events).Some?
  }

  /** Event i is the first one the map rejects. */
  ghost predicate FirstRejected(m: Machine, gs: nat, events: seq<Event>, i: nat) {
    i < |events| && LiveAfter(m, gs, events[..i]).Some? && LiveAfter(m, gs, events[..i + 1]).None?
  }

  lemma {:induction false} PrefixAccepted(m: Machine, gs: nat, events: seq<Event>, n: nat)
    requires n <= |events| && LiveAfter(m, gs, events).Some?
    ensures LiveAfter(m, gs, events[..n]).Some?
  {
    if n == |events| {
      assert events[..n] == events;
    } else {
      PrefixAccepted(m, gs, events[..|events| - 1], n);
      assert events[..|events| - 1][..n] == events[..n];
    }
  }

  /** A rejected list has exactly one first rejected event. */
  lemma {:induction false} RejectionIsLocated(m: Machine, gs: nat, events: seq<Event>)
    requires LiveAfter(m, gs, events).None?
    ensures exists i: nat :: FirstRejected(m, gs, events, i)
    ensures forall i: nat, j: nat :: FirstRejected(m, gs, events, i) && FirstRejected(m, gs, events, j) ==> i == j
  {
    var n := |events| - 1;
    if LiveAfter(m, gs, events[..n]).Some? {
      assert events[..n + 1] == events;
      assert FirstRejected(m, gs, events, n);
    } else {
      RejectionIsLocated(m, gs, events[..n]);
      var i: nat :| FirstRejected(m, gs, events[..n], i);
      assert events[..n][..i] == events[..i] && events[..n][..i + 1] == events[..i + 1];
      assert FirstRejected(m, gs, events, i);
    }
    forall i: nat, j: nat | FirstRejected(m, gs, events, i) && FirstRejected(m, gs, events, j)
      ensures i == j
    {
      if i < j {
        ShorterAccepted(m, gs, events, i + 1, j);
      } else if j < i {
        ShorterAccepted(m, gs, events, j + 1, i);
      }
    }
  }

  lemma ShorterAccepted(m: Machine, gs: nat, events: seq<Event>, n: nat, j: nat)
    requires n <= j <= |events| && LiveAfter(m, gs, events[..j]).Some?
    ensures LiveAfter(m, gs, events[..n]).Some?
  {
    PrefixAccepted(m, gs, events[..j], n);
    assert events[..j][..n] == events[..n];
  }

  /** Granules all INSERT events of a list could ever bring to life. */
  function PossibleLive(gs: nat, events: seq<Event>): nat {
    if events == [] then 0
    else PossibleLive(gs, events[..|events| - 1])
         + (if events[|events| - 1].operation.Insert? then Shr(events[|events| - 1].size, gs) else 0)
  }

  lemma {:induction false} PossibleLiveMono(gs: nat, events: seq<Event>, n: nat)
    requires n <= |events|
    ensures PossibleLive(gs, events[..n]) <= PossibleLive(gs, events)
  {
    if n == |events| {
      assert events[..n] == events;
    } else {
      PossibleLiveMono(gs, events[..|events| - 1], n);
      assert events[..|events| - 1][..n] == events[..n];
    }
  }
}
