/**
 Whole runs of the address index: every history of operations, under every pattern of
 allocation failures, answers as the map does, and histories without a failed allocation
 leave a shape that depends on the final map alone.
 */
module IndexHistories {
  import opened Bits
  import opened IndexSpec
  import opened RegionShapes
  import opened DirectoryStore
  import opened AdaptiveIndex

  datatype Op =
    | InsertOp(address: nat, size: nat, handle: nat)
    | RemoveOp(address: nat, size: nat, handle: nat)
    | LookupOp(address: nat)

  datatype Answer = StatusAnswer(status: Status) | HandleAnswer(handle: nat)

  predicate WordOp(c: Config, op: Op) {
    match op
    case InsertOp(address, size, handle) => c.IsWord(address) && c.IsWord(size) && c.IsWord(handle)
    case RemoveOp(address, size, handle) => c.IsWord(address) && c.IsWord(size) && c.IsWord(handle)
    case LookupOp(address) => c.IsWord(address)
  }

  predicate WordOps(c: Config, ops: seq<Op>) {
    forall i :: 0 <= i < |ops| ==> WordOp(c, ops[i])
  }

  datatype Step = Step(answer: Answer, mapping: Mapping)

  /** What the plain map answers to one operation. */
  ghost function MapStep(c: Config, frozen: bool, m: Mapping, op: Op): Step
    requires c.Legal() && WordOp(c, op)
  {
    match op
    case InsertOp(address, size, handle) =>
      var o := InsertSpec(c, frozen, m, address, size, handle);
      Step(StatusAnswer(o.status), o.mapping)
    case RemoveOp(address, size, handle) =>
      var o := RemoveSpec(c, frozen, m, address, size, handle);
      Step(StatusAnswer(o.status), o.mapping)
    case LookupOp(address) => Step(HandleAnswer(LookupSpec(c, m, address)), m)
  }

  datatype Run = Run(answers: seq<Answer>, mapping: Mapping)

  /** What the plain map answers to a whole history. */
  ghost function MapRun(c: Config, frozen: bool, m: Mapping, ops: seq<Op>): Run
    requires c.Legal() && WordOps(c, ops)
  {
    if ops == [] then Run([], m)
    else
      var earlier := MapRun(c, frozen, m, ops[..|ops| - 1]);
      var step := MapStep(c, frozen, earlier.mapping, ops[|ops| - 1]);
      Run(earlier.answers + [step.answer], step.mapping)
  }

  /** A history explained by the map: every step is the map's own, or a change it accepts that was refused for lack of memory. */
  ghost predicate Explained(c: Config, frozen: bool, ops: seq<Op>, answers: seq<Answer>, maps: seq<Mapping>)
    requires c.Legal() && WordOps(c, ops)
  {
    && |answers| == |ops| && |maps| == |ops| + 1
    && forall i :: 0 <= i < |ops| ==> Allowed(c, frozen, maps[i], ops[i], Step(answers[i], maps[i + 1]))
  }

  ghost predicate Allowed(c: Config, frozen: bool, m: Mapping, op: Op, step: Step)
    requires c.Legal() && WordOp(c, op)
  {
    || step == MapStep(c, frozen, m, op)
    || (step == Step(StatusAnswer(OutOfMemory), m) && MapStep(c, frozen, m, op).answer == StatusAnswer(Ok))
  }

  /** Applies one operation to an index. */
  method Apply(index: MemxIndex, op: Op) returns (answer: Answer)
    requires index.Valid() && WordOp(index.c, op)
    modifies index, index.allocator
    ensures index.Valid() && index.overlayMode == old(index.overlayMode) && index.flatMode == old(index.flatMode)
    ensures index.c.Legal()
    ensures Allowed(index.c, index.overlayMode, old(index.Mapping()), op, Step(answer, index.Mapping()))
    ensures index.allocator.failures >= old(index.allocator.failures)
    ensures index.allocator.failures == old(index.allocator.failures) ==>
              Step(answer, index.Mapping()) == MapStep(index.c, index.overlayMode, old(index.Mapping()), op)
    ensures index.allocator.failures == old(index.allocator.failures) && old(index.Canonical()) ==> index.Canonical()
  {
    hide MemxIndex.Valid, MemxIndex.Canonical, MemxIndex.Mapping, InsertSpec, RemoveSpec, LookupSpec, Config.Legal;
    index.LegalIndex();
    match op
    case InsertOp(address, size, handle) =>
      var status := index.Insert(address, size, handle);
      answer := StatusAnswer(status);
    case RemoveOp(address, size, handle) =>
      var status := index.Remove(address, size, handle);
      answer := StatusAnswer(status);
    case LookupOp(address) =>
      answer := HandleAnswer(index.LookupAddress(address));
  }

  lemma HistoryStart(c: Config, frozen: bool, m: Mapping, ops: seq<Op>)
    requires c.Legal() && WordOps(c, ops)
    ensures Explained(c, frozen, ops[..0], [], [m]) && MapRun(c, frozen, m, ops[..0]) == Run([], m)
  {
  }

  lemma ExplainedGrows(c: Config, frozen: bool, ops: seq<Op>, i: nat, answers: seq<Answer>, maps: seq<Mapping>, answer: Answer, m: Mapping)
    requires c.Legal() && WordOps(c, ops) && i < |ops| && Explained(c, frozen, ops[..i], answers, maps)
    requires Allowed(c, frozen, maps[i], ops[i], Step(answer, m))
    ensures Explained(c, frozen, ops[..i + 1], answers + [answer], maps + [m])
  {
    hide Allowed, Config.Legal;
    var longer, more := answers + [answer], maps + [m];
    forall j | 0 <= j < i + 1
      ensures Allowed(c, frozen, more[j], ops[..i + 1][j], Step(longer[j], more[j + 1]))
    {
      if j < i {
        assert Allowed(c, frozen, maps[j], ops[..i][j], Step(answers[j], maps[j + 1]));
      }
    }
  }

  lemma MapRunGrows(c: Config, frozen: bool, m: Mapping, ops: seq<Op>, i: nat)
    requires c.Legal() && WordOps(c, ops) && i < |ops|
    ensures var earlier := MapRun(c, frozen, m, ops[..i]);
            var step := MapStep(c, frozen, earlier.mapping, ops[i]);
            MapRun(c, frozen, m, ops[..i + 1]) == Run(earlier.answers + [step.answer], step.mapping)
  {
    assert ops[..i + 1][..i] == ops[..i];
  }

  /** Every history of insert, remove and lookup on a bounded, sparse, flat or frozen index. */
  method Replay(index: MemxIndex, ops: seq<Op>) returns (answers: seq<Answer>, ghost maps: seq<Mapping>)
    requires index.Valid() && WordOps(index.c, ops)
    modifies index, index.allocator
    ensures index.Valid() && index.c.Legal() && index.overlayMode == old(index.overlayMode)
    ensures Explained(index.c, index.overlayMode, ops, answers, maps) && maps[0] == old(index.Mapping()) && maps[|ops|] == index.Mapping()
    ensures index.allocator.failures >= old(index.allocator.failures)
    ensures index.allocator.failures == old(index.allocator.failures) ==>
              Run(answers, index.Mapping()) == MapRun(index.c, index.overlayMode, old(index.Mapping()), ops)
    ensures index.allocator.failures == old(index.allocator.failures) && old(index.Canonical()) ==> index.Canonical()
  {
    hide MemxIndex.Valid, MemxIndex.Canonical, MemxIndex.Mapping, MapStep, Allowed, Config.Legal, Explained, MapRun;
    index.LegalIndex();
    HistoryStart(index.c, index.overlayMode, index.Mapping(), ops);
    ghost var start := index.Mapping();
    answers, maps := [], [start];
    var i := 0;
    while i < |ops|
      invariant i <= |ops| && index.Valid() && index.c.Legal() && index.overlayMode == old(index.overlayMode)
      invariant |answers| == i && |maps| == i + 1
      invariant Explained(index.c, index.overlayMode, ops[..i], answers, maps) && maps[0] == start && maps[i] == index.Mapping()
      invariant index.allocator.failures >= old(index.allocator.failures)
      invariant index.allocator.failures == old(index.allocator.failures) ==>
                  Run(answers, index.Mapping()) == MapRun(index.c, index.overlayMode, start, ops[..i])
      invariant index.allocator.failures == old(index.allocator.failures) && old(index.Canonical()) ==> index.Canonical()
    {
      var answer := Apply(index, ops[i]);
      ExplainedGrows(index.c, index.overlayMode, ops, i, answers, maps, answer, index.Mapping());
      MapRunGrows(index.c, index.overlayMode, start, ops, i);
      answers, maps := answers + [answer], maps + [index.Mapping()];
      i := i + 1;
    }
    assert ops[..i] == ops;
  }

  /** Nothing a caller can observe, and nothing stored, tells two indexes apart. */
  ghost predicate SameShape(a: MemxIndex, b: MemxIndex)
    requires a.Valid() && b.Valid()
    reads a, b, a.allocator, b.allocator
  {
    && a.c == b.c && a.regions == b.regions && Present(a.Memory()) == Present(b.Memory())
    && a.denseRegions == b.denseRegions && a.uniformRegions == b.uniformRegions && a.allocatedLeaves == b.allocatedLeaves
    && (forall indexBytes: nat, pageShift: nat :: a.Stats(indexBytes, pageShift) == b.Stats(indexBytes, pageShift))
    && (forall address: nat :: a.c.IsWord(address) ==> a.TypeAt(address) == b.TypeAt(address))
  }

  /** Reports and types are functions of the regions and the counters. */
  lemma SameReports(a: MemxIndex, b: MemxIndex)
    requires a.Valid() && b.Valid() && a.c == b.c && a.regions == b.regions
    requires !a.flatMode && !a.overlayMode && !b.flatMode && !b.overlayMode
    requires a.denseRegions == b.denseRegions && a.uniformRegions == b.uniformRegions && a.allocatedLeaves == b.allocatedLeaves
    ensures forall indexBytes: nat, pageShift: nat :: a.Stats(indexBytes, pageShift) == b.Stats(indexBytes, pageShift)
    ensures forall address: nat :: a.c.IsWord(address) ==> a.TypeAt(address) == b.TypeAt(address)
  {
    hide MemxIndex.Valid, Shl, Shr, Low, Pow2, And, SatAdd, SatMul, PageAccount, AddressToRegion, Covered;
  }

  /** The canonical form of a map is unique. */
  lemma SameMapSameShape(a: MemxIndex, b: MemxIndex)
    requires a.Canonical() && b.Canonical() && a.Valid() && b.Valid() && a.c == b.c
    requires a.Mapping() == b.Mapping()
    ensures SameShape(a, b)
  {
    hide Sound, Shl, Shr, Low, Pow2, And, MapOf, CanonicalShape;
    CanonicalUnique(a.c, a.regions, Present(a.Memory()), b.regions, Present(b.Memory()));
    SoundShape(a.c, a.Memory(), a.regions);
    SoundShape(b.c, b.Memory(), b.regions);
    LeavesArePresent(a.c, a.Memory(), a.regions);
    LeavesArePresent(b.c, b.Memory(), b.regions);
    SameReports(a, b);
  }

  /**
   Two histories from fresh indexes of one configuration, neither with a failed allocation,
   that reach the same map leave the same regions, leaves, counters and reports.
   */
  method ReplayBoth(c: Config, first: seq<Op>, second: seq<Op>, left: Allocator, right: Allocator)
    returns (a: MemxIndex?, b: MemxIndex?)
    requires c.wordLog >= 1 && c.IsWord(c.base) && c.IsWord(c.managedSize) && left != right
    requires WordOps(c, first) && WordOps(c, second)
    modifies left, right
    ensures left.failures == old(left.failures) && right.failures == old(right.failures) ==>
              (a != null <==> CreateStatus(c) == Ok) && (b != null <==> CreateStatus(c) == Ok)
    ensures a != null && b != null ==> c.Legal() && a.Valid() && b.Valid() && a.allocator == left && b.allocator == right
    ensures
      && a != null && b != null && left.failures == old(left.failures) && right.failures == old(right.failures)
      && MapRun(c, false, map[], first).mapping == MapRun(c, false, map[], second).mapping
      ==> SameShape(a, b)
  {
    hide MemxIndex.Valid, MemxIndex.Canonical, MemxIndex.Mapping, Config.Legal, MapRun, Explained, SameShape, CreateStatus;
    var status;
    status, a := Create(c, left);
    status, b := Create(c, right);
    if a == null || b == null { return; }
    a.NotFrozen();
    b.NotFrozen();
    var answers, maps := Replay(a, first);
    answers, maps := Replay(b, second);
    if left.failures == old(left.failures) && right.failures == old(right.failures)
       && MapRun(c, false, map[], first).mapping == MapRun(c, false, map[], second).mapping {
      SameMapSameShape(a, b);
    }
  }
}
