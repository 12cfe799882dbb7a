/**
 The thread-caching heap as a transition system. One step is one critical section, one atomic
 access, or a stretch of code that only touches lists private to the thread; any thread may
 take the next step.
 */
module HeapSteps {
  import opened CacheSegments
  import opened HeapPools
  import opened HeapMemory
  import opened HeapMoves

  datatype Option<+T> = None | Some(value: T)

  /** The cache a thread used last: none, one of another heap, or one of this heap. */
  datatype Last = Nothing | Foreign | Cached(c: nat)

  /** Where a thread stands inside an operation on this heap. */
  datatype PC =
    | Idle
    | Registering(k: nat)            // linked its new cache, about to take the admin lock
    | Allocating(k: nat)             // holds a cache, about to look at the hot segment
    | Draining(k: nat)               // returning what it took from its remote queue
    | Refilling(k: nat)              // about to take the class lock
    | Freeing(b: nat)                // cleared the block's state word, about to route it
    | ToRemote(b: nat, owner: nat)   // about to take the owner's remote lock
    | ToBin(b: nat)                  // about to take the class lock with one block
    | Detaching(c: nat, k: nat)      // surrendering class k of a detached cache

  datatype Thread = Thread(attached: Option<nat>, last: Last, pc: PC)

  datatype CacheInfo = CacheInfo(thread: nat, accepting: bool)

  datatype State = State(
    m: Memory, owner: map<nat, nat>, caches: map<nat, CacheInfo>, registered: set<nat>, exclusive: Option<nat>,
    threads: map<nat, Thread>)

  /**
   What a thread does next. A new cache is a record calloc may refuse; a new span is a list of
   blocks the arena may refuse (the empty list). Continue runs the next step of the operation
   the thread is in.
   */
  datatype Choice =
    | Malloc(k: nat, record: Option<nat>)
    | Free(b: nat)
    | Detach
    | UseOtherHeap
    | Continue(span: seq<nat>)

  function ThreadOf(s: State, t: nat): Thread { if t in s.threads then s.threads[t] else Thread(None, Nothing, Idle) }

  function With(s: State, t: nat, th: Thread): State { s.(threads := s.threads[t := th]) }

  function Start(): State {
    State(Memory(map[], seq(CLASS_COUNT, _ => []), map[]), map[], map[], {}, None, map[])
  }

  /** memx_heap_get_cache and memx_heap_create_cache up to the admin lock. */
  function Enter(s: State, t: nat, k: nat, record: Option<nat>): State {
    var th := ThreadOf(s, t);
    if th.attached.Some? then With(s, t, th.(last := Cached(th.attached.value), pc := Allocating(k)))
    else if record.None? || record.value in s.caches then s
    else With(s.(caches := s.caches[record.value := CacheInfo(t, true)]), t,
              Thread(record, Cached(record.value), Registering(k)))
  }

  /** The critical section that publishes a new cache. */
  function Register(s: State, t: nat, c: nat, k: nat): State {
    With(s.(exclusive := if s.registered == {} then Some(c) else None, registered := s.registered + {c}), t,
         ThreadOf(s, t).(pc := Allocating(k)))
  }

  /** Hands out the first block of the hot segment. */
  function Deliver(s: State, t: nat, c: nat, k: nat): State
    requires In(s.m, Local(c, k)) != []
  {
    With(s.(m := Take(s.m, c, k), owner := s.owner[In(s.m, Local(c, k))[0] := c]), t, ThreadOf(s, t).(pc := Idle))
  }

  /** memx_heap_allocate_small and the lock-free part of a refill; the third branch takes the remote queue. */
  function Allocate(s: State, t: nat, c: nat, k: nat): State {
    if In(s.m, Local(c, k)) != [] then Deliver(s, t, c, k)
    else if In(s.m, Spare(c, k)) != [] then
      MoveAt(s.m, Spare(c, k), 0, |In(s.m, Spare(c, k))|, Local(c, k));
      Deliver(s.(m := Adopt(s.m, c, k)), t, c, k)
    else
      With(s.(m := Move(s.m, Remote(c, k), 0, |In(s.m, Remote(c, k))|, Taken(t, k))), t, ThreadOf(s, t).(pc := Draining(k)))
  }

  /** One turn of memx_heap_drain_remote's loop, or the end of it. */
  function Drain(g: Limits, s: State, t: nat, c: nat, k: nat): State
    requires k < |s.m.stacks|
  {
    if In(s.m, Taken(t, k)) != [] then s.(m := Return(g, s.m, Taken(t, k), c, k))
    else if In(s.m, Local(c, k)) != [] then Deliver(s, t, c, k)
    else if In(s.m, Spare(c, k)) != [] then
      MoveAt(s.m, Spare(c, k), 0, |In(s.m, Spare(c, k))|, Local(c, k));
      Deliver(s.(m := Adopt(s.m, c, k)), t, c, k)
    else With(s, t, ThreadOf(s, t).(pc := Refilling(k)))
  }

  /** The critical section of a refill: a span is carved when the class has no chunk. */
  ghost function Refill(g: Limits, s: State, t: nat, c: nat, k: nat, span: seq<nat>): State
    requires g.Legal() && k < CLASS_COUNT && Sound(s.m) && ChunksWithin(s.m, g.Cap()) && SegmentsOf(s.m, c, k) == Segments([], [])
  {
    StackCount(s.m);
    if s.m.stacks[k] == [] && !(span != [] && Fresh(s.m, span)) then With(s, t, ThreadOf(s, t).(pc := Idle))
    else
      var m := if s.m.stacks[k] == [] then CarveAll(s.m, k, span, g.ChunkLimit()) else s.m;
      CarvedEffect(g, s.m, c, k, span);
      Deliver(s.(m := FromCentral(m, k, Local(c, k))), t, c, k)
  }

  lemma CarvedEffect(g: Limits, m: Memory, c: nat, k: nat, span: seq<nat>)
    requires g.Legal() && k < CLASS_COUNT && Sound(m) && ChunksWithin(m, g.Cap()) && SegmentsOf(m, c, k) == Segments([], [])
    requires m.stacks[k] != [] || (span != [] && Fresh(m, span))
    ensures var mid := if m.stacks[k] == [] then CarveAll(m, k, span, g.ChunkLimit()) else m;
            && |mid.stacks| == CLASS_COUNT && mid.stacks[k] != []
            && var next := FromCentral(mid, k, Local(c, k));
            && Sound(next) && ChunksWithin(next, g.Cap())
            && 0 < |In(next, Local(c, k))| <= g.Cap() && In(next, Spare(c, k)) == []
            && (forall r: Place :: !r.Chunk? && r != Local(c, k) ==> In(next, r) == In(m, r))
            && next.carved == if m.stacks[k] == [] then Classed(m.carved, span, k) else m.carved
  {
    hide Unique, Suited, Complete, CarveAll, FromCentral, ChunksWithin, Fresh;
    if m.stacks[k] == [] { CarveAllEffect(m, k, span, g.ChunkLimit(), g.Cap()); }
    var mid := if m.stacks[k] == [] then CarveAll(m, k, span, g.ChunkLimit()) else m;
    RefillEffect(g, mid, c, k);
  }

  // ----- freeing

  ghost function Position(s: seq<nat>, b: nat): (i: nat)
    requires b in s
    ensures i < |s| && s[i] == b
  {
    var i: nat :| i < |s| && s[i] == b;
    i
  }

  /** The checked free's state exchange: only a live block passes it. */
  ghost function Release(s: State, t: nat, b: nat): State {
    if b in In(s.m, Live) then
      var i := Position(In(s.m, Live), b);
      With(s.(m := Move(s.m, Live, i, i + 1, Hand(t))), t, ThreadOf(s, t).(pc := Freeing(b)))
    else s
  }

  /** The exclusive-cache shortcut is taken. */
  predicate Shortcut(s: State, t: nat) {
    ThreadOf(s, t).last.Cached? && s.exclusive == Some(ThreadOf(s, t).last.c)
  }

  /** The owner memx_heap_route_small works with; without the shortcut it reads the block. */
  function RoutedOwner(s: State, t: nat, b: nat): nat
    requires b in s.owner
  {
    if Shortcut(s, t) then ThreadOf(s, t).last.c else s.owner[b]
  }

  /** memx_heap_route_small up to its first lock. */
  function Route(g: Limits, s: State, t: nat, b: nat): State
    requires b in s.owner && b in s.m.carved && s.m.carved[b] < |s.m.stacks| && In(s.m, Hand(t)) == [b]
  {
    var th := ThreadOf(s, t);
    var owner := RoutedOwner(s, t, b);
    var last := if th.last == Cached(owner) || th.attached.None? then th.last else Cached(th.attached.value);
    var mine := th.last == Cached(owner) || th.attached == Some(owner);
    if mine then With(s.(m := Return(g, s.m, Hand(t), owner, s.m.carved[b])), t, th.(last := last, pc := Idle))
    else With(s, t, th.(last := last, pc := ToRemote(b, owner)))
  }

  /** The critical section on the owner's remote queue. */
  function Deposit(s: State, t: nat, b: nat, owner: nat): State
    requires b in s.m.carved && owner in s.caches && In(s.m, Hand(t)) == [b]
  {
    if s.caches[owner].accepting then
      With(s.(m := Move(s.m, Hand(t), 0, 1, Remote(owner, s.m.carved[b]))), t, ThreadOf(s, t).(pc := Idle))
    else With(s, t, ThreadOf(s, t).(pc := ToBin(b)))
  }

  /** One block goes to its central bin as a chunk of its own. */
  function Bin(s: State, t: nat, b: nat): State
    requires b in s.m.carved && s.m.carved[b] < |s.m.stacks| && In(s.m, Hand(t)) == [b]
  {
    With(s.(m := ToCentral(s.m, Hand(t), 1, s.m.carved[b])), t, ThreadOf(s, t).(pc := Idle))
  }

  // ----- detaching

  /** Unlinks the cache and, under its remote lock, stops remote frees and takes them all back. */
  function Unlink(s: State, t: nat): State {
    var th := ThreadOf(s, t);
    match th.attached
    case None => s
    case Some(c) =>
      With(s.(m := Recall(s.m, c, 0), caches := s.caches[c := CacheInfo(t, false)]), t,
           Thread(None, if th.last == Cached(c) then Nothing else th.last, Detaching(c, 0)))
  }

  /** Surrenders one class under its class lock. */
  function SurrenderClass(s: State, t: nat, c: nat, k: nat): State
    requires k < |s.m.stacks|
  {
    With(s.(m := Surrender(s.m, c, k)), t,
         ThreadOf(s, t).(pc := if k + 1 < CLASS_COUNT then Detaching(c, k + 1) else Idle))
  }

  // ----- the invariant

  /** What a thread's position promises about the lists it works with. */
  ghost predicate ThreadOk(s: State, t: nat) {
    var th := ThreadOf(s, t);
    && (th.attached.Some? ==>
          && th.attached.value in s.caches && s.caches[th.attached.value] == CacheInfo(t, true)
          && (th.attached.value in s.registered || th.pc.Registering?))
    && (th.last.Cached? ==> th.attached == Some(th.last.c))
    && (forall j :: In(s.m, Taken(t, j)) != [] ==> th.pc == Draining(j))
    && match th.pc
       case Idle => In(s.m, Hand(t)) == []
       case Registering(k) => In(s.m, Hand(t)) == [] && k < CLASS_COUNT && th.attached.Some? && th.attached.value !in s.registered
       case Allocating(k) => In(s.m, Hand(t)) == [] && k < CLASS_COUNT && th.attached.Some?
       case Draining(k) => In(s.m, Hand(t)) == [] && k < CLASS_COUNT && th.attached.Some?
       case Refilling(k) =>
         In(s.m, Hand(t)) == [] && k < CLASS_COUNT && th.attached.Some? && SegmentsOf(s.m, th.attached.value, k) == Segments([], [])
       case Freeing(b) => In(s.m, Hand(t)) == [b]
       case ToRemote(b, owner) => In(s.m, Hand(t)) == [b] && owner in s.registered
       case ToBin(b) => In(s.m, Hand(t)) == [b]
       case Detaching(c, k) =>
         In(s.m, Hand(t)) == [] && k < CLASS_COUNT && th.attached.None?
         && c in s.registered && c in s.caches && s.caches[c] == CacheInfo(t, false)
  }

  /** An attached cache respects the budget; a detached one holds only what its thread has yet to surrender. */
  ghost predicate CacheOk(g: Limits, s: State, c: nat) {
    if c !in s.caches then forall k :: SegmentsOf(s.m, c, k) == Segments([], []) && In(s.m, Remote(c, k)) == []
    else if s.caches[c].accepting then
      ThreadOf(s, s.caches[c].thread).attached == Some(c) && forall k :: AtRest(g, SegmentsOf(s.m, c, k))
    else
      var pc := ThreadOf(s, s.caches[c].thread).pc;
      forall k | 0 <= k < CLASS_COUNT ::
        In(s.m, Remote(c, k)) == [] && (SegmentsOf(s.m, c, k) == Segments([], []) || (pc.Detaching? && pc.c == c && pc.k <= k))
  }

  ghost predicate OwnersOk(s: State) {
    && (forall c :: c in s.registered ==> c in s.caches)
    && (s.exclusive.Some? ==> s.registered == {s.exclusive.value})
    && (forall p, b :: b in In(s.m, p) && (p.Live? || p.Hand?) ==> b in s.owner && s.owner[b] in s.registered)
  }

  ghost predicate Inv(g: Limits, s: State) {
    && Sound(s.m) && ChunksWithin(s.m, g.Cap())
    && (forall t :: ThreadOk(s, t))
    && (forall c :: CacheOk(g, s, c))
    && OwnersOk(s)
  }
}
