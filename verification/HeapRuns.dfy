/** Whole runs of the heap: what holds after any number of steps by any threads in any order. */
module HeapRuns {
  import opened CacheSegments
  import opened HeapPools
  import opened HeapMemory
  import opened HeapMoves
  import opened HeapSteps
  import opened HeapFrame
  import opened HeapSafety

  /** Thread t takes a step; a choice that does not fit its position changes nothing. */
  ghost function Next(g: Limits, s: State, t: nat, choice: Choice): (next: State)
    requires g.Legal() && Inv(g, s)
    ensures Inv(g, next)
  {
    hide Sound, ChunksWithin, In, Enter, Register, Allocate, Drain, Refill, Release, Route, Deposit, Bin, Unlink, SurrenderClass;
    var th := ThreadOf(s, t);
    if th.pc.Idle? then
      match choice
      case Malloc(k, record) => if k < CLASS_COUNT then (EnterKeeps(g, s, t, k, record); Enter(s, t, k, record)) else s
      case Free(b) => ReleaseKeeps(g, s, t, b); Release(s, t, b)
      case Detach => UnlinkKeeps(g, s, t); Unlink(s, t)
      case UseOtherHeap => OtherHeapKeeps(g, s, t); With(s, t, th.(last := Foreign))
      case Continue(_) => s
    else if choice.Continue? then Resume(g, s, t, choice.span)
    else s
  }

  /** The next step of the operation a thread is in. */
  ghost function Resume(g: Limits, s: State, t: nat, span: seq<nat>): (next: State)
    requires g.Legal() && Inv(g, s) && !ThreadOf(s, t).pc.Idle?
    ensures Inv(g, next)
  {
    hide Sound, ChunksWithin, In, Register, Allocate, Drain, Refill, Route, Deposit, Bin, SurrenderClass;
    var th := ThreadOf(s, t);
    assert ThreadOk(s, t);
    StackCount(s.m);
    match th.pc
    case Registering(k) => RegisterKeeps(g, s, t, th.attached.value, k); Register(s, t, th.attached.value, k)
    case Allocating(k) => AllocateKeeps(g, s, t, th.attached.value, k); Allocate(s, t, th.attached.value, k)
    case Draining(k) => DrainKeeps(g, s, t, th.attached.value, k); Drain(g, s, t, th.attached.value, k)
    case Refilling(k) => RefillKeeps(g, s, t, th.attached.value, k, span); Refill(g, s, t, th.attached.value, k, span)
    case Freeing(b) => ShortcutSound(g, s, t, b); RouteKeeps(g, s, t, b); Route(g, s, t, b)
    case ToRemote(b, owner) => DepositKeeps(g, s, t, b, owner); Deposit(s, t, b, owner)
    case ToBin(b) => BinKeeps(g, s, t, b); Bin(s, t, b)
    case Detaching(c, k) => SurrenderKeeps(g, s, t, c, k); SurrenderClass(s, t, c, k)
  }

  datatype Turn = Turn(thread: nat, choice: Choice)

  lemma StartInv(g: Limits)
    ensures Inv(g, Start())
  {
    var s := Start();
    assert forall p :: In(s.m, p) == [];
  }

  /** The heap after a run; turns are the scheduler's choices. */
  ghost function Run(g: Limits, turns: seq<Turn>): (s: State)
    requires g.Legal()
    ensures Inv(g, s)
  {
    hide Inv, Next;
    if turns == [] then (StartInv(g); Start())
    else Next(g, Run(g, turns[..|turns| - 1]), turns[|turns| - 1].thread, turns[|turns| - 1].choice)
  }

  // ----- what every run keeps

  /** Block b is in place p, once, and nowhere else. */
  ghost predicate OnlyIn(m: Memory, b: nat, p: Place) {
    && (exists i :: 0 <= i < |In(m, p)| && In(m, p)[i] == b)
    && (forall q, i, j :: 0 <= i < |In(m, p)| && In(m, p)[i] == b && 0 <= j < |In(m, q)| && In(m, q)[j] == b ==> q == p && j == i)
  }

  /** After any run every carved block is in exactly one place, and a list of a class holds blocks of that class. */
  lemma EveryBlockOnce(g: Limits, turns: seq<Turn>, b: nat)
    requires g.Legal() && b in Run(g, turns).m.carved
    ensures var m := Run(g, turns).m;
            && m.carved[b] < CLASS_COUNT
            && exists p :: OnlyIn(m, b, p) && Suits(m.carved, p, b) && (p.Chunk? ==> p.head in m.stacks[m.carved[b]])
  {
    hide Run, Suits, ThreadOk, CacheOk, OwnersOk;
    var m := Run(g, turns).m;
    var p :| b in At(m.pools, p);
    assert b in In(m, p);
    SuitsOf(m, p, b);
    OnceIn(m, b, p);
    if p.Chunk? { ChunkListed(m, p.head, b); }
  }

  lemma OnceIn(m: Memory, b: nat, p: Place)
    requires Unique(m.pools) && b in In(m, p)
    ensures OnlyIn(m, b, p)
  {
    forall q, i, j | 0 <= i < |In(m, p)| && In(m, p)[i] == b && 0 <= j < |In(m, q)| && In(m, q)[j] == b
      ensures q == p && j == i
    {
      assert b in At(m.pools, p) && b in At(m.pools, q);
      assert NoRepeat(At(m.pools, p));
    }
  }

  lemma ChunkListed(m: Memory, h: nat, b: nat)
    requires Sound(m) && b in In(m, Chunk(h))
    ensures b in m.carved && m.carved[b] < |m.stacks| && h in m.stacks[m.carved[b]]
  {
    hide Unique, Complete;
    SuitsOf(m, Chunk(h), b);
  }

  /** The step carves a span: the class has no chunk and the arena gave blocks never seen before. */
  ghost predicate Carves(s: State, t: nat, choice: Choice) {
    var pc := ThreadOf(s, t).pc;
    pc.Refilling? && choice.Continue? && pc.k < |s.m.stacks| && s.m.stacks[pc.k] == [] && choice.span != [] && Fresh(s.m, choice.span)
  }

  ghost function CarvedBy(s: State, t: nat, choice: Choice): map<nat, nat> {
    if Carves(s, t, choice) then Classed(s.m.carved, choice.span, ThreadOf(s, t).pc.k) else s.m.carved
  }

  /** Only carving changes the set of blocks, and it adds exactly the span. */
  lemma CarvedStep(g: Limits, s: State, t: nat, choice: Choice)
    requires g.Legal() && Inv(g, s)
    ensures Next(g, s, t, choice).m.carved == CarvedBy(s, t, choice)
  {
    hide Inv, Enter, Release, Unlink, Resume, Carves, Classed, In;
    if ThreadOf(s, t).pc.Idle? {
      IdleCarves(g, s, t, choice);
    } else if choice.Continue? {
      ResumeCarves(g, s, t, choice.span);
    } else {
      NoContinue(s, t, choice);
    }
  }

  lemma NoContinue(s: State, t: nat, choice: Choice)
    requires !choice.Continue?
    ensures !Carves(s, t, choice)
  {
  }

  lemma IdleCarves(g: Limits, s: State, t: nat, choice: Choice)
    requires g.Legal() && Inv(g, s) && ThreadOf(s, t).pc.Idle?
    ensures forall k: nat, record :: Enter(s, t, k, record).m.carved == s.m.carved
    ensures forall b :: Release(s, t, b).m.carved == s.m.carved
    ensures Unlink(s, t).m.carved == s.m.carved && !Carves(s, t, choice)
  {
    hide Sound, ChunksWithin, In, AtRest, Recall, Fresh, ThreadOk, CacheOk, OwnersOk;
    if ThreadOf(s, t).attached.Some? { RecallEffect(s.m, ThreadOf(s, t).attached.value, 0, g.Cap()); }
  }

  lemma ResumeCarves(g: Limits, s: State, t: nat, span: seq<nat>)
    requires g.Legal() && Inv(g, s) && !ThreadOf(s, t).pc.Idle?
    ensures Resume(g, s, t, span).m.carved == CarvedBy(s, t, Continue(span))
  {
    hide Sound, ChunksWithin, In, AtRest, CacheOk, OwnersOk, MustFlush, Surrender, CarveAll, FromCentral, Fresh, Classed, Refill;
    assert ThreadOk(s, t);
    StackCount(s.m);
    match ThreadOf(s, t).pc {
      case Detaching(c, k) => SurrenderEffect(s.m, c, k, g.Cap());
      case Refilling(k) => RefillCarved(g, s, t, ThreadOf(s, t).attached.value, k, span);
      case _ =>
    }
  }

  lemma RefillCarved(g: Limits, s: State, t: nat, c: nat, k: nat, span: seq<nat>)
    requires g.Legal() && k < CLASS_COUNT && Sound(s.m) && ChunksWithin(s.m, g.Cap()) && SegmentsOf(s.m, c, k) == Segments([], [])
    ensures |s.m.stacks| == CLASS_COUNT
    ensures Refill(g, s, t, c, k, span).m.carved
            == if s.m.stacks[k] == [] && span != [] && Fresh(s.m, span) then Classed(s.m.carved, span, k) else s.m.carved
  {
    hide Sound, ChunksWithin, In, CarveAll, FromCentral, Fresh, Classed;
    StackCount(s.m);
    if s.m.stacks[k] != [] || (span != [] && Fresh(s.m, span)) {
      CarvedEffect(g, s.m, c, k, span);
    }
  }

  /** No run loses a block or changes its class. */
  lemma {:induction false} CarvedForever(g: Limits, turns: seq<Turn>, n: nat, b: nat)
    requires g.Legal() && n <= |turns| && b in Run(g, turns[..n]).m.carved
    ensures b in Run(g, turns).m.carved && Run(g, turns).m.carved[b] == Run(g, turns[..n]).m.carved[b]
  {
    hide Inv;
    if n == |turns| {
      assert turns[..n] == turns;
    } else {
      var earlier, last := turns[..|turns| - 1], turns[|turns| - 1];
      assert earlier[..n] == turns[..n];
      CarvedForever(g, earlier, n, b);
      CarvedStep(g, Run(g, earlier), last.thread, last.choice);
      CarvedKept(Run(g, earlier), last.thread, last.choice, b);
    }
  }

  lemma CarvedKept(s: State, t: nat, choice: Choice, b: nat)
    requires b in s.m.carved
    ensures b in CarvedBy(s, t, choice) && CarvedBy(s, t, choice)[b] == s.m.carved[b]
  {
  }

  /** After any run, a block of an attached or detached cache is never stuck in the queue of a detached one. */
  lemma NothingStranded(g: Limits, turns: seq<Turn>, c: nat, k: nat)
    requires g.Legal() && c in Run(g, turns).caches && !Run(g, turns).caches[c].accepting
    ensures In(Run(g, turns).m, Remote(c, k)) == []
  {
    hide Run, In, Sound, ThreadOk, OwnersOk, ChunksWithin, AtRest;
    var s := Run(g, turns);
    assert CacheOk(g, s, c);
    if k >= CLASS_COUNT { NoSuchClass(s.m, Remote(c, k)); }
  }

  lemma NoSuchClass(m: Memory, p: Place)
    requires Sound(m) && (p.Local? || p.Spare? || p.Remote? || p.Taken?) && p.k >= CLASS_COUNT
    ensures In(m, p) == []
  {
    hide Sound;
    if In(m, p) != [] {
      SuitsOf(m, p, In(m, p)[0]);
      assert false;
    }
  }

  /**
   After any run, an attached cache holds at most the configured number of blocks per class and
   never fills its hot segment, so a flush always gives a segment the 32-bit counter of a chunk
   can describe; every central chunk respects the same limits.
   */
  lemma BudgetsHold(g: Limits, turns: seq<Turn>)
    requires g.Legal()
    ensures var s := Run(g, turns);
            && (forall c, k: nat :: c in s.caches && s.caches[c].accepting ==> AtRest(g, SegmentsOf(s.m, c, k)))
            && |s.m.stacks| == CLASS_COUNT
            && (forall k, h: nat :: 0 <= k < CLASS_COUNT && h in s.m.stacks[k] ==>
                  1 <= |In(s.m, Chunk(h))| <= g.Cap() && In(s.m, Chunk(h))[0] == h)
  {
    hide Run, In, ThreadOk, OwnersOk, AtRest, Unique, Suited, Complete;
    var s := Run(g, turns);
    forall c, k: nat | c in s.caches && s.caches[c].accepting
      ensures AtRest(g, SegmentsOf(s.m, c, k))
    {
      assert CacheOk(g, s, c);
    }
    forall k, h: nat | 0 <= k < CLASS_COUNT && h in s.m.stacks[k]
      ensures 1 <= |In(s.m, Chunk(h))| <= g.Cap() && In(s.m, Chunk(h))[0] == h
    {
      assert ChunkHead(s.m, k, h);
    }
  }

  /** After any run, if a free takes the exclusive-cache shortcut then the block records the caller's cache as its owner. */
  lemma ExclusiveIsOwner(g: Limits, turns: seq<Turn>, t: nat, b: nat)
    requires g.Legal() && ThreadOf(Run(g, turns), t).pc == Freeing(b)
    ensures var s := Run(g, turns);
            && b in s.owner
            && (Shortcut(s, t) ==> s.owner[b] == ThreadOf(s, t).last.c && ThreadOf(s, t).attached == Some(s.owner[b]))
  {
    hide Run, In, Sound, ChunksWithin, CacheOk, OwnersOk, AtRest;
    var s := Run(g, turns);
    ShortcutSound(g, s, t, b);
    assert ThreadOk(s, t);
  }

  /** Nobody is inside the heap, nobody is attached to it, and the application holds no block. */
  ghost predicate Quiescent(s: State) {
    In(s.m, Live) == [] && forall t :: ThreadOf(s, t).pc.Idle? && ThreadOf(s, t).attached.None?
  }

  /** After any run that ends quiescent, every block ever carved is back in a central chunk of its class. */
  lemma AllBackInCentral(g: Limits, turns: seq<Turn>, b: nat)
    requires g.Legal() && Quiescent(Run(g, turns)) && b in Run(g, turns).m.carved
    ensures var m := Run(g, turns).m;
            && m.carved[b] < |m.stacks|
            && exists h: nat :: h in m.stacks[m.carved[b]] && b in In(m, Chunk(h))
  {
    hide Run, In, Sound, Suits, ThreadOk, CacheOk, OwnersOk, ChunksWithin, AtRest;
    var s := Run(g, turns);
    EveryBlockOnce(g, turns, b);
    StackCount(s.m);
    var p :| OnlyIn(s.m, b, p) && Suits(s.m.carved, p, b) && (p.Chunk? ==> p.head in s.m.stacks[s.m.carved[b]]);
    assert b in In(s.m, p);
    if p.Chunk? {
      assert b in In(s.m, Chunk(p.head));
    } else {
      ListIsEmpty(g, s, p);
      assert false;
    }
  }

  lemma ListIsEmpty(g: Limits, s: State, p: Place)
    requires Inv(g, s) && Quiescent(s) && !p.Chunk?
    ensures In(s.m, p) == []
  {
    hide In, Sound, OwnersOk, ChunksWithin, AtRest;
    match p {
      case Hand(t) => assert ThreadOk(s, t);
      case Taken(t, k) => assert ThreadOk(s, t);
      case Live =>
      case Chunk(_) =>
      case Local(c, k) => assert CacheOk(g, s, c); if k >= CLASS_COUNT { NoSuchClass(s.m, p); } else { DetachedEmpty(g, s, c, k); }
      case Spare(c, k) => assert CacheOk(g, s, c); if k >= CLASS_COUNT { NoSuchClass(s.m, p); } else { DetachedEmpty(g, s, c, k); }
      case Remote(c, k) => assert CacheOk(g, s, c); if k >= CLASS_COUNT { NoSuchClass(s.m, p); } else { DetachedEmpty(g, s, c, k); }
    }
  }

  lemma DetachedEmpty(g: Limits, s: State, c: nat, k: nat)
    requires CacheOk(g, s, c) && Quiescent(s) && k < CLASS_COUNT
    ensures In(s.m, Local(c, k)) == [] && In(s.m, Spare(c, k)) == [] && In(s.m, Remote(c, k)) == []
  {
    hide In, AtRest;
    assert SegmentsOf(s.m, c, k) == Segments([], []);
  }
}
