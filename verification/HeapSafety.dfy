/** Every step of every thread keeps the invariant of the heap. */
module HeapSafety {
  import opened CacheSegments
  import opened HeapPools
  import opened HeapMemory
  import opened HeapMoves
  import opened HeapSteps
  import opened HeapFrame

  predicate Held(p: Place) { p.Live? || p.Hand? }

  /** Blocks outside every list had an owner before, or are delivered to a registered cache now. */
  lemma OwnersKept(s: State, next: State)
    requires OwnersOk(s) && next.owner == s.owner && s.registered <= next.registered
    requires forall c :: c in next.registered ==> c in next.caches
    requires next.exclusive.Some? ==> next.registered == {next.exclusive.value}
    requires forall p, b :: Held(p) && b in In(next.m, p) ==> exists q :: Held(q) && b in In(s.m, q)
    ensures OwnersOk(next)
  {
    hide In;
  }

  lemma OwnersSame(s: State, next: State)
    requires OwnersOk(s) && next.owner == s.owner && next.registered == s.registered && next.exclusive == s.exclusive
    requires forall c :: c in s.caches ==> c in next.caches
    requires forall p :: Held(p) ==> In(next.m, p) == In(s.m, p)
    ensures OwnersOk(next)
  {
    hide In;
    OwnersKept(s, next);
  }

  // ----- entering

  lemma EnterKeeps(g: Limits, s: State, t: nat, k: nat, record: Option<nat>)
    requires g.Legal() && Inv(g, s) && ThreadOf(s, t).pc.Idle? && k < CLASS_COUNT
    ensures Inv(g, Enter(s, t, k, record))
  {
    hide Sound, ChunksWithin, In;
    var next := Enter(s, t, k, record);
    var th := ThreadOf(s, t);
    assert ThreadOk(s, t);
    if th.attached.Some? {
      OwnersSame(s, next);
      AttachedFacts(g, s, t);
      StepKeeps(g, s, next, t, None);
    } else if record.Some? && record.value !in s.caches {
      assert CacheOk(g, s, record.value);
      OwnersSame(s, next);
      StepKeeps(g, s, next, t, record);
    }
  }

  lemma RegisterKeeps(g: Limits, s: State, t: nat, c: nat, k: nat)
    requires Inv(g, s) && ThreadOf(s, t).pc == Registering(k) && ThreadOf(s, t).attached == Some(c)
    ensures Inv(g, Register(s, t, c, k))
  {
    hide Sound, ChunksWithin, In;
    var next := Register(s, t, c, k);
    assert ThreadOk(s, t);
    AttachedFacts(g, s, t);
    OwnersKept(s, next);
    StepKeeps(g, s, next, t, Some(c));
  }

  // ----- allocating

  /** The thread stands in an allocation of class k with its cache attached and nothing left to drain. */
  ghost predicate Serving(g: Limits, s: State, t: nat, c: nat, k: nat) {
    && Inv(g, s) && k < CLASS_COUNT && ThreadOf(s, t).attached == Some(c)
    && (ThreadOf(s, t).pc == Allocating(k) || ThreadOf(s, t).pc == Draining(k) || ThreadOf(s, t).pc == Refilling(k))
    && In(s.m, Taken(t, k)) == []
  }

  lemma DeliverKeeps(g: Limits, s: State, m: Memory, t: nat, c: nat, k: nat)
    requires g.Legal() && Serving(g, s, t, c, k) && Sound(m) && ChunksWithin(m, g.Cap())
    requires forall r: Place :: !r.Chunk? && r != Local(c, k) && r != Spare(c, k) ==> In(m, r) == In(s.m, r)
    requires 0 < |In(m, Local(c, k))| <= g.Cap() && |In(m, Spare(c, k))| <= UINT32_MAX
    requires |In(m, Local(c, k))| + |In(m, Spare(c, k))| <= g.limit
    ensures Inv(g, Deliver(s.(m := m), t, c, k))
  {
    hide Sound, ChunksWithin, In, AtRest, Take;
    var next := Deliver(s.(m := m), t, c, k);
    assert ThreadOk(s, t);
    AttachedFacts(g, s, t);
    TakeEffect(g, m, c, k);
    DeliveredOwners(s, m, t, c, k);
    DeliveredCache(g, s, m, t, c, k);
    StepKeeps(g, s, next, t, Some(c));
  }

  lemma DeliveredOwners(s: State, m: Memory, t: nat, c: nat, k: nat)
    requires OwnersOk(s) && c in s.registered
    requires forall r: Place :: !r.Chunk? && r != Local(c, k) && r != Spare(c, k) ==> In(m, r) == In(s.m, r)
    requires In(m, Local(c, k)) != []
    ensures OwnersOk(Deliver(s.(m := m), t, c, k))
  {
    hide In, Take;
    var b := In(m, Local(c, k))[0];
    var next := Deliver(s.(m := m), t, c, k);
    assert In(next.m, Live) == [b] + In(m, Live) && forall u: nat :: In(next.m, Hand(u)) == In(m, Hand(u)) by { TakeLists(m, c, k); }
    forall p, x | Held(p) && x in In(next.m, p)
      ensures x in next.owner && next.owner[x] in next.registered
    {
      if x != b { assert x in In(s.m, p); }
    }
  }

  lemma TakeLists(m: Memory, c: nat, k: nat)
    requires In(m, Local(c, k)) != []
    ensures var next := Take(m, c, k);
            In(next, Live) == [In(m, Local(c, k))[0]] + In(m, Live) && forall u: nat :: In(next, Hand(u)) == In(m, Hand(u))
  {
    MoveAt(m, Local(c, k), 0, 1, Live);
  }

  lemma DeliveredCache(g: Limits, s: State, m: Memory, t: nat, c: nat, k: nat)
    requires g.Legal() && Serving(g, s, t, c, k) && Sound(m) && ChunksWithin(m, g.Cap())
    requires forall r: Place :: !r.Chunk? && r != Local(c, k) && r != Spare(c, k) ==> In(m, r) == In(s.m, r)
    requires 0 < |In(m, Local(c, k))| <= g.Cap() && |In(m, Spare(c, k))| <= UINT32_MAX
    requires |In(m, Local(c, k))| + |In(m, Spare(c, k))| <= g.limit
    ensures CacheOk(g, Deliver(s.(m := m), t, c, k), c)
  {
    hide Sound, ChunksWithin, In, AtRest, Take, OwnersOk;
    var next := Deliver(s.(m := m), t, c, k);
    AttachedFacts(g, s, t);
    TakeEffect(g, m, c, k);
    forall j: nat
      ensures AtRest(g, SegmentsOf(next.m, c, j))
    {
      if j != k { assert SegmentsOf(next.m, c, j) == SegmentsOf(s.m, c, j); }
    }
  }

  /** Handing out from a non-empty hot segment, or from the adopted spare. */
  lemma ServeKeeps(g: Limits, s: State, t: nat, c: nat, k: nat)
    requires g.Legal() && Serving(g, s, t, c, k)
    ensures In(s.m, Local(c, k)) != [] ==> Inv(g, Deliver(s, t, c, k))
    ensures In(s.m, Local(c, k)) == [] && In(s.m, Spare(c, k)) != [] ==>
              In(Adopt(s.m, c, k), Local(c, k)) != [] && Inv(g, Deliver(s.(m := Adopt(s.m, c, k)), t, c, k))
  {
    hide Sound, ChunksWithin, In, Adopt, Deliver;
    AttachedFacts(g, s, t);
    assert AtRest(g, SegmentsOf(s.m, c, k));
    if In(s.m, Local(c, k)) != [] {
      assert s.(m := s.m) == s;
      DeliverKeeps(g, s, s.m, t, c, k);
    } else if In(s.m, Spare(c, k)) != [] {
      AdoptEffect(g, s.m, c, k);
      DeliverKeeps(g, s, Adopt(s.m, c, k), t, c, k);
    }
  }

  /** Looking at the cache: a block is handed out, or the remote queue is taken whole. */
  lemma AllocateKeeps(g: Limits, s: State, t: nat, c: nat, k: nat)
    requires g.Legal() && Inv(g, s) && ThreadOf(s, t).pc == Allocating(k) && ThreadOf(s, t).attached == Some(c)
    ensures Inv(g, Allocate(s, t, c, k))
  {
    hide Sound, ChunksWithin, In, Adopt, Deliver, Move;
    assert ThreadOk(s, t);
    if In(s.m, Local(c, k)) != [] || In(s.m, Spare(c, k)) != [] {
      ServeKeeps(g, s, t, c, k);
    } else {
      TakeRemoteKeeps(g, s, t, c, k);
    }
  }

  lemma TakeRemoteKeeps(g: Limits, s: State, t: nat, c: nat, k: nat)
    requires g.Legal() && Inv(g, s) && ThreadOf(s, t).pc == Allocating(k) && ThreadOf(s, t).attached == Some(c)
    ensures Inv(g, With(s.(m := Move(s.m, Remote(c, k), 0, |In(s.m, Remote(c, k))|, Taken(t, k))), t, ThreadOf(s, t).(pc := Draining(k))))
  {
    hide Sound, ChunksWithin, In, AtRest, Move, Suits;
    var p, q := Remote(c, k), Taken(t, k);
    var n := |In(s.m, p)|;
    var m := Move(s.m, p, 0, n, q);
    var next := With(s.(m := m), t, ThreadOf(s, t).(pc := Draining(k)));
    assert ThreadOk(s, t);
    AttachedFacts(g, s, t);
    OfClass(s.m, p, k);
    assert In(s.m, p)[0..n] == In(s.m, p);
    forall b | b in In(s.m, p)
      ensures Suits(s.m.carved, q, b)
    {
      TakenSuits(s.m, t, k, b);
    }
    MoveSound(s.m, p, 0, n, q);
    MoveAt(s.m, p, 0, n, q);
    SameChunks(s.m, m, g.Cap());
    OwnersSame(s, next);
    assert forall j: nat :: SegmentsOf(next.m, c, j) == SegmentsOf(s.m, c, j);
    StepKeeps(g, s, next, t, Some(c));
  }

  lemma TakenSuits(m: Memory, t: nat, k: nat, b: nat)
    requires b in m.carved && m.carved[b] == k
    ensures Suits(m.carved, Taken(t, k), b)
    ensures forall c :: Suits(m.carved, Remote(c, k), b) && Suits(m.carved, Local(c, k), b)
  {
  }

  lemma DrainKeeps(g: Limits, s: State, t: nat, c: nat, k: nat)
    requires g.Legal() && Inv(g, s) && ThreadOf(s, t).pc == Draining(k) && ThreadOf(s, t).attached == Some(c) && k < |s.m.stacks|
    ensures Inv(g, Drain(g, s, t, c, k))
  {
    hide Sound, ChunksWithin, In, Adopt, Deliver, Move, Return, AtRest;
    assert ThreadOk(s, t);
    AttachedFacts(g, s, t);
    var next := Drain(g, s, t, c, k);
    if In(s.m, Taken(t, k)) != [] {
      DrainOneKeeps(g, s, t, c, k);
    } else if In(s.m, Local(c, k)) != [] || In(s.m, Spare(c, k)) != [] {
      ServeKeeps(g, s, t, c, k);
    } else {
      OwnersSame(s, next);
      StepKeeps(g, s, next, t, Some(c));
    }
  }

  lemma DrainOneKeeps(g: Limits, s: State, t: nat, c: nat, k: nat)
    requires g.Legal() && Inv(g, s) && ThreadOf(s, t).pc == Draining(k) && ThreadOf(s, t).attached == Some(c) && k < |s.m.stacks|
    requires In(s.m, Taken(t, k)) != []
    ensures Inv(g, s.(m := Return(g, s.m, Taken(t, k), c, k)))
  {
    hide Sound, ChunksWithin, In, AtRest, Return;
    var p := Taken(t, k);
    var next := s.(m := Return(g, s.m, p, c, k));
    assert ThreadOk(s, t);
    AttachedFacts(g, s, t);
    OfClass(s.m, p, k);
    ReturnEffect(g, s.m, p, c, k);
    OwnersSame(s, next);
    forall j: nat
      ensures AtRest(g, SegmentsOf(next.m, c, j))
    {
      if j != k { assert SegmentsOf(next.m, c, j) == SegmentsOf(s.m, c, j); }
    }
    StepKeeps(g, s, next, t, Some(c));
  }

  lemma RefillKeeps(g: Limits, s: State, t: nat, c: nat, k: nat, span: seq<nat>)
    requires g.Legal() && Inv(g, s) && ThreadOf(s, t).pc == Refilling(k) && ThreadOf(s, t).attached == Some(c)
    ensures k < CLASS_COUNT && SegmentsOf(s.m, c, k) == Segments([], [])
    ensures Inv(g, Refill(g, s, t, c, k, span))
  {
    hide Sound, ChunksWithin, In, AtRest, Deliver, CarveAll, FromCentral, Fresh;
    assert ThreadOk(s, t);
    AttachedFacts(g, s, t);
    var next := Refill(g, s, t, c, k, span);
    StackCount(s.m);
    if s.m.stacks[k] == [] && !(span != [] && Fresh(s.m, span)) {
      OwnersSame(s, next);
      StepKeeps(g, s, next, t, Some(c));
    } else {
      var mid := if s.m.stacks[k] == [] then CarveAll(s.m, k, span, g.ChunkLimit()) else s.m;
      CarvedEffect(g, s.m, c, k, span);
      DeliverKeeps(g, s, FromCentral(mid, k, Local(c, k)), t, c, k);
    }
  }

  // ----- freeing

  lemma ReleaseKeeps(g: Limits, s: State, t: nat, b: nat)
    requires Inv(g, s) && ThreadOf(s, t).pc.Idle?
    ensures Inv(g, Release(s, t, b))
  {
    hide Sound, ChunksWithin, In, AtRest, Move, Suits;
    assert ThreadOk(s, t);
    if b in In(s.m, Live) {
      var live := In(s.m, Live);
      var i := Position(live, b);
      var m := Move(s.m, Live, i, i + 1, Hand(t));
      var next := With(s.(m := m), t, ThreadOf(s, t).(pc := Freeing(b)));
      assert live[i..i + 1] == [b];
      SuitsOf(s.m, Live, b);
      assert Suits(s.m.carved, Hand(t), b) by { HandSuits(s.m, t, b); }
      MoveSound(s.m, Live, i, i + 1, Hand(t));
      MoveAt(s.m, Live, i, i + 1, Hand(t));
      SameChunks(s.m, m, g.Cap());
      ReleasedOwners(s, next, t, b, i);
      StepKeeps(g, s, next, t, None);
    }
  }

  lemma HandSuits(m: Memory, t: nat, b: nat)
    requires b in m.carved
    ensures Suits(m.carved, Hand(t), b)
  {
  }

  lemma ReleasedOwners(s: State, next: State, t: nat, b: nat, i: nat)
    requires OwnersOk(s) && next.owner == s.owner && next.registered == s.registered && next.exclusive == s.exclusive
    requires next.caches == s.caches && i < |In(s.m, Live)|
    requires In(next.m, Live) == In(s.m, Live)[..i] + In(s.m, Live)[i + 1..]
    requires In(next.m, Hand(t)) == [In(s.m, Live)[i]] + In(s.m, Hand(t))
    requires forall u: nat :: u != t ==> In(next.m, Hand(u)) == In(s.m, Hand(u))
    ensures OwnersOk(next)
  {
    hide In;
    forall p, x | Held(p) && x in In(next.m, p)
      ensures exists q :: Held(q) && x in In(s.m, q)
    {
      if p.Live? { assert x in In(s.m, Live); }
      else if p == Hand(t) { assert x in In(s.m, Live) || x in In(s.m, Hand(t)); }
      else { assert x in In(s.m, p); }
    }
    OwnersKept(s, next);
  }

  /**
   The exclusive-cache shortcut is sound: whenever it is taken, the calling thread's cache is
   the owner the block itself records.
   */
  lemma ShortcutSound(g: Limits, s: State, t: nat, b: nat)
    requires Inv(g, s) && ThreadOf(s, t).pc == Freeing(b)
    ensures b in s.owner && s.owner[b] in s.registered && RoutedOwner(s, t, b) == s.owner[b]
    ensures b in s.m.carved && s.m.carved[b] < CLASS_COUNT && |s.m.stacks| == CLASS_COUNT && In(s.m, Hand(t)) == [b]
  {
    hide Sound, ChunksWithin, In, AtRest, CacheOk;
    assert ThreadOk(s, t);
    assert b in In(s.m, Hand(t));
    SuitsOf(s.m, Hand(t), b);
    StackCount(s.m);
  }

  lemma RouteKeeps(g: Limits, s: State, t: nat, b: nat)
    requires g.Legal() && Inv(g, s) && ThreadOf(s, t).pc == Freeing(b)
    requires b in s.owner && b in s.m.carved && s.m.carved[b] < |s.m.stacks| && In(s.m, Hand(t)) == [b]
    ensures Inv(g, Route(g, s, t, b))
  {
    hide Sound, ChunksWithin, In, AtRest, Return;
    ShortcutSound(g, s, t, b);
    assert ThreadOk(s, t);
    var next := Route(g, s, t, b);
    var th := ThreadOf(s, t);
    var owner := s.owner[b];
    if th.attached == Some(owner) {
      RouteHome(g, s, t, b, owner, next.threads[t]);
    } else {
      if th.attached.Some? { AttachedFacts(g, s, t); }
      OwnersSame(s, next);
      StepKeeps(g, s, next, t, None);
    }
  }

  lemma RouteHome(g: Limits, s: State, t: nat, b: nat, owner: nat, th: Thread)
    requires g.Legal() && Inv(g, s) && ThreadOf(s, t).pc == Freeing(b) && ThreadOf(s, t).attached == Some(owner)
    requires b in s.m.carved && s.m.carved[b] < CLASS_COUNT && |s.m.stacks| == CLASS_COUNT && In(s.m, Hand(t)) == [b]
    requires th.attached == Some(owner) && th.pc == Idle && (th.last.Cached? ==> th.last.c == owner)
    ensures Inv(g, With(s.(m := Return(g, s.m, Hand(t), owner, s.m.carved[b])), t, th))
  {
    hide Sound, ChunksWithin, In, AtRest, Return;
    var k := s.m.carved[b];
    var next := With(s.(m := Return(g, s.m, Hand(t), owner, k)), t, th);
    assert ThreadOk(s, t);
    AttachedFacts(g, s, t);
    ReturnEffect(g, s.m, Hand(t), owner, k);
    HandEmptied(s, next, t);
    forall j: nat
      ensures AtRest(g, SegmentsOf(next.m, owner, j))
    {
      if j != k { assert SegmentsOf(next.m, owner, j) == SegmentsOf(s.m, owner, j); }
    }
    StepKeeps(g, s, next, t, Some(owner));
  }

  lemma HandEmptied(s: State, next: State, t: nat)
    requires OwnersOk(s) && next.owner == s.owner && next.registered == s.registered && next.exclusive == s.exclusive
    requires next.caches == s.caches && In(next.m, Hand(t)) == [] && In(next.m, Live) == In(s.m, Live)
    requires forall u: nat :: u != t ==> In(next.m, Hand(u)) == In(s.m, Hand(u))
    ensures OwnersOk(next)
  {
    hide In;
    OwnersKept(s, next);
  }

  lemma DepositKeeps(g: Limits, s: State, t: nat, b: nat, owner: nat)
    requires g.Legal() && Inv(g, s) && ThreadOf(s, t).pc == ToRemote(b, owner)
    ensures b in s.m.carved && owner in s.caches && In(s.m, Hand(t)) == [b]
    ensures Inv(g, Deposit(s, t, b, owner))
  {
    hide Sound, ChunksWithin, In, AtRest, Move, Suits;
    assert ThreadOk(s, t);
    assert b in In(s.m, Hand(t));
    SuitsOf(s.m, Hand(t), b);
    var next := Deposit(s, t, b, owner);
    if s.caches[owner].accepting {
      var q := Remote(owner, s.m.carved[b]);
      assert In(s.m, Hand(t))[0..1] == [b];
      TakenSuits(s.m, t, s.m.carved[b], b);
      assert Suits(s.m.carved, q, b);
      MoveSound(s.m, Hand(t), 0, 1, q);
      MoveAt(s.m, Hand(t), 0, 1, q);
      SameChunks(s.m, next.m, g.Cap());
      HandEmptied(s, next, t);
    } else {
      OwnersSame(s, next);
    }
    StepKeeps(g, s, next, t, None);
  }

  lemma BinKeeps(g: Limits, s: State, t: nat, b: nat)
    requires g.Legal() && Inv(g, s) && ThreadOf(s, t).pc == ToBin(b)
    ensures b in s.m.carved && s.m.carved[b] < |s.m.stacks| && In(s.m, Hand(t)) == [b]
    ensures Inv(g, Bin(s, t, b))
  {
    BinReady(g, s, t, b);
    hide Sound, ChunksWithin, In, AtRest, ToCentral, Inv, ThreadOk, CacheOk, OwnersOk;
    BinLists(g, s.m, t, b);
    BinThread(g, s, t, b, ToCentral(s.m, Hand(t), 1, s.m.carved[b]));
  }

  lemma BinReady(g: Limits, s: State, t: nat, b: nat)
    requires Inv(g, s) && ThreadOf(s, t).pc == ToBin(b)
    ensures b in s.m.carved && s.m.carved[b] < |s.m.stacks| && |s.m.stacks| == CLASS_COUNT && In(s.m, Hand(t)) == [b]
    ensures Sound(s.m) && ChunksWithin(s.m, g.Cap())
  {
    StackCount(s.m);
    hide Sound, ChunksWithin, In, AtRest;
    assert ThreadOk(s, t);
    assert b in In(s.m, Hand(t));
    SuitsOf(s.m, Hand(t), b);
  }

  lemma BinLists(g: Limits, m: Memory, t: nat, b: nat)
    requires g.Legal() && Sound(m) && ChunksWithin(m, g.Cap()) && In(m, Hand(t)) == [b] && |m.stacks| == CLASS_COUNT
    requires b in m.carved && m.carved[b] < CLASS_COUNT
    ensures var next := ToCentral(m, Hand(t), 1, m.carved[b]);
            && Sound(next) && ChunksWithin(next, g.Cap()) && In(next, Hand(t)) == []
            && (forall r: Place :: !r.Chunk? && r != Hand(t) ==> In(next, r) == In(m, r))
  {
    hide Sound, ChunksWithin, In, ToCentral;
    PartToCentral(m, Hand(t), 1, m.carved[b], g.Cap());
  }

  lemma BinThread(g: Limits, s: State, t: nat, b: nat, m: Memory)
    requires Inv(g, s) && ThreadOf(s, t).pc == ToBin(b) && Sound(m) && ChunksWithin(m, g.Cap()) && In(m, Hand(t)) == []
    requires forall r: Place :: !r.Chunk? && r != Hand(t) ==> In(m, r) == In(s.m, r)
    ensures Inv(g, With(s.(m := m), t, ThreadOf(s, t).(pc := Idle)))
  {
    hide Sound, ChunksWithin, In, AtRest;
    assert ThreadOk(s, t);
    var next := With(s.(m := m), t, ThreadOf(s, t).(pc := Idle));
    HandEmptied(s, next, t);
    StepKeeps(g, s, next, t, None);
  }

  // ----- detaching

  lemma UnlinkKeeps(g: Limits, s: State, t: nat)
    requires g.Legal() && Inv(g, s) && ThreadOf(s, t).pc.Idle?
    ensures Inv(g, Unlink(s, t))
  {
    hide Sound, ChunksWithin, In, AtRest, Recall;
    assert ThreadOk(s, t);
    if ThreadOf(s, t).attached.Some? {
      var c := ThreadOf(s, t).attached.value;
      var next := Unlink(s, t);
      AttachedFacts(g, s, t);
      RecallEffect(s.m, c, 0, g.Cap());
      OwnersSame(s, next);
      StepKeeps(g, s, next, t, Some(c));
    }
  }

  lemma SurrenderKeeps(g: Limits, s: State, t: nat, c: nat, k: nat)
    requires g.Legal() && Inv(g, s) && ThreadOf(s, t).pc == Detaching(c, k)
    ensures k < |s.m.stacks| && Inv(g, SurrenderClass(s, t, c, k))
  {
    StackCount(s.m);
    assert ThreadOk(s, t);
    hide Sound, ChunksWithin, In, AtRest, Surrender, ThreadOk, CacheOk, OwnersOk, OnlyChanged;
    SurrenderEffect(s.m, c, k, g.Cap());
    SurrenderStep(g, s, t, c, k, Surrender(s.m, c, k));
  }

  lemma SurrenderStep(g: Limits, s: State, t: nat, c: nat, k: nat, m: Memory)
    requires g.Legal() && Inv(g, s) && ThreadOf(s, t).pc == Detaching(c, k) && k < CLASS_COUNT
    requires Sound(m) && ChunksWithin(m, g.Cap()) && SegmentsOf(m, c, k) == Segments([], [])
    requires OnlyChanged(s.m, m, {Local(c, k), Spare(c, k)})
    ensures Inv(g, With(s.(m := m), t, ThreadOf(s, t).(pc := if k + 1 < CLASS_COUNT then Detaching(c, k + 1) else Idle)))
  {
    hide Sound, ChunksWithin, In, AtRest;
    assert ThreadOk(s, t);
    assert CacheOk(g, s, c);
    var next := With(s.(m := m), t, ThreadOf(s, t).(pc := if k + 1 < CLASS_COUNT then Detaching(c, k + 1) else Idle));
    OwnersSame(s, next);
    StepKeeps(g, s, next, t, Some(c));
  }

  lemma OtherHeapKeeps(g: Limits, s: State, t: nat)
    requires Inv(g, s) && ThreadOf(s, t).pc.Idle?
    ensures Inv(g, With(s, t, ThreadOf(s, t).(last := Foreign)))
  {
    hide Sound, ChunksWithin, In, AtRest;
    assert ThreadOk(s, t);
    var next := With(s, t, ThreadOf(s, t).(last := Foreign));
    OwnersSame(s, next);
    StepKeeps(g, s, next, t, None);
  }
}
