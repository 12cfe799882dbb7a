/** What a step of one thread leaves alone: the other threads, and the caches it does not work with. */
module HeapFrame {
  import opened CacheSegments
  import opened HeapPools
  import opened HeapMemory
  import opened HeapMoves
  import opened HeapSteps

  /** The lists a thread may change while it works with one cache, if any. */
  predicate Mine(r: Place, t: nat, own: Option<nat>) {
    || r.Live? || r == Hand(t) || (r.Taken? && r.t == t)
    || ((r.Local? || r.Spare? || r.Remote?) && Some(r.c) == own)
  }

  /** A step of thread t that works with one cache of its own, or with none. */
  ghost predicate StepOf(s: State, next: State, t: nat, own: Option<nat>) {
    && (forall u: nat :: u != t ==> ThreadOf(next, u) == ThreadOf(s, u))
    && (forall d: nat :: Some(d) != own ==> (d in next.caches <==> d in s.caches) && (d in s.caches ==> next.caches[d] == s.caches[d]))
    && (own.Some? && own.value in s.caches ==> s.caches[own.value].thread == t)
    && s.registered <= next.registered
    && (forall d: nat :: d in next.registered ==> d in s.registered || own == Some(d))
    && (ThreadOf(s, t).attached == ThreadOf(next, t).attached || ThreadOf(s, t).attached in {None, own})
    && (ThreadOf(s, t).pc.Detaching? ==> own == Some(ThreadOf(s, t).pc.c))
  }

  /** A remote queue that accepts blocks is open to every thread. */
  ghost predicate ListsOf(s: State, next: Memory, t: nat, own: Option<nat>) {
    forall r: Place :: !r.Chunk? && !Mine(r, t, own) && !(r.Remote? && r.c in s.caches && s.caches[r.c].accepting)
      ==> In(next, r) == In(s.m, r)
  }

  /** Other threads still stand where their positions say. */
  lemma OthersStand(g: Limits, s: State, next: State, t: nat, own: Option<nat>, u: nat)
    requires Inv(g, s) && StepOf(s, next, t, own) && u != t
    requires In(next.m, Hand(u)) == In(s.m, Hand(u)) && forall j :: In(next.m, Taken(u, j)) == In(s.m, Taken(u, j))
    requires forall d: nat, k: nat :: Some(d) != own ==> SegmentsOf(next.m, d, k) == SegmentsOf(s.m, d, k)
    ensures ThreadOk(next, u)
  {
    hide Sound, ChunksWithin, CacheOk, OwnersOk, In;
    assert ThreadOk(s, u);
  }

  /** Other caches keep their budgets and their emptiness. */
  lemma OtherCaches(g: Limits, s: State, next: State, t: nat, own: Option<nat>, d: nat)
    requires Inv(g, s) && StepOf(s, next, t, own) && Some(d) != own
    requires forall k :: SegmentsOf(next.m, d, k) == SegmentsOf(s.m, d, k)
    requires (d in s.caches && s.caches[d].accepting) || forall k :: In(next.m, Remote(d, k)) == In(s.m, Remote(d, k))
    ensures CacheOk(g, next, d)
  {
    hide Sound, ChunksWithin, ThreadOk, OwnersOk, In, AtRest;
    assert CacheOk(g, s, d);
  }

  /** A step that keeps to its own lists keeps the invariant if it keeps its own share of it. */
  lemma StepKeeps(g: Limits, s: State, next: State, t: nat, own: Option<nat>)
    requires Inv(g, s) && StepOf(s, next, t, own) && ListsOf(s, next.m, t, own)
    requires Sound(next.m) && ChunksWithin(next.m, g.Cap()) && ThreadOk(next, t) && OwnersOk(next)
    requires own.Some? ==> CacheOk(g, next, own.value)
    ensures Inv(g, next)
  {
    hide Sound, ChunksWithin, ThreadOk, OwnersOk, In, AtRest, CacheOk, StepOf, Inv;
    forall u: nat
      ensures ThreadOk(next, u)
    {
      if u != t { OthersStand(g, s, next, t, own, u); }
    }
    forall d: nat
      ensures CacheOk(g, next, d)
    {
      if Some(d) != own { OtherCaches(g, s, next, t, own, d); }
    }
    Assemble(g, next);
  }

  lemma Assemble(g: Limits, s: State)
    requires Sound(s.m) && ChunksWithin(s.m, g.Cap()) && OwnersOk(s)
    requires (forall t :: ThreadOk(s, t)) && forall c :: CacheOk(g, s, c)
    ensures Inv(g, s)
  {
    hide Sound, ChunksWithin, ThreadOk, OwnersOk, CacheOk;
  }

  /** What the invariant says about one thread and the cache it is attached to. */
  lemma AttachedFacts(g: Limits, s: State, t: nat)
    requires Inv(g, s) && ThreadOf(s, t).attached.Some?
    ensures var c := ThreadOf(s, t).attached.value;
            && c in s.caches && s.caches[c] == CacheInfo(t, true)
            && (ThreadOf(s, t).pc.Registering? || c in s.registered)
            && forall k :: AtRest(g, SegmentsOf(s.m, c, k))
  {
    hide Sound, ChunksWithin, OwnersOk, AtRest, In;
    assert ThreadOk(s, t);
    assert CacheOk(g, s, ThreadOf(s, t).attached.value);
  }
}
