/** The compound moves of the heap: freeing into a cache, allocating from one, and emptying one. */
module HeapMoves {
  import opened CacheSegments
  import opened HeapPools
  import opened HeapMemory

  function SegmentsOf(m: Memory, c: nat, k: nat): Segments { Segments(In(m, Local(c, k)), In(m, Spare(c, k))) }

  /** Only chunks and the named lists changed. */
  ghost predicate OnlyChanged(m: Memory, next: Memory, changed: set<Place>) {
    && next.carved == m.carved
    && forall r :: r !in changed && !r.Chunk? ==> In(next, r) == In(m, r)
  }

  // ----- freeing into a cache

  /** The old spare segment goes to the central bin; one the counters cannot describe would be lost. */
  function GiveSpare(m: Memory, c: nat, k: nat): Memory
    requires k < |m.stacks|
  {
    var spare := In(m, Spare(c, k));
    if spare != [] && |spare| <= UINT32_MAX then ToCentral(m, Spare(c, k), |spare|, k)
    else m.(pools := m.pools[Spare(c, k) := []])
  }

  /** memx_heap_flush_excess_slow. */
  function Flush(m: Memory, c: nat, k: nat): Memory
    requires k < |m.stacks|
  {
    var given := GiveSpare(m, c, k);
    Move(given, Local(c, k), 0, |In(given, Local(c, k))|, Spare(c, k))
  }

  /** The first block of a list goes to the hot segment, which is then trimmed. */
  function Return(g: Limits, m: Memory, from: Place, c: nat, k: nat): Memory
    requires In(m, from) != [] && k < |m.stacks|
  {
    var pushed := Move(m, from, 0, 1, Local(c, k));
    if MustFlush(g, |In(pushed, Local(c, k))|, |In(pushed, Spare(c, k))|) then Flush(pushed, c, k) else pushed
  }

  lemma FlushEffect(m: Memory, c: nat, k: nat, cap: nat)
    requires Sound(m) && k < CLASS_COUNT && |In(m, Spare(c, k))| <= UINT32_MAX
    requires ChunksWithin(m, cap) && |In(m, Spare(c, k))| <= cap
    ensures var next := Flush(m, c, k);
            && Sound(next) && ChunksWithin(next, cap)
            && SegmentsOf(next, c, k) == Segments([], In(m, Local(c, k)))
            && OnlyChanged(m, next, {Local(c, k), Spare(c, k)})
  {
    StackCount(m);
    hide Sound, GiveSpare, Move, ChunksWithin, Suits, ToCentral, In;
    GiveSpareEffect(m, c, k, cap);
    var given := GiveSpare(m, c, k);
    var local := In(given, Local(c, k));
    assert local == In(m, Local(c, k));
    forall b | b in local[0..|local|]
      ensures Suits(given.carved, Spare(c, k), b)
    {
      SuitsOf(given, Local(c, k), b);
      LocalSuits(given, c, k, b);
    }
    MoveSound(given, Local(c, k), 0, |local|, Spare(c, k));
    MoveAt(given, Local(c, k), 0, |local|, Spare(c, k));
    SameChunks(given, Flush(m, c, k), cap);
  }

  lemma LocalSuits(m: Memory, c: nat, k: nat, b: nat)
    requires Suits(m.carved, Local(c, k), b)
    ensures Suits(m.carved, Spare(c, k), b)
  {
  }

  lemma SameChunks(m: Memory, next: Memory, cap: nat)
    requires ChunksWithin(m, cap) && forall h :: In(next, Chunk(h)) == In(m, Chunk(h))
    ensures ChunksWithin(next, cap)
  {
  }

  lemma StackCount(m: Memory)
    requires Sound(m)
    ensures |m.stacks| == CLASS_COUNT
  {
  }

  /** Nothing is lost: a spare segment within the budget goes to the central bin whole. */
  lemma GiveSpareEffect(m: Memory, c: nat, k: nat, cap: nat)
    requires Sound(m) && k < CLASS_COUNT && |In(m, Spare(c, k))| <= UINT32_MAX
    requires ChunksWithin(m, cap) && |In(m, Spare(c, k))| <= cap
    ensures var next := GiveSpare(m, c, k);
            && Sound(next) && ChunksWithin(next, cap)
            && In(next, Spare(c, k)) == [] && OnlyChanged(m, next, {Spare(c, k)})
  {
    StackCount(m);
    hide Sound, ChunksWithin, ToCentral;
    if In(m, Spare(c, k)) != [] {
      WholeToCentral(m, Spare(c, k), k, cap);
    } else {
      ClearedEmpty(m, Spare(c, k));
      SameChunks(m, GiveSpare(m, c, k), cap);
    }
  }

  lemma WholeToCentral(m: Memory, p: Place, k: nat, cap: nat)
    requires Sound(m) && k < CLASS_COUNT && p.Spare? && p.k == k && In(m, p) != [] && |In(m, p)| <= cap && ChunksWithin(m, cap)
    ensures |m.stacks| == CLASS_COUNT
    ensures var next := ToCentral(m, p, |In(m, p)|, k);
            Sound(next) && ChunksWithin(next, cap) && In(next, p) == [] && OnlyChanged(m, next, {p})
  {
    StackCount(m);
    hide Sound, ToCentral, In;
    OfClass(m, p, k);
    PartToCentral(m, p, |In(m, p)|, k, cap);
  }

  /** A run of at most cap blocks of one class becomes a chunk. */
  lemma PartToCentral(m: Memory, p: Place, n: nat, k: nat, cap: nat)
    requires Sound(m) && k < CLASS_COUNT && !p.Chunk? && 1 <= n <= |In(m, p)| && n <= cap && ChunksWithin(m, cap)
    requires forall b :: b in In(m, p)[..n] ==> b in m.carved && m.carved[b] == k
    ensures |m.stacks| == CLASS_COUNT
    ensures var next := ToCentral(m, p, n, k);
            Sound(next) && ChunksWithin(next, cap) && In(next, p) == In(m, p)[n..] && OnlyChanged(m, next, {p})
  {
    StackCount(m);
    hide Sound, ToCentral, In, ChunksWithin;
    ToCentralSound(m, p, n, k);
    var next, h := ToCentral(m, p, n, k), In(m, p)[0];
    forall d: nat | d != h
      ensures In(next, Chunk(d)) == In(m, Chunk(d))
    {
      assert Chunk(d) != p && Chunk(d) != Chunk(h);
    }
    OneChunkMore(m, next, h, cap);
  }

  lemma OneChunkMore(m: Memory, next: Memory, h: nat, cap: nat)
    requires ChunksWithin(m, cap) && |In(next, Chunk(h))| <= cap
    requires forall d: nat :: d != h ==> In(next, Chunk(d)) == In(m, Chunk(d))
    ensures ChunksWithin(next, cap)
  {
    hide In;
  }

  lemma ClearedEmpty(m: Memory, p: Place)
    requires Sound(m) && In(m, p) == []
    ensures var next := m.(pools := m.pools[p := []]);
            Sound(next) && forall r :: In(next, r) == In(m, r)
  {
    hide Sound;
    var next := m.(pools := m.pools[p := []]);
    assert forall r :: In(next, r) == In(m, r);
    SameLists(m, next);
  }

  lemma SameLists(m: Memory, next: Memory)
    requires Sound(m) && next.carved == m.carved && next.stacks == m.stacks && forall r :: In(next, r) == In(m, r)
    ensures Sound(next)
  {
    hide At, Suits;
    assert forall r :: At(next.pools, r) == At(m.pools, r) by { assert forall r :: In(next, r) == At(next.pools, r) && In(m, r) == At(m.pools, r); }
    forall b | b in next.carved
      ensures Present(next.pools, b)
    {
      var r :| b in At(m.pools, r);
      assert b in At(next.pools, r);
    }
    forall k, h | 0 <= k < CLASS_COUNT && h in next.stacks[k]
      ensures ChunkHead(next, k, h)
    {
      assert ChunkHead(m, k, h);
    }
  }

  lemma ReturnEffect(g: Limits, m: Memory, from: Place, c: nat, k: nat)
    requires g.Legal() && Sound(m) && In(m, from) != [] && k < CLASS_COUNT
    requires from.Hand? || from.Taken?
    requires In(m, from)[0] in m.carved && m.carved[In(m, from)[0]] == k
    requires AtRest(g, SegmentsOf(m, c, k)) && ChunksWithin(m, g.Cap())
    ensures var next := Return(g, m, from, c, k);
            && Sound(next) && ChunksWithin(next, g.Cap())
            && In(next, from) == In(m, from)[1..]
            && SegmentsOf(next, c, k) == Returned(g, SegmentsOf(m, c, k), In(m, from)[0]).kept
            && AtRest(g, SegmentsOf(next, c, k))
            && OnlyChanged(m, next, {from, Local(c, k), Spare(c, k)})
  {
    hide Sound, Flush, Move, Suits;
    var b := In(m, from)[0];
    var pushed := Move(m, from, 0, 1, Local(c, k));
    ReturnedAtRest(g, SegmentsOf(m, c, k), b);
    assert Suits(m.carved, Local(c, k), b) by { SuitsLocal(m, c, k, b); }
    MoveSound(m, from, 0, 1, Local(c, k));
    MoveAt(m, from, 0, 1, Local(c, k));
    assert In(pushed, from) == In(m, from)[1..];
    assert In(pushed, Local(c, k)) == [b] + In(m, Local(c, k));
    if MustFlush(g, |In(pushed, Local(c, k))|, |In(pushed, Spare(c, k))|) {
      FlushEffect(pushed, c, k, g.Cap());
    }
  }

  lemma SuitsLocal(m: Memory, c: nat, k: nat, b: nat)
    requires b in m.carved && m.carved[b] == k
    ensures Suits(m.carved, Local(c, k), b)
  {
  }

  // ----- allocating from a cache

  /** memx_heap_adopt_spare on an empty hot segment. */
  function Adopt(m: Memory, c: nat, k: nat): Memory {
    Move(m, Spare(c, k), 0, |In(m, Spare(c, k))|, Local(c, k))
  }

  lemma AdoptEffect(g: Limits, m: Memory, c: nat, k: nat)
    requires g.Legal() && Sound(m) && In(m, Local(c, k)) == [] && AtRest(g, SegmentsOf(m, c, k)) && ChunksWithin(m, g.Cap())
    ensures var next := Adopt(m, c, k);
            && Sound(next) && ChunksWithin(next, g.Cap())
            && SegmentsOf(next, c, k) == Segments(In(m, Spare(c, k)), [])
            && OnlyChanged(m, next, {Local(c, k), Spare(c, k)})
  {
    hide Sound, Move, Suits;
    var spare := In(m, Spare(c, k));
    forall b | b in spare
      ensures Suits(m.carved, Local(c, k), b)
    {
      SuitsOf(m, Spare(c, k), b);
      SpareSuits(m, c, k, b);
    }
    MoveSound(m, Spare(c, k), 0, |spare|, Local(c, k));
    MoveAt(m, Spare(c, k), 0, |spare|, Local(c, k));
  }

  lemma SpareSuits(m: Memory, c: nat, k: nat, b: nat)
    requires Suits(m.carved, Spare(c, k), b)
    ensures Suits(m.carved, Local(c, k), b)
  {
  }

  /** The first block of the hot segment becomes live. */
  function Take(m: Memory, c: nat, k: nat): Memory
    requires In(m, Local(c, k)) != []
  {
    Move(m, Local(c, k), 0, 1, Live)
  }

  lemma TakeEffect(g: Limits, m: Memory, c: nat, k: nat)
    requires g.Legal() && Sound(m) && ChunksWithin(m, g.Cap())
    requires 0 < |In(m, Local(c, k))| <= g.Cap() && |In(m, Spare(c, k))| <= UINT32_MAX
    requires |In(m, Local(c, k))| + |In(m, Spare(c, k))| <= g.limit
    ensures var next := Take(m, c, k); var b := In(m, Local(c, k))[0];
            && Sound(next) && ChunksWithin(next, g.Cap())
            && In(next, Live) == [b] + In(m, Live) && In(next, Local(c, k)) == In(m, Local(c, k))[1..]
            && b in m.carved && m.carved[b] == k
            && AtRest(g, SegmentsOf(next, c, k))
            && OnlyChanged(m, next, {Live, Local(c, k)})
  {
    hide Sound, Move;
    var b := In(m, Local(c, k))[0];
    SuitsOf(m, Local(c, k), b);
    MoveSound(m, Local(c, k), 0, 1, Live);
    MoveAt(m, Local(c, k), 0, 1, Live);
    TakenAtRest(g, SegmentsOf(m, c, k));
  }

  /** A refill: the top chunk of the class becomes the hot segment. */
  lemma RefillEffect(g: Limits, m: Memory, c: nat, k: nat)
    requires g.Legal() && Sound(m) && k < CLASS_COUNT && m.stacks[k] != [] && ChunksWithin(m, g.Cap())
    requires SegmentsOf(m, c, k) == Segments([], [])
    ensures var next := FromCentral(m, k, Local(c, k));
            && Sound(next) && ChunksWithin(next, g.Cap())
            && 0 < |In(next, Local(c, k))| <= g.Cap() && In(next, Spare(c, k)) == []
            && OnlyChanged(m, next, {Local(c, k)})
  {
    hide Unique, Suited, Complete, FromCentral;
    FromCentralSound(m, k, Local(c, k));
  }

  // ----- emptying lists

  /** Every block of p is pushed on q, one at a time. */
  function Unload(m: Memory, p: Place, q: Place): Memory
    requires p != q
    decreases |In(m, p)|
  {
    if In(m, p) == [] then m
    else
      MoveAt(m, p, 0, 1, q);
      Unload(Move(m, p, 0, 1, q), p, q)
  }

  lemma {:induction false} UnloadEffect(m: Memory, c: nat, k: nat, cap: nat)
    requires Sound(m) && ChunksWithin(m, cap)
    ensures var next := Unload(m, Remote(c, k), Local(c, k));
            && Sound(next) && ChunksWithin(next, cap)
            && In(next, Remote(c, k)) == []
            && OnlyChanged(m, next, {Remote(c, k), Local(c, k)})
    decreases |In(m, Remote(c, k))|
  {
    hide Sound, Move;
    var p, q := Remote(c, k), Local(c, k);
    if In(m, p) != [] {
      SuitsOf(m, p, In(m, p)[0]);
      MoveAt(m, p, 0, 1, q);
      MoveSound(m, p, 0, 1, q);
      UnloadEffect(Move(m, p, 0, 1, q), c, k, cap);
    }
  }

  /** Detaching first takes back, class by class, what other threads freed. */
  function Recall(m: Memory, c: nat, k: nat): Memory
    requires k <= CLASS_COUNT
    decreases CLASS_COUNT - k
  {
    if k == CLASS_COUNT then m else Recall(Unload(m, Remote(c, k), Local(c, k)), c, k + 1)
  }

  ghost predicate OnlyCache(m: Memory, next: Memory, c: nat) {
    && next.carved == m.carved
    && forall r: Place :: !r.Chunk? && !((r.Local? || r.Remote?) && r.c == c) ==> In(next, r) == In(m, r)
  }

  lemma {:induction false} RecallEffect(m: Memory, c: nat, k: nat, cap: nat)
    requires Sound(m) && ChunksWithin(m, cap) && k <= CLASS_COUNT
    ensures var next := Recall(m, c, k);
            && Sound(next) && ChunksWithin(next, cap) && OnlyCache(m, next, c)
            && (forall j :: k <= j < CLASS_COUNT ==> In(next, Remote(c, j)) == [])
            && (forall j: nat :: j < k ==> In(next, Remote(c, j)) == In(m, Remote(c, j)))
    decreases CLASS_COUNT - k
  {
    hide Sound, Unload, ChunksWithin, In;
    if k < CLASS_COUNT {
      UnloadEffect(m, c, k, cap);
      RecallEffect(Unload(m, Remote(c, k), Local(c, k)), c, k + 1, cap);
    }
  }

  /** Every block of p becomes a central chunk of its own. */
  function Disperse(m: Memory, p: Place, k: nat): Memory
    requires k < |m.stacks| && !p.Chunk?
    decreases |In(m, p)|
  {
    if In(m, p) == [] then m
    else
      SpliceAt(m.pools, p, 0, 1, Chunk(In(m, p)[0]));
      Disperse(ToCentral(m, p, 1, k), p, k)
  }

  lemma {:induction false} DisperseEffect(m: Memory, p: Place, k: nat, cap: nat)
    requires Sound(m) && ChunksWithin(m, cap) && cap >= 1 && k < CLASS_COUNT && !p.Chunk?
    requires forall b :: b in In(m, p) ==> b in m.carved && m.carved[b] == k
    ensures var next := Disperse(m, p, k);
            && Sound(next) && ChunksWithin(next, cap) && In(next, p) == [] && OnlyChanged(m, next, {p})
    decreases |In(m, p)|
  {
    hide Unique, Suited, Complete, ToCentral;
    if In(m, p) != [] {
      ToCentralSound(m, p, 1, k);
      DisperseEffect(ToCentral(m, p, 1, k), p, k, cap);
    }
  }

  /** Both segments of one class of a detached cache. */
  function Surrender(m: Memory, c: nat, k: nat): Memory
    requires k < |m.stacks|
  {
    DisperseStacks(m, Local(c, k), k);
    Disperse(Disperse(m, Local(c, k), k), Spare(c, k), k)
  }

  lemma {:induction false} DisperseStacks(m: Memory, p: Place, k: nat)
    requires k < |m.stacks| && !p.Chunk?
    ensures |Disperse(m, p, k).stacks| == |m.stacks|
    decreases |In(m, p)|
  {
    if In(m, p) != [] {
      SpliceAt(m.pools, p, 0, 1, Chunk(In(m, p)[0]));
      DisperseStacks(ToCentral(m, p, 1, k), p, k);
    }
  }

  lemma SurrenderEffect(m: Memory, c: nat, k: nat, cap: nat)
    requires Sound(m) && ChunksWithin(m, cap) && cap >= 1 && k < CLASS_COUNT
    ensures var next := Surrender(m, c, k);
            && Sound(next) && ChunksWithin(next, cap)
            && SegmentsOf(next, c, k) == Segments([], [])
            && OnlyChanged(m, next, {Local(c, k), Spare(c, k)})
  {
    hide Unique, Suited, Complete, Disperse;
    OfClass(m, Local(c, k), k);
    DisperseEffect(m, Local(c, k), k, cap);
    var half := Disperse(m, Local(c, k), k);
    OfClass(half, Spare(c, k), k);
    DisperseEffect(half, Spare(c, k), k, cap);
  }

  lemma OfClass(m: Memory, p: Place, k: nat)
    requires Sound(m) && (p.Local? || p.Spare? || p.Remote? || p.Taken?) && p.k == k
    ensures forall b :: b in In(m, p) ==> b in m.carved && m.carved[b] == k
  {
    hide Unique, Complete;
    forall b | b in In(m, p)
      ensures b in m.carved && m.carved[b] == k
    {
      SuitsOf(m, p, b);
    }
  }

  // ----- carving a span

  /** memx_heap_create_span_locked: the blocks of a new span in chunks of n. */
  function CarveAll(m: Memory, k: nat, blocks: seq<nat>, n: nat): Memory
    requires k < |m.stacks| && n >= 1
    decreases |blocks|
  {
    if blocks == [] then m
    else
      var size := if n < |blocks| then n else |blocks|;
      CarveAll(AddChunk(m, k, blocks[..size]), k, blocks[size..], n)
  }

  lemma {:induction false} CarveAllEffect(m: Memory, k: nat, blocks: seq<nat>, n: nat, cap: nat)
    requires Sound(m) && ChunksWithin(m, cap) && k < CLASS_COUNT && 1 <= n <= cap && Fresh(m, blocks)
    ensures var next := CarveAll(m, k, blocks, n);
            && Sound(next) && ChunksWithin(next, cap)
            && (blocks != [] || m.stacks[k] != [] ==> next.stacks[k] != [])
            && (forall r: Place :: !r.Chunk? ==> In(next, r) == In(m, r))
            && next.carved == Classed(m.carved, blocks, k)
    decreases |blocks|
  {
    StackCount(m);
    hide Sound, AddChunk, Fresh, ChunksWithin;
    if blocks != [] {
      var size := if n < |blocks| then n else |blocks|;
      CarveOne(m, k, blocks, size, cap);
      CarveAllEffect(AddChunk(m, k, blocks[..size]), k, blocks[size..], n, cap);
      ClassedJoin(m.carved, blocks, size, k);
    }
  }

  lemma ClassedJoin(carved: map<nat, nat>, blocks: seq<nat>, size: nat, k: nat)
    requires size <= |blocks|
    ensures Classed(Classed(carved, blocks[..size], k), blocks[size..], k) == Classed(carved, blocks, k)
  {
    assert blocks == blocks[..size] + blocks[size..];
  }

  lemma CarveOne(m: Memory, k: nat, blocks: seq<nat>, size: nat, cap: nat)
    requires Sound(m) && ChunksWithin(m, cap) && k < CLASS_COUNT && 1 <= size <= cap && size <= |blocks| && Fresh(m, blocks)
    ensures var next := AddChunk(m, k, blocks[..size]);
            && Sound(next) && ChunksWithin(next, cap) && next.stacks[k] != [] && |next.stacks| == |m.stacks|
            && Fresh(next, blocks[size..])
            && (forall r: Place :: !r.Chunk? ==> In(next, r) == In(m, r))
            && next.carved == Classed(m.carved, blocks[..size], k)
  {
    hide Sound, AddChunk, In, Fresh, Reverse;
    var first := blocks[..size];
    FreshSplit(m, blocks, size, k);
    AddChunkSound(m, k, first);
    ReverseClassed(m.carved, first, k);
    StackCount(m);
    StackCount(AddChunk(m, k, first));
  }

  lemma ReverseClassed(carved: map<nat, nat>, blocks: seq<nat>, k: nat)
    ensures Classed(carved, Reverse(blocks), k) == Classed(carved, blocks, k)
    ensures |Reverse(blocks)| == |blocks|
  {
  }

  /** Once the first blocks are carved, the others are still fresh. */
  lemma FreshSplit(m: Memory, blocks: seq<nat>, size: nat, k: nat)
    requires Fresh(m, blocks) && size <= |blocks|
    ensures Fresh(m, blocks[..size])
    ensures forall next: Memory :: next.carved == Classed(m.carved, blocks[..size], k) ==> Fresh(next, blocks[size..])
  {
    var first, rest := blocks[..size], blocks[size..];
    assert blocks == first + rest;
    forall b | b in rest
      ensures b !in first
    {
      var i :| 0 <= i < |rest| && rest[i] == b;
      assert blocks[size + i] == b;
    }
  }
}
