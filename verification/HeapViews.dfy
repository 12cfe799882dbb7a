/**
 What the moves of the transition system do to the chunks of a class and to the lists of a
 cache, in the terms of the linked lists: the two descriptions of the heap agree move by move.
 */
module HeapViews {
  import opened CacheSegments
  import opened HeapPools
  import opened HeapMemory
  import opened HeapMoves
  import L = HeapLists

  /** The central chunks of class k, from the top of its stack. */
  function ChunksOf(m: Memory, k: nat): seq<seq<nat>> {
    if k < |m.stacks| then seq(|m.stacks[k]|, i requires 0 <= i < |m.stacks[k]| => In(m, Chunk(m.stacks[k][i]))) else []
  }

  lemma ChunksSame(m: Memory, next: Memory, k: nat)
    requires |next.stacks| == |m.stacks| && (k < |m.stacks| ==> next.stacks[k] == m.stacks[k])
    requires k < |m.stacks| ==> forall h :: h in m.stacks[k] ==> In(next, Chunk(h)) == In(m, Chunk(h))
    ensures ChunksOf(next, k) == ChunksOf(m, k)
  {
    hide In;
  }

  lemma ChunksPushed(m: Memory, next: Memory, k: nat, h: nat)
    requires k < |m.stacks| == |next.stacks| && next.stacks[k] == [h] + m.stacks[k]
    requires forall d :: d in m.stacks[k] ==> In(next, Chunk(d)) == In(m, Chunk(d))
    ensures ChunksOf(next, k) == [In(next, Chunk(h))] + ChunksOf(m, k)
  {
    hide In;
  }

  lemma ChunksPopped(m: Memory, next: Memory, k: nat)
    requires k < |m.stacks| == |next.stacks| && m.stacks[k] != [] && next.stacks[k] == m.stacks[k][1..]
    requires forall d :: d in m.stacks[k][1..] ==> In(next, Chunk(d)) == In(m, Chunk(d))
    ensures ChunksOf(m, k) != [] && ChunksOf(m, k)[0] == In(m, Chunk(m.stacks[k][0])) && ChunksOf(next, k) == ChunksOf(m, k)[1..]
  {
    hide In;
  }

  /** The bins of all classes but k are as before. */
  ghost predicate OtherBins(m: Memory, next: Memory, k: nat) {
    |next.stacks| == |m.stacks| && forall j: nat :: j != k ==> ChunksOf(next, j) == ChunksOf(m, j)
  }

  ghost predicate SameBins(m: Memory, next: Memory) {
    |next.stacks| == |m.stacks| && forall j: nat :: ChunksOf(next, j) == ChunksOf(m, j)
  }

  lemma MoveBins(m: Memory, p: Place, i: nat, j: nat, q: Place)
    requires i <= j <= |In(m, p)| && p != q && !p.Chunk? && !q.Chunk?
    ensures SameBins(m, Move(m, p, i, j, q))
  {
    hide Move;
    MoveAt(m, p, i, j, q);
    forall k: nat
      ensures ChunksOf(Move(m, p, i, j, q), k) == ChunksOf(m, k)
    {
      ChunksSame(m, Move(m, p, i, j, q), k);
    }
  }

  /** A pushed chunk is on top; every other chunk is where it was. */
  lemma ToCentralBins(m: Memory, p: Place, n: nat, k: nat)
    requires Sound(m) && 1 <= n <= |In(m, p)| && k < CLASS_COUNT && !p.Chunk?
    requires forall b :: b in In(m, p)[..n] ==> b in m.carved && m.carved[b] == k
    ensures |m.stacks| == CLASS_COUNT
    ensures ChunksOf(ToCentral(m, p, n, k), k) == [In(m, p)[..n]] + ChunksOf(m, k) && OtherBins(m, ToCentral(m, p, n, k), k)
  {
    StackCount(m);
    hide Sound, In, ChunksOf, ToCentral;
    ToCentralSound(m, p, n, k);
    ToCentralStacks(m, p, n, k);
    assert In(m, p)[0] in In(m, p);
    NoChunkYet(m, p, In(m, p)[0]);
    PushedBins(m, ToCentral(m, p, n, k), p, k, In(m, p)[0]);
  }

  lemma ToCentralStacks(m: Memory, p: Place, n: nat, k: nat)
    requires 1 <= n <= |In(m, p)| && k < |m.stacks|
    ensures ToCentral(m, p, n, k).stacks == m.stacks[k := [In(m, p)[0]] + m.stacks[k]]
  {
  }

  lemma PushedBins(m: Memory, next: Memory, p: Place, k: nat, h: nat)
    requires k < |m.stacks| && next.stacks == m.stacks[k := [h] + m.stacks[k]] && !p.Chunk?
    requires forall j :: 0 <= j < |m.stacks| ==> h !in m.stacks[j]
    requires forall r :: r != p && r != Chunk(h) ==> In(next, r) == In(m, r)
    ensures ChunksOf(next, k) == [In(next, Chunk(h))] + ChunksOf(m, k) && OtherBins(m, next, k)
  {
    hide In, ChunksOf;
    ChunksPushed(m, next, k, h);
    forall j: nat | j != k
      ensures ChunksOf(next, j) == ChunksOf(m, j)
    {
      ChunksSame(m, next, j);
    }
  }

  lemma FromCentralBins(m: Memory, k: nat, q: Place)
    requires Sound(m) && k < CLASS_COUNT && !q.Chunk?
    requires |m.stacks| == CLASS_COUNT && m.stacks[k] != []
    requires forall b :: b in m.carved && m.carved[b] == k ==> Suits(m.carved, q, b)
    ensures ChunksOf(m, k) != [] && In(FromCentral(m, k, q), q) == ChunksOf(m, k)[0] + In(m, q)
    ensures ChunksOf(FromCentral(m, k, q), k) == ChunksOf(m, k)[1..] && OtherBins(m, FromCentral(m, k, q), k)
  {
    hide Sound, In, Suits, ChunksOf;
    FromCentralSound(m, k, q);
    var next, h := FromCentral(m, k, q), m.stacks[k][0];
    OnceOnTop(m, k);
    ChunksPopped(m, next, k);
    forall j: nat | j != k
      ensures ChunksOf(next, j) == ChunksOf(m, j)
    {
      ChunksSame(m, next, j);
    }
  }

  /** The top chunk of a class is on no other stack, and on its own once. */
  lemma OnceOnTop(m: Memory, k: nat)
    requires Sound(m) && k < |m.stacks| == CLASS_COUNT && m.stacks[k] != []
    ensures m.stacks[k][0] !in m.stacks[k][1..]
    ensures forall j :: 0 <= j < CLASS_COUNT && j != k ==> m.stacks[k][0] !in m.stacks[j]
  {
    hide Unique, Suited, Complete;
    var h := m.stacks[k][0];
    FirstOnce(m.stacks[k]);
    assert h in m.stacks[k] && ChunkHead(m, k, h);
    forall j | 0 <= j < CLASS_COUNT && j != k
      ensures h !in m.stacks[j]
    {
      assert h in m.stacks[j] ==> ChunkHead(m, j, h);
    }
  }

  lemma AddChunkBins(m: Memory, k: nat, blocks: seq<nat>)
    requires Sound(m) && k < CLASS_COUNT && blocks != [] && Fresh(m, blocks)
    ensures |m.stacks| == CLASS_COUNT
    ensures ChunksOf(AddChunk(m, k, blocks), k) == [Reverse(blocks)] + ChunksOf(m, k) && OtherBins(m, AddChunk(m, k, blocks), k)
  {
    StackCount(m);
    hide Sound, In, Reverse, ChunksOf, AddChunk, Fresh, Classed;
    AddChunkAt(m, k, blocks);
    AddChunkSound(m, k, blocks);
    HeadsPresent(m);
    PushedBins(m, AddChunk(m, k, blocks), Live, k, Reverse(blocks)[0]);
  }

  lemma HeadsPresent(m: Memory)
    requires Sound(m)
    ensures forall j, h :: 0 <= j < |m.stacks| && h in m.stacks[j] ==> In(m, Chunk(h)) != []
  {
    hide Unique, Suited, Complete, In;
    forall j, h | 0 <= j < |m.stacks| && h in m.stacks[j]
      ensures In(m, Chunk(h)) != []
    {
      assert ChunkHead(m, j, h);
    }
  }

  // ----- compound moves

  /** A block returned to a cache: the flushed segment, if any, is on top of the bin. */
  lemma ReturnView(g: Limits, m: Memory, from: Place, c: nat, k: nat)
    requires g.Legal() && Sound(m) && In(m, from) != [] && k < CLASS_COUNT && (from.Hand? || from.Taken?)
    requires In(m, from)[0] in m.carved && m.carved[In(m, from)[0]] == k
    requires AtRest(g, SegmentsOf(m, c, k))
    ensures |m.stacks| == CLASS_COUNT
    ensures var r := Returned(g, SegmentsOf(m, c, k), In(m, from)[0]); var next := Return(g, m, from, c, k);
            ChunksOf(next, k) == L.Given(r.flushed, ChunksOf(m, k)) && OtherBins(m, next, k)
  {
    StackCount(m);
    RestWithin(g, SegmentsOf(m, c, k));
    WhatIsFlushed(g, SegmentsOf(m, c, k), In(m, from)[0]);
    hide Sound, Flush, Move, Suits, ChunksOf, AtRest, Returned, MustFlush, L.Given;
    var b := In(m, from)[0];
    var pushed := Move(m, from, 0, 1, Local(c, k));
    MoveAt(m, from, 0, 1, Local(c, k));
    MoveBins(m, from, 0, 1, Local(c, k));
    SuitsLocal(m, c, k, b);
    MoveSound(m, from, 0, 1, Local(c, k));
    GivenNothing(ChunksOf(m, k));
    if MustFlush(g, |In(pushed, Local(c, k))|, |In(pushed, Spare(c, k))|) { FlushBins(pushed, c, k); }
  }

  lemma WhatIsFlushed(g: Limits, s: Segments, b: nat)
    ensures Returned(g, s, b).flushed == if MustFlush(g, |s.local| + 1, |s.spare|) then s.spare else []
  {
  }

  lemma GivenNothing(chunks: seq<seq<nat>>)
    ensures L.Given([], chunks) == chunks
  {
  }

  lemma RestWithin(g: Limits, s: Segments)
    requires AtRest(g, s)
    ensures |s.spare| <= UINT32_MAX
  {
  }

  lemma FlushBins(m: Memory, c: nat, k: nat)
    requires Sound(m) && k < CLASS_COUNT && |In(m, Spare(c, k))| <= UINT32_MAX
    ensures |m.stacks| == CLASS_COUNT
    ensures ChunksOf(Flush(m, c, k), k) == L.Given(In(m, Spare(c, k)), ChunksOf(m, k)) && OtherBins(m, Flush(m, c, k), k)
  {
    StackCount(m);
    hide Sound, Move, In, ChunksOf, GiveSpare, L.Given;
    GiveSpareBins(m, c, k);
    var given := GiveSpare(m, c, k);
    MoveBins(given, Local(c, k), 0, |In(given, Local(c, k))|, Spare(c, k));
  }

  lemma GiveSpareBins(m: Memory, c: nat, k: nat)
    requires Sound(m) && k < CLASS_COUNT && |In(m, Spare(c, k))| <= UINT32_MAX && |m.stacks| == CLASS_COUNT
    ensures ChunksOf(GiveSpare(m, c, k), k) == L.Given(In(m, Spare(c, k)), ChunksOf(m, k)) && OtherBins(m, GiveSpare(m, c, k), k)
  {
    hide Sound, In, ChunksOf, ToCentral;
    var spare := In(m, Spare(c, k));
    OfClass(m, Spare(c, k), k);
    if spare != [] {
      ToCentralBins(m, Spare(c, k), |spare|, k);
      assert spare[..|spare|] == spare;
    } else {
      ClearedEmpty(m, Spare(c, k));
      var next := GiveSpare(m, c, k);
      forall j: nat
        ensures ChunksOf(next, j) == ChunksOf(m, j)
      {
        ChunksSame(m, next, j);
      }
    }
  }

  ghost predicate AllOf(m: Memory, p: Place, k: nat) { forall b :: b in In(m, p) ==> b in m.carved && m.carved[b] == k }

  lemma DisperseOne(m: Memory, p: Place, k: nat)
    requires Sound(m) && k < CLASS_COUNT && !p.Chunk? && AllOf(m, p, k) && In(m, p) != []
    ensures |m.stacks| == CLASS_COUNT
    ensures var next := ToCentral(m, p, 1, k);
            && Sound(next) && AllOf(next, p, k) && In(next, p) == In(m, p)[1..]
            && ChunksOf(next, k) == [[In(m, p)[0]]] + ChunksOf(m, k) && OtherBins(m, next, k)
  {
    StackCount(m);
    hide Sound, ToCentral, In, ChunksOf, OtherBins;
    ToCentralSound(m, p, 1, k);
    ToCentralBins(m, p, 1, k);
    assert In(m, p)[..1] == [In(m, p)[0]];
  }

  lemma OtherBinsTwice(m: Memory, mid: Memory, next: Memory, k: nat)
    requires OtherBins(m, mid, k) && OtherBins(mid, next, k)
    ensures OtherBins(m, next, k)
  {
    hide ChunksOf;
  }

  lemma {:induction false} DisperseBins(m: Memory, p: Place, k: nat)
    requires Sound(m) && k < CLASS_COUNT && !p.Chunk? && AllOf(m, p, k)
    ensures |m.stacks| == CLASS_COUNT
    ensures ChunksOf(Disperse(m, p, k), k) == L.Singles(In(m, p), ChunksOf(m, k)) && OtherBins(m, Disperse(m, p, k), k)
    decreases |In(m, p)|
  {
    StackCount(m);
    SinglesStep(In(m, p), ChunksOf(m, k));
    if In(m, p) == [] {
      assert Disperse(m, p, k) == m;
    } else {
      hide Sound, ToCentral, In, ChunksOf, L.Singles, OtherBins, AllOf;
      DisperseOne(m, p, k);
      var next := ToCentral(m, p, 1, k);
      DisperseBins(next, p, k);
      OtherBinsTwice(m, next, Disperse(next, p, k), k);
    }
  }

  lemma SinglesStep(s: seq<nat>, chunks: seq<seq<nat>>)
    ensures L.Singles(s, chunks) == if s == [] then chunks else L.Singles(s[1..], [[s[0]]] + chunks)
  {
  }

  /** A surrendered class: first the hot segment, then the spare, one chunk per block. */
  lemma SurrenderView(m: Memory, c: nat, k: nat, cap: nat)
    requires Sound(m) && ChunksWithin(m, cap) && cap >= 1 && k < CLASS_COUNT
    ensures |m.stacks| == CLASS_COUNT
    ensures var next := Surrender(m, c, k);
            && ChunksOf(next, k) == L.Singles(In(m, Spare(c, k)), L.Singles(In(m, Local(c, k)), ChunksOf(m, k)))
            && OtherBins(m, next, k)
  {
    StackCount(m);
    hide Sound, Disperse, ChunksWithin, ChunksOf, OtherBins, AllOf, L.Singles, In;
    ClassList(m, Local(c, k), k);
    DisperseLocal(m, c, k, cap);
    DisperseBins(m, Local(c, k), k);
    var half := Disperse(m, Local(c, k), k);
    ClassList(half, Spare(c, k), k);
    DisperseBins(half, Spare(c, k), k);
    OtherBinsTwice(m, half, Surrender(m, c, k), k);
  }

  lemma ClassList(m: Memory, p: Place, k: nat)
    requires Sound(m) && (p.Local? || p.Spare?) && p.k == k
    ensures AllOf(m, p, k)
  {
    OfClass(m, p, k);
  }

  lemma DisperseLocal(m: Memory, c: nat, k: nat, cap: nat)
    requires Sound(m) && ChunksWithin(m, cap) && cap >= 1 && k < CLASS_COUNT
    ensures |m.stacks| == CLASS_COUNT && Sound(Disperse(m, Local(c, k), k))
    ensures |Disperse(m, Local(c, k), k).stacks| == CLASS_COUNT
    ensures In(Disperse(m, Local(c, k), k), Spare(c, k)) == In(m, Spare(c, k))
  {
    StackCount(m);
    hide Sound, Disperse, ChunksWithin, In;
    OfClass(m, Local(c, k), k);
    DisperseEffect(m, Local(c, k), k, cap);
    StackCount(Disperse(m, Local(c, k), k));
  }

  /** The recalled queue of a class enters the hot segment from its head on. */
  lemma {:induction false} UnloadView(m: Memory, c: nat, k: nat)
    ensures var next := Unload(m, Remote(c, k), Local(c, k));
            && In(next, Local(c, k)) == Reverse(In(m, Remote(c, k))) + In(m, Local(c, k)) && SameBins(m, next)
    decreases |In(m, Remote(c, k))|
  {
    hide Move;
    var p, q := Remote(c, k), Local(c, k);
    if In(m, p) == [] {
      assert Reverse(In(m, p)) + In(m, q) == In(m, q);
    } else {
      MoveAt(m, p, 0, 1, q);
      assert In(Move(m, p, 0, 1, q), p) == In(m, p)[1..] && In(Move(m, p, 0, 1, q), q) == [In(m, p)[0]] + In(m, q);
      MoveBins(m, p, 0, 1, q);
      L.ReverseHead(In(m, p), In(m, q));
      UnloadView(Move(m, p, 0, 1, q), c, k);
    }
  }

  /** A carved span: reversed chunks, the last on top. */
  lemma {:induction false} CarveAllBins(m: Memory, k: nat, blocks: seq<nat>, n: nat, cap: nat)
    requires Sound(m) && ChunksWithin(m, cap) && k < CLASS_COUNT && 1 <= n <= cap && Fresh(m, blocks)
    ensures |m.stacks| == CLASS_COUNT
    ensures var next := CarveAll(m, k, blocks, n);
            |next.stacks| == CLASS_COUNT && ChunksOf(next, k) == L.CarvedChunks(blocks, n, ChunksOf(m, k)) && OtherBins(m, next, k)
    decreases |blocks|
  {
    StackCount(m);
    hide Sound, AddChunk, Fresh, ChunksWithin, Reverse, In;
    if blocks != [] {
      var size := if n < |blocks| then n else |blocks|;
      FreshSplit(m, blocks, size, k);
      AddChunkBins(m, k, blocks[..size]);
      CarveOne(m, k, blocks, size, cap);
      CarveAllBins(AddChunk(m, k, blocks[..size]), k, blocks[size..], n, cap);
    }
  }
}
