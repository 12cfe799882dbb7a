/**
 The block lists of one heap together with the stacks of central chunks, and the elementary
 moves the heap makes under a class lock or on lists private to a thread.
 */
module HeapMemory {
  import opened CacheSegments
  import opened HeapPools

  /** stacks[k] lists the head blocks of the central chunks of class k; carved gives every block its class. */
  datatype Memory = Memory(pools: Pools, stacks: seq<seq<nat>>, carved: map<nat, nat>)

  function In(m: Memory, p: Place): seq<nat> { At(m.pools, p) }

  ghost predicate Stacked(m: Memory) {
    && |m.stacks| == CLASS_COUNT
    && (forall b :: b in m.carved ==> m.carved[b] < CLASS_COUNT)
    && (forall h :: In(m, Chunk(h)) != [] ==> h in m.carved && h in m.stacks[m.carved[h]])
    && (forall k, h :: 0 <= k < CLASS_COUNT && h in m.stacks[k] ==> ChunkHead(m, k, h))
    && (forall k :: 0 <= k < CLASS_COUNT ==> NoRepeat(m.stacks[k]))
  }

  /** h names a chunk of class k: its blocks start with h itself. */
  ghost predicate ChunkHead(m: Memory, k: nat, h: nat) {
    h in m.carved && m.carved[h] == k && In(m, Chunk(h)) != [] && In(m, Chunk(h))[0] == h
  }

  ghost predicate Sound(m: Memory) {
    Unique(m.pools) && Suited(m.pools, m.carved) && Complete(m.pools, m.carved) && Stacked(m)
  }

  ghost predicate ChunksWithin(m: Memory, cap: nat) { forall h :: |In(m, Chunk(h))| <= cap }

  // ----- moves between lists

  function Move(m: Memory, p: Place, i: nat, j: nat, q: Place): Memory
    requires i <= j <= |In(m, p)|
  {
    m.(pools := Splice(m.pools, p, i, j, q))
  }

  lemma MoveAt(m: Memory, p: Place, i: nat, j: nat, q: Place)
    requires i <= j <= |In(m, p)| && p != q
    ensures var next := Move(m, p, i, j, q);
            && In(next, p) == In(m, p)[..i] + In(m, p)[j..]
            && In(next, q) == In(m, p)[i..j] + In(m, q)
            && (forall r :: r != p && r != q ==> In(next, r) == In(m, r))
            && next.carved == m.carved && next.stacks == m.stacks
  {
    SpliceAt(m.pools, p, i, j, q);
  }

  lemma MoveSound(m: Memory, p: Place, i: nat, j: nat, q: Place)
    requires Sound(m) && i <= j <= |In(m, p)| && p != q && !p.Chunk? && !q.Chunk?
    requires forall b :: b in In(m, p)[i..j] ==> Suits(m.carved, q, b)
    ensures Sound(Move(m, p, i, j, q))
  {
    hide Unique, Suited, Complete, Suits, Splice;
    SpliceKeeps(m.pools, p, i, j, q, m.carved);
    MoveAt(m, p, i, j, q);
    var next := Move(m, p, i, j, q);
    assert forall h :: In(next, Chunk(h)) == In(m, Chunk(h));
  }

  /** Blocks of one class stay in lists of that class. */
  lemma SuitsOf(m: Memory, p: Place, b: nat)
    requires Sound(m) && b in In(m, p)
    ensures b in m.carved && Suits(m.carved, p, b) && m.carved[b] < CLASS_COUNT
  {
    hide Unique, Complete;
  }

  // ----- central chunks

  /** memx_heap_push_central_chunk_locked: the first n blocks of p become the top chunk of class k. */
  function ToCentral(m: Memory, p: Place, n: nat, k: nat): Memory
    requires 1 <= n <= |In(m, p)| && k < |m.stacks|
  {
    var h := In(m, p)[0];
    Memory(Splice(m.pools, p, 0, n, Chunk(h)), m.stacks[k := [h] + m.stacks[k]], m.carved)
  }

  lemma ToCentralSound(m: Memory, p: Place, n: nat, k: nat)
    requires Sound(m) && 1 <= n <= |In(m, p)| && k < CLASS_COUNT && !p.Chunk?
    requires forall b :: b in In(m, p)[..n] ==> b in m.carved && m.carved[b] == k
    ensures var next := ToCentral(m, p, n, k); var h := In(m, p)[0];
            && Sound(next)
            && In(next, p) == In(m, p)[n..] && In(next, Chunk(h)) == In(m, p)[..n] && In(m, Chunk(h)) == []
            && (forall r :: r != p && r != Chunk(h) ==> In(next, r) == In(m, r))
            && next.carved == m.carved
  {
    hide Unique, Suited, Complete, Splice;
    var h := In(m, p)[0];
    assert h in In(m, p)[..n];
    NoChunkYet(m, p, h);
    assert In(m, p)[0..n] == In(m, p)[..n];
    SpliceKeeps(m.pools, p, 0, n, Chunk(h), m.carved);
    SpliceAt(m.pools, p, 0, n, Chunk(h));
    var next := ToCentral(m, p, n, k);
    assert In(next, Chunk(h)) == In(m, p)[..n];
    StackPushed(m, next, p, k, h);
  }

  lemma NoChunkYet(m: Memory, p: Place, h: nat)
    requires Sound(m) && !p.Chunk? && h in In(m, p)
    ensures In(m, Chunk(h)) == []
    ensures forall k :: 0 <= k < CLASS_COUNT ==> h !in m.stacks[k]
  {
    hide Suited, Complete;
    assert h in At(m.pools, p) && p != Chunk(h);
    ChunkHolds(m, h);
    forall k | 0 <= k < CLASS_COUNT
      ensures h !in m.stacks[k]
    {
      assert h in m.stacks[k] ==> ChunkHead(m, k, h);
    }
  }

  lemma ChunkHolds(m: Memory, h: nat)
    requires Stacked(m)
    ensures In(m, Chunk(h)) != [] ==> h in In(m, Chunk(h))
  {
    if In(m, Chunk(h)) != [] {
      assert ChunkHead(m, m.carved[h], h);
    }
  }

  lemma StackPushed(m: Memory, next: Memory, p: Place, k: nat, h: nat)
    requires Stacked(m) && k < CLASS_COUNT && !p.Chunk? && next.carved == m.carved
    requires next.stacks == m.stacks[k := [h] + m.stacks[k]]
    requires h in m.carved && m.carved[h] == k && In(m, Chunk(h)) == []
    requires In(next, Chunk(h)) != [] && In(next, Chunk(h))[0] == h
    requires forall r :: r != p && r != Chunk(h) ==> In(next, r) == In(m, r)
    ensures Stacked(next)
  {
    hide In;
    assert forall g :: g != h ==> In(next, Chunk(g)) == In(m, Chunk(g));
    assert h in m.stacks[k] ==> ChunkHead(m, k, h);
    JoinNoRepeat([h], m.stacks[k]);
    forall j, g | 0 <= j < CLASS_COUNT && g in next.stacks[j]
      ensures ChunkHead(next, j, g)
    {
      if g == h {
        assert h in m.stacks[j] ==> ChunkHead(m, j, h);
      } else {
        assert g in m.stacks[j];
        assert ChunkHead(m, j, g);
      }
    }
    forall g | In(next, Chunk(g)) != []
      ensures g in next.carved && g in next.stacks[next.carved[g]]
    {
      if g != h {
        assert In(m, Chunk(g)) != [];
        assert g in m.stacks[m.carved[g]];
      }
    }
  }

  /** A refill takes the top chunk of class k whole. */
  function FromCentral(m: Memory, k: nat, q: Place): Memory
    requires k < |m.stacks| && m.stacks[k] != []
  {
    var h := m.stacks[k][0];
    Memory(Splice(m.pools, Chunk(h), 0, |In(m, Chunk(h))|, q), m.stacks[k := m.stacks[k][1..]], m.carved)
  }

  lemma FromCentralSound(m: Memory, k: nat, q: Place)
    requires Sound(m) && k < CLASS_COUNT && m.stacks[k] != [] && !q.Chunk?
    requires forall b :: b in m.carved && m.carved[b] == k ==> Suits(m.carved, q, b)
    ensures var next := FromCentral(m, k, q); var h := m.stacks[k][0];
            && Sound(next)
            && In(next, Chunk(h)) == [] && In(next, q) == In(m, Chunk(h)) + In(m, q) && In(m, Chunk(h)) != []
            && (forall r :: r != q && r != Chunk(h) ==> In(next, r) == In(m, r))
            && next.carved == m.carved
  {
    hide Unique, Complete, Splice;
    var h := m.stacks[k][0];
    assert h in m.stacks[k];
    assert ChunkHead(m, k, h);
    var blocks := In(m, Chunk(h));
    assert blocks[0..|blocks|] == blocks;
    forall b | b in blocks
      ensures Suits(m.carved, q, b)
    {
      SuitsOf(m, Chunk(h), b);
    }
    SpliceKeeps(m.pools, Chunk(h), 0, |blocks|, q, m.carved);
    SpliceAt(m.pools, Chunk(h), 0, |blocks|, q);
    StackPopped(m, FromCentral(m, k, q), q, k, h);
  }

  lemma StackPopped(m: Memory, next: Memory, q: Place, k: nat, h: nat)
    requires Stacked(m) && k < CLASS_COUNT && !q.Chunk? && next.carved == m.carved
    requires m.stacks[k] != [] && m.stacks[k][0] == h && next.stacks == m.stacks[k := m.stacks[k][1..]]
    requires In(next, Chunk(h)) == []
    requires forall r :: r != q && r != Chunk(h) ==> In(next, r) == In(m, r)
    ensures Stacked(next)
  {
    hide In;
    assert forall g :: g != h ==> In(next, Chunk(g)) == In(m, Chunk(g));
    assert ChunkHead(m, k, h) by { assert h in m.stacks[k]; }
    FirstOnce(m.stacks[k]);
    forall j, g | 0 <= j < CLASS_COUNT && g in next.stacks[j]
      ensures ChunkHead(next, j, g)
    {
      assert g in m.stacks[j];
      assert ChunkHead(m, j, g);
    }
    forall g | In(next, Chunk(g)) != []
      ensures g in next.carved && g in next.stacks[next.carved[g]]
    {
      assert In(m, Chunk(g)) != [];
      assert g in m.stacks[m.carved[g]];
      if m.carved[g] == k { assert m.stacks[k] == [h] + m.stacks[k][1..]; }
    }
    forall j | 0 <= j < CLASS_COUNT
      ensures NoRepeat(next.stacks[j])
    {
      assert NoRepeat(m.stacks[j]);
    }
  }

  lemma FirstOnce(s: seq<nat>)
    requires NoRepeat(s) && s != []
    ensures s[0] !in s[1..]
  {
  }

  // ----- fresh spans

  lemma {:induction false} ReverseNoRepeat(s: seq<nat>)
    requires NoRepeat(s)
    ensures NoRepeat(Reverse(s))
  {
    if s != [] {
      ReverseNoRepeat(s[1..]);
      assert s[0] !in s[1..];
      JoinNoRepeat(Reverse(s[1..]), [s[0]]);
    }
  }

  /** Fresh blocks join a size class. */
  function Classed(carved: map<nat, nat>, blocks: seq<nat>, k: nat): map<nat, nat> { carved + map b | b in blocks :: k }

  function AddChunk(m: Memory, k: nat, blocks: seq<nat>): Memory
    requires blocks != [] && k < |m.stacks|
  {
    var chain := Reverse(blocks);
    Memory(m.pools[Chunk(chain[0]) := chain], m.stacks[k := [chain[0]] + m.stacks[k]], Classed(m.carved, chain, k))
  }

  /** Blocks the heap has never seen. */
  ghost predicate Fresh(m: Memory, blocks: seq<nat>) { NoRepeat(blocks) && 0 !in blocks && forall b :: b in blocks ==> b !in m.carved }

  lemma AddChunkSound(m: Memory, k: nat, blocks: seq<nat>)
    requires Sound(m) && k < CLASS_COUNT && blocks != [] && Fresh(m, blocks)
    ensures var next := AddChunk(m, k, blocks); var h := Reverse(blocks)[0];
            && Sound(next)
            && In(next, Chunk(h)) == Reverse(blocks) && In(m, Chunk(h)) == []
            && (forall r :: r != Chunk(h) ==> In(next, r) == In(m, r))
            && next.stacks[k] != []
            && next.carved == Classed(m.carved, Reverse(blocks), k)
  {
    hide Unique, Suited, Complete, Stacked, NoRepeat, Reverse, In, AddChunk;
    assert NoRepeat(Reverse(blocks)) by { ReverseNoRepeat(blocks); }
    assert |m.stacks| == CLASS_COUNT by { StackNumber(m); }
    FreshPools(m, k, blocks);
    AddChunkAt(m, k, blocks);
    StackPushedFresh(m, AddChunk(m, k, blocks), k, Reverse(blocks));
  }

  lemma StackNumber(m: Memory)
    requires Stacked(m)
    ensures |m.stacks| == CLASS_COUNT
  {
  }

  lemma AddChunkAt(m: Memory, k: nat, blocks: seq<nat>)
    requires k < |m.stacks| && blocks != []
    ensures var next := AddChunk(m, k, blocks); var chain := Reverse(blocks);
            && In(next, Chunk(chain[0])) == chain && (forall r :: r != Chunk(chain[0]) ==> In(next, r) == In(m, r))
            && next.stacks == m.stacks[k := [chain[0]] + m.stacks[k]]
            && next.carved == Classed(m.carved, chain, k)
            && next.stacks[k] != []
  {
    hide Reverse;
  }

  lemma FreshPools(m: Memory, k: nat, blocks: seq<nat>)
    requires Sound(m) && k < CLASS_COUNT && blocks != [] && Fresh(m, blocks)
    requires NoRepeat(Reverse(blocks))
    ensures var next := AddChunk(m, k, blocks);
            Unique(next.pools) && Suited(next.pools, next.carved) && Complete(next.pools, next.carved)
    ensures In(m, Chunk(Reverse(blocks)[0])) == []
  {
    hide NoRepeat, Reverse, Suits;
    var next := AddChunk(m, k, blocks);
    var chain := Reverse(blocks);
    var h := chain[0];
    assert h in chain;
    forall p, b | b in At(m.pools, p)
      ensures b in m.carved && b !in chain
    {
      SuitsOf(m, p, b);
    }
    assert In(m, Chunk(h)) == [];
    FreshMoves(m.pools, next.pools, chain, Chunk(h));
    FreshKept(m, next, chain, k);
  }

  lemma FreshMoves(pools: Pools, next: Pools, chain: seq<nat>, q: Place)
    requires At(pools, q) == [] && NoRepeat(chain) && next == pools[q := chain]
    requires forall p, b :: b in At(pools, p) ==> b !in chain
    requires forall p :: NoRepeat(At(pools, p))
    ensures Moves(pools, next, chain, q)
    ensures forall p :: NoRepeat(At(next, p))
  {
    hide NoRepeat;
    forall r, b
      ensures (b in chain ==> (b in At(next, r) <==> r == q)) && (b !in chain ==> (b in At(next, r) <==> b in At(pools, r)))
    {
      assert At(next, r) == if r == q then chain else At(pools, r);
    }
    forall r
      ensures NoRepeat(At(next, r))
    {
      assert At(next, r) == if r == q then chain else At(pools, r);
    }
  }

  lemma FreshKept(m: Memory, next: Memory, chain: seq<nat>, k: nat)
    requires Sound(m) && chain != [] && Moves(m.pools, next.pools, chain, Chunk(chain[0]))
    requires forall p, b :: b in At(m.pools, p) ==> b in m.carved && b !in chain
    requires forall p :: NoRepeat(At(next.pools, p))
    requires next.carved == Classed(m.carved, chain, k)
    requires forall b :: b in chain ==> b !in m.carved
    ensures Unique(next.pools) && Suited(next.pools, next.carved) && Complete(next.pools, next.carved)
  {
    hide At, NoRepeat, Stacked;
    var h := chain[0];
    assert h in chain;
    forall b | b in next.carved
      ensures Present(next.pools, b)
    {
      if b in chain {
        assert b in At(next.pools, Chunk(h));
      } else {
        var r :| b in At(m.pools, r);
        assert b in At(next.pools, r);
      }
    }
    forall p, b | b in At(next.pools, p)
      ensures Suits(next.carved, p, b)
    {
      if b in chain { assert p == Chunk(h); } else { assert b in At(m.pools, p); assert Suits(m.carved, p, b); }
    }
    forall p, q, b | b in At(next.pools, p) && b in At(next.pools, q)
      ensures p == q
    {
      if b in chain { assert p == Chunk(h) && q == Chunk(h); } else { assert b in At(m.pools, p) && b in At(m.pools, q); }
    }
  }

  lemma StackPushedFresh(m: Memory, next: Memory, k: nat, chain: seq<nat>)
    requires Stacked(m) && k < CLASS_COUNT && chain != [] && In(m, Chunk(chain[0])) == []
    requires next.stacks == m.stacks[k := [chain[0]] + m.stacks[k]]
    requires forall b :: b in chain ==> b !in m.carved
    requires next.carved == Classed(m.carved, chain, k)
    requires In(next, Chunk(chain[0])) == chain
    requires forall r :: r != Chunk(chain[0]) ==> In(next, r) == In(m, r)
    ensures Stacked(next)
  {
    hide In;
    var h := chain[0];
    assert h in chain;
    assert forall g :: g != h ==> In(next, Chunk(g)) == In(m, Chunk(g));
    assert h in m.stacks[k] ==> ChunkHead(m, k, h);
    JoinNoRepeat([h], m.stacks[k]);
    forall j, g | 0 <= j < CLASS_COUNT && g in next.stacks[j]
      ensures ChunkHead(next, j, g)
    {
      if g == h {
        assert h in m.stacks[j] ==> ChunkHead(m, j, h);
      } else {
        assert g in m.stacks[j];
        assert ChunkHead(m, j, g);
      }
    }
    forall g | In(next, Chunk(g)) != []
      ensures g in next.carved && g in next.stacks[next.carved[g]]
    {
      if g != h {
        assert In(m, Chunk(g)) != [];
        assert g in m.stacks[m.carved[g]];
      }
    }
  }
}
