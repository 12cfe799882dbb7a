/**
 The words of the whole heap: one link word per block, the words of every cache and class, and
 the words of every central bin. Each move of the transition system is carried out on them by
 the list methods, and leaves every other list of the heap as it lies in memory.
 */
module HeapLayout {
  import opened CacheSegments
  import opened HeapPools
  import opened HeapMemory
  import opened HeapMoves
  import opened HeapViews
  import L = HeapLists

  /** What a cache keeps for one size class. */
  datatype CacheWords = CacheWords(
    local: nat, localTail: nat, localCount: nat, spare: nat, spareTail: nat, spareCount: nat, remote: nat, remoteCount: nat)

  datatype BinWords = BinWords(central: nat, count: nat)

  /** Also: the chain each thread is draining, the class the span table gives a block, and the blocks whose state word says live. */
  datatype Layout = Layout(
    link: map<nat, nat>, meta: L.Metadata, caches: map<(nat, nat), CacheWords>, bins: seq<BinWords>,
    taken: map<(nat, nat), nat>, classes: map<nat, nat>, live: set<nat>)

  function WordsOf(l: Layout, c: nat, k: nat): CacheWords {
    if (c, k) in l.caches then l.caches[(c, k)] else CacheWords(0, 0, 0, 0, 0, 0, 0, 0)
  }

  function TakenWord(l: Layout, t: nat, k: nat): nat { if (t, k) in l.taken then l.taken[(t, k)] else 0 }

  /** The words describe a segment: its head, its tail, its length. */
  ghost predicate Segment(link: map<nat, nat>, head: nat, tail: nat, count: nat, s: seq<nat>) {
    L.Chain(link, head, s) && tail == L.Last(s) && count == |s|
  }

  /** The lists of one cache and class; a detached cache no longer keeps the tail of its hot segment. */
  ghost predicate CacheStored(link: map<nat, nat>, w: CacheWords, s: Segments, queue: seq<nat>, kept: bool) {
    && L.Chain(link, w.local, s.local) && w.localCount == |s.local| && (kept ==> w.localTail == L.Last(s.local))
    && Segment(link, w.spare, w.spareTail, w.spareCount, s.spare)
    && L.Chain(link, w.remote, queue) && w.remoteCount == |queue|
  }

  ghost predicate ClassOk(l: Layout, m: Memory, c: nat, k: nat, loose: set<nat>) {
    CacheStored(l.link, WordsOf(l, c, k), SegmentsOf(m, c, k), In(m, Remote(c, k)), c !in loose)
  }

  ghost predicate BinOk(l: Layout, m: Memory, k: nat)
    requires k < |l.bins|
  {
    L.BinStored(l.link, l.meta, l.bins[k].central, l.bins[k].count, ChunksOf(m, k))
  }

  /** Every list of the caches and every bin lies in memory as the words say; loose caches are being detached. */
  ghost predicate Core(l: Layout, m: Memory, loose: set<nat>) {
    && |l.bins| == CLASS_COUNT && 0 !in m.carved && l.classes == m.carved
    && (forall c: nat, k: nat :: ClassOk(l, m, c, k, loose))
    && (forall k: nat :: k < CLASS_COUNT ==> BinOk(l, m, k))
  }

  /** So do the chains taken from remote queues. */
  ghost predicate TakenOk(l: Layout, m: Memory) {
    forall t: nat, k: nat :: L.Chain(l.link, TakenWord(l, t, k), In(m, Taken(t, k)))
  }

  // ----- one class of one cache, and everything else

  /** The block is in a list of cache c and class k, or in the bin of class k. */
  ghost predicate InView(m: Memory, c: nat, k: nat, b: nat) {
    b in In(m, Local(c, k)) || b in In(m, Spare(c, k)) || b in In(m, Remote(c, k)) || b in L.Flat(ChunksOf(m, k))
  }

  ghost function Rest(m: Memory, c: nat, k: nat): set<nat> { set b | b in m.carved && !InView(m, c, k, b) }

  lemma {:induction false} CountOnce(s: seq<nat>, b: nat)
    requires NoRepeat(s)
    ensures multiset(s)[b] == if b in s then 1 else 0
  {
    if s != [] {
      assert s == [s[0]] + s[1..];
      assert s[0] !in s[1..];
      CountOnce(s[1..], b);
    }
  }

  /** A block of a bin is in one of its chunks. */
  lemma {:induction false} FlatIn(chunks: seq<seq<nat>>, b: nat)
    ensures b in L.Flat(chunks) <==> exists i :: 0 <= i < |chunks| && b in chunks[i]
  {
    if chunks != [] {
      FlatIn(chunks[1..], b);
      if i :| 0 <= i < |chunks[1..]| && b in chunks[1..][i] { assert b in chunks[i + 1]; }
      if i :| 0 <= i < |chunks| && b in chunks[i] { assert i > 0 ==> b in chunks[1..][i - 1]; }
    }
  }

  lemma {:induction false} FlatNoRepeat(chunks: seq<seq<nat>>)
    requires forall i :: 0 <= i < |chunks| ==> NoRepeat(chunks[i])
    requires forall i, j, b :: 0 <= i < j < |chunks| && b in chunks[i] ==> b !in chunks[j]
    ensures NoRepeat(L.Flat(chunks))
  {
    if chunks != [] {
      FlatNoRepeat(chunks[1..]);
      forall b | b in chunks[0]
        ensures b !in L.Flat(chunks[1..])
      {
        FlatIn(chunks[1..], b);
      }
      JoinNoRepeat(chunks[0], L.Flat(chunks[1..]));
    }
  }

  /** Which place a block of the bin is in. */
  lemma BinPlace(m: Memory, k: nat, b: nat)
    ensures b in L.Flat(ChunksOf(m, k)) <==> k < |m.stacks| && exists h :: h in m.stacks[k] && b in In(m, Chunk(h))
  {
    hide In;
    FlatIn(ChunksOf(m, k), b);
    if b in L.Flat(ChunksOf(m, k)) {
      var i :| 0 <= i < |ChunksOf(m, k)| && b in ChunksOf(m, k)[i];
      assert m.stacks[k][i] in m.stacks[k] && b in In(m, Chunk(m.stacks[k][i]));
    }
    if k < |m.stacks| {
      if h :| h in m.stacks[k] && b in In(m, Chunk(h)) {
        var i :| 0 <= i < |m.stacks[k]| && m.stacks[k][i] == h;
        assert b in ChunksOf(m, k)[i];
      }
    }
  }

  lemma BinNoRepeat(m: Memory, k: nat)
    requires Sound(m) && k < CLASS_COUNT
    ensures NoRepeat(L.Flat(ChunksOf(m, k)))
  {
    hide Suited, Complete;
    var chunks := ChunksOf(m, k);
    assert NoRepeat(m.stacks[k]);
    forall i | 0 <= i < |chunks|
      ensures NoRepeat(chunks[i])
    {
      assert NoRepeat(At(m.pools, Chunk(m.stacks[k][i])));
    }
    forall i, j, b | 0 <= i < j < |chunks| && b in chunks[i]
      ensures b !in chunks[j]
    {
      assert b in At(m.pools, Chunk(m.stacks[k][i]));
      assert b in At(m.pools, Chunk(m.stacks[k][j])) <==> b in chunks[j];
    }
    FlatNoRepeat(chunks);
  }

  /** Blocks of the view are in distinct lists, once, and are carved blocks. */
  lemma ViewCounts(m: Memory, c: nat, k: nat, b: nat)
    requires Sound(m) && k < CLASS_COUNT
    ensures L.Held(SegmentsOf(m, c, k), In(m, Remote(c, k)), ChunksOf(m, k))[b] == if InView(m, c, k, b) then 1 else 0
    ensures InView(m, c, k, b) ==> b in m.carved
  {
    hide Complete, L.Flat, Suits, ChunksOf;
    BinNoRepeat(m, k);
    BinPlace(m, k, b);
    hide NoRepeat;
    CountOnce(In(m, Local(c, k)), b);
    CountOnce(In(m, Spare(c, k)), b);
    CountOnce(In(m, Remote(c, k)), b);
    CountOnce(L.Flat(ChunksOf(m, k)), b);
    OnePlace(m, Local(c, k), b);
    OnePlace(m, Spare(c, k), b);
    OnePlace(m, Remote(c, k), b);
    if b in L.Flat(ChunksOf(m, k)) {
      var h :| h in m.stacks[k] && b in In(m, Chunk(h));
      OnePlace(m, Chunk(h), b);
    }
  }

  lemma OnePlace(m: Memory, p: Place, b: nat)
    requires Sound(m)
    ensures b in In(m, p) ==> b in m.carved && forall q :: b in In(m, q) ==> q == p
  {
    hide Complete, Suits, Stacked;
    if b in In(m, p) { SuitsOf(m, p, b); }
  }

  lemma ViewDistinct(m: Memory, c: nat, k: nat)
    requires Sound(m) && k < CLASS_COUNT && 0 !in m.carved
    ensures L.Distinct(L.Held(SegmentsOf(m, c, k), In(m, Remote(c, k)), ChunksOf(m, k)) + multiset(Rest(m, c, k)))
  {
    hide Sound, L.Held, InView;
    var held := L.Held(SegmentsOf(m, c, k), In(m, Remote(c, k)), ChunksOf(m, k));
    forall b
      ensures (held + multiset(Rest(m, c, k)))[b] == if b in m.carved then 1 else 0
    {
      ViewCounts(m, c, k, b);
    }
  }

  // ----- loading and saving

  /** The lists of an object are those of one cache and class, and of the bin of the class. */
  ghost predicate Shows(b: L.BlockLists, m: Memory, c: nat, k: nat)
    reads b
  {
    b.segments == SegmentsOf(m, c, k) && b.queue == In(m, Remote(c, k)) && b.chunks == ChunksOf(m, k)
  }

  /** The lists of one cache and class, as an object over the memory of the heap. */
  method Load(l: Layout, g: Limits, c: nat, k: nat, ghost m: Memory, ghost loose: set<nat>) returns (b: L.BlockLists)
    requires Core(l, m, loose) && Sound(m) && k < CLASS_COUNT
    ensures fresh(b) && b.g == g && b.link == l.link && b.meta == l.meta && Shows(b, m, c, k)
    ensures L.Distinct(L.Held(b.segments, b.queue, b.chunks) + multiset(Rest(m, c, k)))
    ensures L.Chain(b.link, b.local, b.segments.local) && b.localCount == |b.segments.local|
    ensures b.SpareStored() && b.QueueStored() && b.CentralStored()
    ensures c !in loose ==> b.Stored(multiset(Rest(m, c, k)))
  {
    hide Sound, L.Held, L.Distinct, L.Chain, L.BinStored, Rest, ChunksOf;
    var w, bin := WordsOf(l, c, k), l.bins[k];
    b := new L.BlockLists.At(g, l.link, l.meta, w.local, w.localTail, w.localCount, w.spare, w.spareTail, w.spareCount,
      w.remote, w.remoteCount, bin.central, bin.count, SegmentsOf(m, c, k), In(m, Remote(c, k)), ChunksOf(m, k));
    assert ClassOk(l, m, c, k, loose) && BinOk(l, m, k);
    ViewDistinct(m, c, k);
  }

  /** The words an object leaves behind. */
  function Saved(l: Layout, b: L.BlockLists, c: nat, k: nat): Layout
    requires k < |l.bins|
    reads b
  {
    l.(link := b.link, meta := b.meta,
       caches := l.caches[(c, k) := CacheWords(b.local, b.localTail, b.localCount, b.spare, b.spareTail, b.spareCount, b.remote, b.remoteCount)],
       bins := l.bins[k := BinWords(b.central, b.centralCount)])
  }

  /** Blocks a move may write to: those of the view, those it brings from one other place, and new ones. */
  ghost predicate Within(m: Memory, c: nat, k: nat, from: Place, blocks: seq<nat>) {
    forall b :: b in blocks ==> b !in m.carved || InView(m, c, k, b) || b in In(m, from)
  }

  /** The lists of other caches and classes are as before. */
  ghost predicate OthersSame(m: Memory, next: Memory, c: nat, k: nat) {
    && OtherBins(m, next, k)
    && forall p: Place :: (p.Local? || p.Spare? || p.Remote?) && !(p.c == c && p.k == k) ==> In(next, p) == In(m, p)
  }

  /** A list outside the view is not written to. */
  lemma ListUntouched(m: Memory, c: nat, k: nat, from: Place, blocks: seq<nat>, p: Place)
    requires Sound(m) && Within(m, c, k, from, blocks) && p != from
    requires (p.Local? || p.Spare? || p.Remote?) ==> !(p.c == c && p.k == k)
    requires p.Chunk? && k < |m.stacks| ==> p.head !in m.stacks[k]
    ensures forall b :: b in In(m, p) ==> b !in blocks
  {
    hide Sound, ChunksOf;
    forall b | b in In(m, p)
      ensures b !in blocks
    {
      OnePlace(m, p, b);
      BinPlace(m, k, b);
    }
  }

  lemma BinUntouched(m: Memory, c: nat, k: nat, from: Place, blocks: seq<nat>, j: nat)
    requires Sound(m) && Within(m, c, k, from, blocks) && !from.Chunk? && j != k && j < CLASS_COUNT && k < CLASS_COUNT
    ensures forall b :: b in L.Flat(ChunksOf(m, j)) ==> b !in blocks
  {
    StackCount(m);
    hide Sound, ChunksOf, Within;
    forall b | b in L.Flat(ChunksOf(m, j))
      ensures b !in blocks
    {
      BinPlace(m, j, b);
      var h :| h in m.stacks[j] && b in In(m, Chunk(h));
      OneStack(m, h, j, k);
      ListUntouched(m, c, k, from, blocks, Chunk(h));
    }
  }

  lemma OneStack(m: Memory, h: nat, j: nat, k: nat)
    requires Sound(m) && j < CLASS_COUNT && k < CLASS_COUNT && j != k && |m.stacks| == CLASS_COUNT && h in m.stacks[j]
    ensures h !in m.stacks[k]
  {
    hide Unique, Suited, Complete;
    assert ChunkHead(m, j, h);
    assert h in m.stacks[k] ==> ChunkHead(m, k, h);
  }

  /** A bin none of whose blocks is written to is still described. */
  lemma BinKept(link: map<nat, nat>, meta: L.Metadata, link': map<nat, nat>, meta': L.Metadata, blocks: seq<nat>,
                central: nat, count: nat, chunks: seq<seq<nat>>)
    requires L.BinStored(link, meta, central, count, chunks) && L.OnlyTouched(link, meta, link', meta', blocks)
    requires forall b :: b in L.Flat(chunks) ==> b !in blocks
    ensures L.BinStored(link', meta', central, count, chunks)
  {
    hide L.Chain;
    forall i: nat | i < |chunks|
      ensures L.ChunkStored(link', meta', chunks, i)
    {
      assert L.ChunkStored(link, meta, chunks, i);
      forall b | b in chunks[i]
        ensures L.Untouched(link, meta, link', meta', b)
      {
        L.FlatMember(chunks, i, b);
      }
      L.SameLinks(link, link', chunks[i][0], chunks[i]);
      assert chunks[i][0] in chunks[i];
    }
  }

  lemma CacheKept(link: map<nat, nat>, meta: L.Metadata, link': map<nat, nat>, meta': L.Metadata, blocks: seq<nat>,
                  w: CacheWords, s: Segments, queue: seq<nat>, kept: bool)
    requires CacheStored(link, w, s, queue, kept) && L.OnlyTouched(link, meta, link', meta', blocks)
    requires forall b :: b in s.local || b in s.spare || b in queue ==> b !in blocks
    ensures CacheStored(link', w, s, queue, kept)
  {
    hide L.Chain, L.Last;
    L.UntouchedLinks(link, meta, link', meta', blocks, s.local);
    L.UntouchedLinks(link, meta, link', meta', blocks, s.spare);
    L.UntouchedLinks(link, meta, link', meta', blocks, queue);
    L.SameLinks(link, link', w.local, s.local);
    L.SameLinks(link, link', w.spare, s.spare);
    L.SameLinks(link, link', w.remote, queue);
  }

  /** After a move on one class of one cache, the words of all caches and bins are right again. */
  lemma SavedCore(l: Layout, next: Layout, m: Memory, m': Memory, loose: set<nat>, loose': set<nat>,
                  c: nat, k: nat, from: Place, blocks: seq<nat>)
    requires Core(l, m, loose) && Sound(m) && k < CLASS_COUNT && !from.Chunk? && !from.Local? && !from.Spare? && !from.Remote?
    requires L.OnlyTouched(l.link, l.meta, next.link, next.meta, blocks) && Within(m, c, k, from, blocks)
    requires OthersSame(m, m', c, k) && 0 !in m'.carved && next.classes == m'.carved
    requires |next.bins| == |l.bins| && forall j: nat :: j < |l.bins| && j != k ==> next.bins[j] == l.bins[j]
    requires forall d: nat, j: nat :: (d, j) != (c, k) ==> WordsOf(next, d, j) == WordsOf(l, d, j)
    requires forall d: nat :: d != c ==> (d in loose' <==> d in loose)
    requires c in loose' || c !in loose
    requires ClassOk(next, m', c, k, loose') && BinOk(next, m', k)
    ensures Core(next, m', loose')
  {
    hide Sound, Within, L.OnlyTouched, CacheStored, L.BinStored, ChunksOf, WordsOf;
    forall d: nat, j: nat
      ensures ClassOk(next, m', d, j, loose')
    {
      if (d, j) != (c, k) {
        assert ClassOk(l, m, d, j, loose);
        ListUntouched(m, c, k, from, blocks, Local(d, j));
        ListUntouched(m, c, k, from, blocks, Spare(d, j));
        ListUntouched(m, c, k, from, blocks, Remote(d, j));
        CacheKept(l.link, l.meta, next.link, next.meta, blocks, WordsOf(l, d, j), SegmentsOf(m, d, j), In(m, Remote(d, j)), d !in loose);
        Loosened(next.link, WordsOf(l, d, j), SegmentsOf(m, d, j), In(m, Remote(d, j)), d !in loose, d !in loose');
      }
    }
    forall j: nat | j < CLASS_COUNT
      ensures BinOk(next, m', j)
    {
      if j != k {
        assert BinOk(l, m, j);
        BinUntouched(m, c, k, from, blocks, j);
        BinKept(l.link, l.meta, next.link, next.meta, blocks, l.bins[j].central, l.bins[j].count, ChunksOf(m, j));
      }
    }
  }

  lemma Loosened(link: map<nat, nat>, w: CacheWords, s: Segments, queue: seq<nat>, kept: bool, kept': bool)
    requires CacheStored(link, w, s, queue, kept) && (kept' ==> kept)
    ensures CacheStored(link, w, s, queue, kept')
  {
  }

  /** The words an object leaves describe its own lists. */
  lemma SavedOwn(l: Layout, next: Layout, b: L.BlockLists, m: Memory, c: nat, k: nat, loose: set<nat>)
    requires k < |l.bins| && next == Saved(l, b, c, k).(classes := next.classes, live := next.live)
    requires Shows(b, m, c, k) && b.SpareStored() && b.QueueStored() && b.CentralStored()
    requires L.Chain(b.link, b.local, b.segments.local) && b.localCount == |b.segments.local|
    requires c !in loose ==> b.localTail == L.Last(b.segments.local)
    ensures ClassOk(next, m, c, k, loose) && BinOk(next, m, k)
    ensures forall d: nat, j: nat :: (d, j) != (c, k) ==> WordsOf(next, d, j) == WordsOf(l, d, j)
  {
    hide L.Chain, L.BinStored, L.Last, ChunksOf;
  }

  /** A block in another place is not in the view. */
  lemma FromElsewhere(m: Memory, c: nat, k: nat, from: Place, b: nat)
    requires Sound(m) && k < CLASS_COUNT && (from.Hand? || from.Taken? || from.Live?) && b in In(m, from)
    ensures b in Rest(m, c, k)
    ensures multiset(Rest(m, c, k)) == multiset(Rest(m, c, k) - {b}) + multiset{b}
  {
    hide Sound, ChunksOf;
    OnePlace(m, from, b);
    BinPlace(m, k, b);
    assert Rest(m, c, k) == (Rest(m, c, k) - {b}) + {b};
  }

  lemma ChunksFit(m: Memory, k: nat, cap: nat)
    requires ChunksWithin(m, cap)
    ensures forall i :: 0 <= i < |ChunksOf(m, k)| ==> |ChunksOf(m, k)[i]| <= cap
  {
    hide In;
  }

  // ----- moves

  /** One block returns to the hot segment of its class. */
  method ReturnBlock(l: Layout, g: Limits, c: nat, k: nat, block: nat, ghost m: Memory, ghost loose: set<nat>, ghost from: Place)
    returns (next: Layout)
    requires Core(l, m, loose) && Sound(m) && g.Legal() && k < CLASS_COUNT && c !in loose && (from.Hand? || from.Taken?)
    requires In(m, from) != [] && block == In(m, from)[0] && block in m.carved && m.carved[block] == k
    requires AtRest(g, SegmentsOf(m, c, k)) && ChunksWithin(m, g.Cap()) && |m.stacks| == CLASS_COUNT
    ensures Core(next, Return(g, m, from, c, k), loose)
    ensures next.taken == l.taken && next.live == l.live
    ensures L.OnlyTouched(l.link, l.meta, next.link, next.meta, [block] + In(m, Spare(c, k)))
  {
    hide Sound, Core, ClassOk, BinOk, L.Chain, L.BinStored, L.Held, L.Distinct, Rest, ChunksWithin, AtRest, Returned, Return, ChunksOf,
      L.OnlyTouched, L.Last, WordsOf;
    BinCount(l, m, loose);
    var b := Load(l, g, c, k, m, loose);
    FromElsewhere(m, c, k, from, block);
    ChunksFit(m, k, g.Cap());
    ReturnEffect(g, m, from, c, k);
    ReturnView(g, m, from, c, k);
    b.PushLocal(block, multiset(Rest(m, c, k) - {block}));
    next := Saved(l, b, c, k);
    SavedOwn(l, next, b, Return(g, m, from, c, k), c, k, loose);
    SavedCore(l, next, m, Return(g, m, from, c, k), loose, loose, c, k, from, [block] + In(m, Spare(c, k)));
  }

  /** The first block of the hot segment is handed out: its link word names the owner, its state word says live. */
  method PopBlock(l: Layout, g: Limits, c: nat, k: nat, size: nat, ghost m: Memory, ghost loose: set<nat>)
    returns (next: Layout, block: nat)
    requires Core(l, m, loose) && Sound(m) && k < CLASS_COUNT && c !in loose && In(m, Local(c, k)) != []
    ensures block == In(m, Local(c, k))[0] && Core(next, Take(m, c, k), loose)
    ensures next.taken == l.taken && next.live == l.live + {block}
    ensures L.Link(next.link, block) == c && L.OnlyTouched(l.link, l.meta, next.link, next.meta, [block])
  {
    hide Sound, Core, ClassOk, BinOk, L.Chain, L.BinStored, L.Held, L.Distinct, Rest, ChunksOf, Move,
      L.OnlyTouched, L.Last, WordsOf;
    BinCount(l, m, loose);
    var b := Load(l, g, c, k, m, loose);
    L.EndsOf(b.link, b.local, b.segments.local);
    MoveAt(m, Local(c, k), 0, 1, Live);
    MoveBins(m, Local(c, k), 0, 1, Live);
    block := b.Pop(size, c, multiset(Rest(m, c, k)));
    next := Saved(l, b, c, k).(live := l.live + {block});
    SavedOwn(l, next, b, Take(m, c, k), c, k, loose);
    SavedCore(l, next, m, Take(m, c, k), loose, loose, c, k, Live, [block]);
  }

  /** The spare segment becomes the hot one. */
  method AdoptSegment(l: Layout, g: Limits, c: nat, k: nat, ghost m: Memory, ghost loose: set<nat>) returns (next: Layout)
    requires Core(l, m, loose) && Sound(m) && k < CLASS_COUNT && c !in loose && In(m, Local(c, k)) == []
    ensures Core(next, Adopt(m, c, k), loose)
    ensures next.taken == l.taken && next.live == l.live && next.link == l.link && next.meta == l.meta
  {
    hide Sound, Core, ClassOk, BinOk, L.Chain, L.BinStored, L.Held, L.Distinct, Rest, ChunksOf, Move,
      L.OnlyTouched, L.Last, WordsOf;
    BinCount(l, m, loose);
    var b := Load(l, g, c, k, m, loose);
    MoveAt(m, Spare(c, k), 0, |In(m, Spare(c, k))|, Local(c, k));
    MoveBins(m, Spare(c, k), 0, |In(m, Spare(c, k))|, Local(c, k));
    var adopted := b.AdoptSpare(multiset(Rest(m, c, k)));
    next := Saved(l, b, c, k);
    SavedOwn(l, next, b, Adopt(m, c, k), c, k, loose);
    L.TouchedNothing(l.link, l.meta, []);
    SavedCore(l, next, m, Adopt(m, c, k), loose, loose, c, k, Live, []);
  }

  /** The remote queue of a class passes to the thread that drains it. */
  method TakeQueue(l: Layout, t: nat, c: nat, k: nat, ghost m: Memory, ghost loose: set<nat>) returns (next: Layout)
    requires Core(l, m, loose) && Sound(m) && k < CLASS_COUNT && TakenOk(l, m) && In(m, Taken(t, k)) == []
    ensures var next' := Move(m, Remote(c, k), 0, |In(m, Remote(c, k))|, Taken(t, k));
            Core(next, next', loose) && TakenOk(next, next')
    ensures next.live == l.live && next.link == l.link && next.meta == l.meta
  {
    hide Sound, Core, BinOk, L.Chain, L.BinStored, ChunksOf, Move, L.OnlyTouched, L.Last, Segment;
    ghost var m' := Move(m, Remote(c, k), 0, |In(m, Remote(c, k))|, Taken(t, k));
    MoveAt(m, Remote(c, k), 0, |In(m, Remote(c, k))|, Taken(t, k));
    MoveBins(m, Remote(c, k), 0, |In(m, Remote(c, k))|, Taken(t, k));
    var w := WordsOf(l, c, k);
    next := l.(caches := l.caches[(c, k) := w.(remote := 0, remoteCount := 0)], taken := l.taken[(t, k) := w.remote]);
    L.EmptyChain(l.link);
    BinCount(l, m, loose);
    StoredBin(l, m, loose, k);
    assert ClassOk(l, m, c, k, loose) by { StoredCache(l, m, loose, c, k); }
    L.TouchedNothing(l.link, l.meta, []);
    assert In(m', Remote(c, k)) == [] && In(m', Taken(t, k)) == In(m, Remote(c, k));
    assert BinOk(next, m', k) by { SameBin(l, next, m, m', k); }
    SavedCore(l, next, m, m', loose, loose, c, k, Live, []);
    forall u: nat, j: nat
      ensures L.Chain(next.link, TakenWord(next, u, j), In(m', Taken(u, j)))
    {
      assert (u, j) != (t, k) ==> TakenWord(next, u, j) == TakenWord(l, u, j) && In(m', Taken(u, j)) == In(m, Taken(u, j));
    }
  }

  lemma StoredBin(l: Layout, m: Memory, loose: set<nat>, k: nat)
    requires Core(l, m, loose) && k < CLASS_COUNT
    ensures |l.bins| == CLASS_COUNT && BinOk(l, m, k)
  {
    hide BinOk, ClassOk;
  }

  lemma StoredCache(l: Layout, m: Memory, loose: set<nat>, c: nat, k: nat)
    requires Core(l, m, loose)
    ensures ClassOk(l, m, c, k, loose)
  {
    hide BinOk, ClassOk;
  }

  lemma SameBin(l: Layout, next: Layout, m: Memory, m': Memory, k: nat)
    requires k < |l.bins| && BinOk(l, m, k) && next.bins == l.bins && next.link == l.link && next.meta == l.meta
    requires ChunksOf(m', k) == ChunksOf(m, k)
    ensures BinOk(next, m', k)
  {
  }

  /** The chunk on top of a bin becomes the hot segment. */
  method TakeTop(l: Layout, g: Limits, c: nat, k: nat, ghost m: Memory, ghost loose: set<nat>) returns (next: Layout)
    requires Core(l, m, loose) && Sound(m) && k < CLASS_COUNT && c !in loose && SegmentsOf(m, c, k) == Segments([], [])
    requires |m.stacks| == CLASS_COUNT && m.stacks[k] != []
    ensures Core(next, FromCentral(m, k, Local(c, k)), loose)
    ensures next.taken == l.taken && next.live == l.live && L.OnlyTouched(l.link, l.meta, next.link, next.meta, [])
  {
    hide Sound, Core, ClassOk, BinOk, L.Chain, L.BinStored, L.Held, L.Distinct, Rest, ChunksOf, FromCentral,
      L.OnlyTouched, L.Last, WordsOf, Suits;
    BinCount(l, m, loose);
    var b := Load(l, g, c, k, m, loose);
    LocalTakes(m, c, k);
    FromCentralSound(m, k, Local(c, k));
    FromCentralBins(m, k, Local(c, k));
    L.BinEnds(b.link, b.meta, b.central, b.centralCount, b.chunks);
    b.TakeChunk(multiset(Rest(m, c, k)));
    next := Saved(l, b, c, k);
    ghost var m' := FromCentral(m, k, Local(c, k));
    assert b.segments == SegmentsOf(m', c, k) && b.queue == In(m', Remote(c, k)) && b.chunks == ChunksOf(m', k);
    SavedOwn(l, next, b, m', c, k, loose);
    SameLinksTouched(l.link, next.link, l.meta);
    SavedCore(l, next, m, m', loose, loose, c, k, Live, []);
  }

  lemma LocalTakes(m: Memory, c: nat, k: nat)
    ensures forall b :: b in m.carved && m.carved[b] == k ==> Suits(m.carved, Local(c, k), b)
  {
  }

  lemma SameLinksTouched(link: map<nat, nat>, link': map<nat, nat>, meta: L.Metadata)
    requires forall b :: L.Link(link', b) == L.Link(link, b)
    ensures L.OnlyTouched(link, meta, link', meta, [])
  {
  }

  /** The blocks of a new span become chunks of their class. */
  method CarveBlocks(l: Layout, g: Limits, c: nat, k: nat, span: seq<nat>, ghost m: Memory, ghost loose: set<nat>) returns (next: Layout)
    requires Core(l, m, loose) && Sound(m) && g.Legal() && k < CLASS_COUNT && c !in loose && Fresh(m, span) && ChunksWithin(m, g.Cap())
    requires |m.stacks| == CLASS_COUNT
    ensures Core(next, CarveAll(m, k, span, g.ChunkLimit()), loose)
    ensures next.taken == l.taken && next.live == l.live && L.OnlyTouched(l.link, l.meta, next.link, next.meta, span)
  {
    hide Sound, Core, ClassOk, BinOk, L.Chain, L.BinStored, L.Held, L.Distinct, Rest, ChunksOf, CarveAll, ChunksWithin,
      L.OnlyTouched, L.Last, WordsOf, Fresh, L.CarvedChunks, Classed;
    BinCount(l, m, loose);
    var b := Load(l, g, c, k, m, loose);
    SpanDistinct(m, c, k, span);
    CarveAllEffect(m, k, span, g.ChunkLimit(), g.Cap());
    CarveAllBins(m, k, span, g.ChunkLimit(), g.Cap());
    b.CarveSpan(span, multiset(Rest(m, c, k)));
    next := Saved(l, b, c, k).(classes := Classed(l.classes, span, k));
    ghost var m' := CarveAll(m, k, span, g.ChunkLimit());
    SavedOwn(l, next, b, m', c, k, loose);
    ClassedFacts(m, span, k);
    SavedCore(l, next, m, m', loose, loose, c, k, Live, span);
  }

  lemma ClassedFacts(m: Memory, span: seq<nat>, k: nat)
    requires Fresh(m, span) && 0 !in m.carved
    ensures 0 !in Classed(m.carved, span, k) && forall b :: b in span ==> b !in m.carved
  {
  }

  lemma SpanDistinct(m: Memory, c: nat, k: nat, span: seq<nat>)
    requires Sound(m) && k < CLASS_COUNT && 0 !in m.carved && Fresh(m, span)
    ensures L.Distinct(L.Held(SegmentsOf(m, c, k), In(m, Remote(c, k)), ChunksOf(m, k)) + (multiset(Rest(m, c, k)) + multiset(span)))
  {
    hide Sound, L.Held, InView, NoRepeat;
    var held := L.Held(SegmentsOf(m, c, k), In(m, Remote(c, k)), ChunksOf(m, k));
    forall b
      ensures (held + (multiset(Rest(m, c, k)) + multiset(span)))[b] == if b in m.carved || b in span then 1 else 0
    {
      ViewCounts(m, c, k, b);
      CountOnce(span, b);
    }
  }

  /** A block freed by another thread enters the remote queue of its owner. */
  method QueueBlock(l: Layout, g: Limits, t: nat, c: nat, k: nat, block: nat, ghost m: Memory, ghost loose: set<nat>) returns (next: Layout)
    requires Core(l, m, loose) && Sound(m) && k < CLASS_COUNT && c !in loose && In(m, Hand(t)) == [block]
    ensures Core(next, Move(m, Hand(t), 0, 1, Remote(c, k)), loose)
    ensures next.taken == l.taken && next.live == l.live && L.OnlyTouched(l.link, l.meta, next.link, next.meta, [block])
  {
    hide Sound, Core, ClassOk, BinOk, L.Chain, L.BinStored, L.Held, L.Distinct, Rest, ChunksOf, Move,
      L.OnlyTouched, L.Last, WordsOf;
    BinCount(l, m, loose);
    var b := Load(l, g, c, k, m, loose);
    FromElsewhere(m, c, k, Hand(t), block);
    MoveAt(m, Hand(t), 0, 1, Remote(c, k));
    MoveBins(m, Hand(t), 0, 1, Remote(c, k));
    b.PushRemote(block, multiset(Rest(m, c, k) - {block}));
    next := Saved(l, b, c, k);
    ghost var m' := Move(m, Hand(t), 0, 1, Remote(c, k));
    SavedOwn(l, next, b, m', c, k, loose);
    OneLinkTouched(l.link, next.link, l.meta, block);
    SavedCore(l, next, m, m', loose, loose, c, k, Hand(t), [block]);
  }

  lemma OneLinkTouched(link: map<nat, nat>, link': map<nat, nat>, meta: L.Metadata, block: nat)
    requires forall b :: b != block ==> L.Link(link', b) == L.Link(link, b)
    ensures L.OnlyTouched(link, meta, link', meta, [block])
  {
  }

  /** A block of a detached cache becomes a chunk of its own. */
  method BinBlock(l: Layout, t: nat, k: nat, block: nat, ghost m: Memory, ghost loose: set<nat>) returns (next: Layout)
    requires Core(l, m, loose) && Sound(m) && k < CLASS_COUNT && In(m, Hand(t)) == [block] && block in m.carved && m.carved[block] == k
    requires |m.stacks| == CLASS_COUNT
    ensures Core(next, ToCentral(m, Hand(t), 1, k), loose)
    ensures next.taken == l.taken && next.live == l.live && L.OnlyTouched(l.link, l.meta, next.link, next.meta, [block, block])
  {
    hide Sound, Core, ClassOk, BinOk, L.Chain, L.BinStored, L.Held, L.Distinct, ChunksOf, ToCentral, CacheStored,
      L.OnlyTouched, WordsOf, Rest;
    BinCount(l, m, loose);
    var b := Load(l, Limits(1, 2), 0, k, m, loose);
    FromElsewhere(m, 0, k, Hand(t), block);
    HandApart(m, k, t, block);
    ToCentralSound(m, Hand(t), 1, k);
    ToCentralBins(m, Hand(t), 1, k);
    assert In(m, Hand(t))[..1] == [block];
    L.SingleChain(b.link, block);
    b.PushCentralChunk(block, block, 1, [block]);
    next := l.(link := b.link, meta := b.meta, bins := l.bins[k := BinWords(b.central, b.centralCount)]);
    ghost var m' := ToCentral(m, Hand(t), 1, k);
    StoredCache(l, m, loose, 0, k);
    SameWords(l, next);
    assert BinOk(next, m', k) by { BinSaved(next, b, m', k); }
    KeptOwn(l, next, m, m', loose, 0, k, Hand(t), [block, block]);
    SavedCore(l, next, m, m', loose, loose, 0, k, Hand(t), [block, block]);
  }

  lemma SameWords(l: Layout, next: Layout)
    requires next.caches == l.caches
    ensures forall c: nat, k: nat :: WordsOf(next, c, k) == WordsOf(l, c, k)
  {
  }

  lemma BinSaved(next: Layout, b: L.BlockLists, m: Memory, k: nat)
    requires k < |next.bins| && next.bins[k] == BinWords(b.central, b.centralCount) && next.link == b.link && next.meta == b.meta
    requires b.CentralStored() && b.chunks == ChunksOf(m, k)
    ensures BinOk(next, m, k)
  {
  }

  lemma HandApart(m: Memory, k: nat, t: nat, block: nat)
    requires Sound(m) && In(m, Hand(t)) == [block] && k < CLASS_COUNT && 0 !in m.carved
    ensures block !in L.Flat(ChunksOf(m, k)) && block != 0
    ensures forall c: nat :: block !in In(m, Local(c, k)) && block !in In(m, Spare(c, k)) && block !in In(m, Remote(c, k))
  {
    hide Sound, ChunksOf;
    OnePlace(m, Hand(t), block);
    BinPlace(m, k, block);
  }

  /** A cache none of whose blocks is written to, and whose words stay, is still described. */
  lemma KeptOwn(l: Layout, next: Layout, m: Memory, m': Memory, loose: set<nat>, c: nat, k: nat, from: Place, blocks: seq<nat>)
    requires ClassOk(l, m, c, k, loose) && next.caches == l.caches && L.OnlyTouched(l.link, l.meta, next.link, next.meta, blocks)
    requires SegmentsOf(m', c, k) == SegmentsOf(m, c, k) && In(m', Remote(c, k)) == In(m, Remote(c, k))
    requires forall b :: b in In(m, Local(c, k)) || b in In(m, Spare(c, k)) || b in In(m, Remote(c, k)) ==> b !in blocks
    ensures ClassOk(next, m', c, k, loose)
  {
    hide CacheStored, In;
    CacheKept(l.link, l.meta, next.link, next.meta, blocks, WordsOf(l, c, k), SegmentsOf(m, c, k), In(m, Remote(c, k)), c !in loose);
  }

  /** Detaching takes back the remote queue of a class; from then on the tail of the hot segment is not kept. */
  method RecallQueue(l: Layout, g: Limits, c: nat, k: nat, ghost m: Memory, ghost loose: set<nat>) returns (next: Layout)
    requires Core(l, m, loose) && Sound(m) && k < CLASS_COUNT && |m.stacks| == CLASS_COUNT
    ensures Core(next, Unload(m, Remote(c, k), Local(c, k)), loose + {c})
    ensures next.taken == l.taken && next.live == l.live && L.OnlyTouched(l.link, l.meta, next.link, next.meta, In(m, Remote(c, k)))
  {
    hide Sound, Core, ClassOk, BinOk, L.Chain, L.BinStored, L.Held, L.Distinct, Rest, ChunksOf, Unload,
      L.OnlyTouched, L.Last, WordsOf, ChunksWithin, Reverse;
    BinCount(l, m, loose);
    var b := Load(l, g, c, k, m, loose);
    UnloadLists(m, c, k);
    UnloadView(m, c, k);
    b.RecallRemote(multiset(Rest(m, c, k)));
    next := Saved(l, b, c, k);
    ghost var m' := Unload(m, Remote(c, k), Local(c, k));
    SavedOwn(l, next, b, m', c, k, loose + {c});
    LinksTouched(l.link, next.link, l.meta, In(m, Remote(c, k)));
    SavedCore(l, next, m, m', loose, loose + {c}, c, k, Live, In(m, Remote(c, k)));
  }

  lemma LinksTouched(link: map<nat, nat>, link': map<nat, nat>, meta: L.Metadata, blocks: seq<nat>)
    requires forall b :: b !in blocks ==> L.Link(link', b) == L.Link(link, b)
    ensures L.OnlyTouched(link, meta, link', meta, blocks)
  {
  }

  lemma {:induction false} UnloadLists(m: Memory, c: nat, k: nat)
    ensures var next := Unload(m, Remote(c, k), Local(c, k));
            In(next, Remote(c, k)) == [] && OnlyChanged(m, next, {Remote(c, k), Local(c, k)})
    decreases |In(m, Remote(c, k))|
  {
    hide Move;
    var p, q := Remote(c, k), Local(c, k);
    if In(m, p) != [] {
      MoveAt(m, p, 0, 1, q);
      UnloadLists(Move(m, p, 0, 1, q), c, k);
    }
  }

  /** Detaching gives both segments of a class to the bin, block by block. */
  method SurrenderWords(l: Layout, g: Limits, c: nat, k: nat, ghost m: Memory, ghost loose: set<nat>) returns (next: Layout)
    requires Core(l, m, loose) && Sound(m) && g.Legal() && k < CLASS_COUNT && In(m, Remote(c, k)) == [] && ChunksWithin(m, g.Cap())
    requires |m.stacks| == CLASS_COUNT
    ensures Core(next, Surrender(m, c, k), loose)
    ensures next.taken == l.taken && next.live == l.live
    ensures L.OnlyTouched(l.link, l.meta, next.link, next.meta, In(m, Local(c, k)) + In(m, Spare(c, k)))
  {
    hide Sound, Core, ClassOk, BinOk, L.Chain, L.BinStored, L.Held, L.Distinct, Rest, ChunksOf, Surrender,
      L.OnlyTouched, L.Last, WordsOf, ChunksWithin, L.Singles;
    BinCount(l, m, loose);
    var b := Load(l, g, c, k, m, loose);
    SurrenderEffect(m, c, k, g.Cap());
    SurrenderView(m, c, k, g.Cap());
    b.SurrenderClass(multiset(Rest(m, c, k)));
    next := Saved(l, b, c, k);
    ghost var m' := Surrender(m, c, k);
    SavedOwn(l, next, b, m', c, k, loose);
    SavedCore(l, next, m, m', loose, loose, c, k, Live, In(m, Local(c, k)) + In(m, Spare(c, k)));
  }

  lemma BinCount(l: Layout, m: Memory, loose: set<nat>)
    requires Core(l, m, loose)
    ensures |l.bins| == CLASS_COUNT && 0 !in m.carved && l.classes == m.carved
  {
  }
}
