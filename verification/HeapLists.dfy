/**
 The same lists as they lie in memory: headers linked through their own first word, a head, a
 tail and a count per segment, and central chunks described inside their head block. The
 methods work on one size class of one cache and the central bin of that class.
 */
module HeapLists {
  import opened CacheSegments

  // ----- chains

  /** The link word of a header; 0 is the null pointer. */
  function Link(link: map<nat, nat>, b: nat): nat { if b in link then link[b] else 0 }

  function Word(words: map<nat, nat>, b: nat): nat { if b in words then words[b] else 0 }

  function Head(s: seq<nat>): nat { if s == [] then 0 else s[0] }

  function Last(s: seq<nat>): nat { if s == [] then 0 else s[|s| - 1] }

  /** Links lead through the blocks in order, up to the last one. */
  ghost predicate Linked(link: map<nat, nat>, s: seq<nat>) {
    forall i :: 0 <= i < |s| - 1 ==> Link(link, s[i]) == s[i + 1]
  }

  /** A null-terminated chain from head through exactly these blocks. */
  ghost predicate Chain(link: map<nat, nat>, head: nat, s: seq<nat>) {
    head == Head(s) && Linked(link, s) && (s != [] ==> Link(link, Last(s)) == 0) && 0 !in s
  }

  lemma ChainPush(link: map<nat, nat>, head: nat, s: seq<nat>, b: nat)
    requires Chain(link, head, s) && b !in s && b != 0
    ensures Chain(link[b := head], b, [b] + s)
  {
  }

  lemma ChainPop(link: map<nat, nat>, head: nat, s: seq<nat>)
    requires Chain(link, head, s) && head != 0
    ensures s != [] && head == s[0] && Chain(link, Link(link, head), s[1..])
    ensures Link(link, head) == 0 <==> s[1..] == []
  {
    assert s != [];
    if |s| > 1 {
      assert Link(link, s[0]) == s[0 + 1] && s[1] in s;
      assert Last(s[1..]) == Last(s);
      forall i | 0 <= i < |s[1..]| - 1
        ensures Link(link, s[1..][i]) == s[1..][i + 1]
      {
        assert Link(link, s[i + 1]) == s[i + 1 + 1];
      }
    }
  }

  lemma ChainFrame(link: map<nat, nat>, head: nat, s: seq<nat>, b: nat, x: nat)
    requires Chain(link, head, s) && (b !in s || Link(link, b) == x)
    ensures Chain(link[b := x], head, s)
  {
  }

  // ----- the central bin

  function Flat(chunks: seq<seq<nat>>): seq<nat> { if chunks == [] then [] else chunks[0] + Flat(chunks[1..]) }

  lemma {:induction false} FlatMember(chunks: seq<seq<nat>>, i: nat, b: nat)
    requires i < |chunks| && b in chunks[i]
    ensures b in Flat(chunks)
  {
    if i > 0 { FlatMember(chunks[1..], i - 1, b); }
  }

  datatype Metadata = Metadata(requested: map<nat, nat>, chunkNext: map<nat, nat>, chunkTail: map<nat, nat>)

  /** The words of two states agree on a block: its link, and what it says as the head of a chunk. */
  ghost predicate Untouched(link: map<nat, nat>, meta: Metadata, link': map<nat, nat>, meta': Metadata, b: nat) {
    && Link(link', b) == Link(link, b) && Word(meta'.requested, b) == Word(meta.requested, b)
    && Word(meta'.chunkNext, b) == Word(meta.chunkNext, b) && Word(meta'.chunkTail, b) == Word(meta.chunkTail, b)
  }

  ghost predicate OnlyTouched(link: map<nat, nat>, meta: Metadata, link': map<nat, nat>, meta': Metadata, blocks: seq<nat>) {
    forall b :: b !in blocks ==> Untouched(link, meta, link', meta', b)
  }

  lemma TouchedNothing(link: map<nat, nat>, meta: Metadata, blocks: seq<nat>)
    ensures OnlyTouched(link, meta, link, meta, blocks)
  {
  }

  lemma TouchedTwice(link: map<nat, nat>, meta: Metadata, link1: map<nat, nat>, meta1: Metadata, link2: map<nat, nat>, meta2: Metadata,
                     blocks: seq<nat>)
    requires OnlyTouched(link, meta, link1, meta1, blocks) && OnlyTouched(link1, meta1, link2, meta2, blocks)
    ensures OnlyTouched(link, meta, link2, meta2, blocks)
  {
  }

  lemma UntouchedLinks(link: map<nat, nat>, meta: Metadata, link': map<nat, nat>, meta': Metadata, blocks: seq<nat>, s: seq<nat>)
    requires OnlyTouched(link, meta, link', meta', blocks) && forall b :: b in s ==> b !in blocks
    ensures forall b :: b in s ==> Link(link', b) == Link(link, b)
  {
  }

  lemma TouchedMore(link: map<nat, nat>, meta: Metadata, link': map<nat, nat>, meta': Metadata, blocks: seq<nat>, more: seq<nat>)
    requires OnlyTouched(link, meta, link', meta', blocks) && forall b :: b in blocks ==> b in more
    ensures OnlyTouched(link, meta, link', meta', more)
  {
  }

  ghost predicate ChunkStored(link: map<nat, nat>, meta: Metadata, chunks: seq<seq<nat>>, i: nat)
    requires i < |chunks|
  {
    var s := chunks[i];
    && s != [] && |s| <= UINT32_MAX && Chain(link, s[0], s)
    && Word(meta.requested, s[0]) == |s| && Word(meta.chunkTail, s[0]) == Last(s)
    && Word(meta.chunkNext, s[0]) == if i + 1 < |chunks| then Head(chunks[i + 1]) else 0
  }

  /** The stack of chunks as the head blocks describe it. */
  ghost predicate BinStored(link: map<nat, nat>, meta: Metadata, central: nat, count: nat, chunks: seq<seq<nat>>) {
    && central == (if chunks == [] then 0 else Head(chunks[0]))
    && count == |Flat(chunks)|
    && forall i: nat :: i < |chunks| ==> ChunkStored(link, meta, chunks, i)
  }

  lemma BinFrame(link: map<nat, nat>, link': map<nat, nat>, meta: Metadata, central: nat, count: nat, chunks: seq<seq<nat>>)
    requires BinStored(link, meta, central, count, chunks)
    requires forall b :: b in Flat(chunks) ==> Link(link', b) == Link(link, b)
    ensures BinStored(link', meta, central, count, chunks)
  {
    forall i: nat | i < |chunks|
      ensures ChunkStored(link', meta, chunks, i)
    {
      assert ChunkStored(link, meta, chunks, i);
      forall b | b in chunks[i]
        ensures Link(link', b) == Link(link, b)
      {
        FlatMember(chunks, i, b);
      }
    }
  }

  function Described(meta: Metadata, head: nat, tail: nat, count: nat, below: nat): Metadata {
    Metadata(meta.requested[head := count], meta.chunkNext[head := below], meta.chunkTail[head := tail])
  }

  lemma BinPush(link: map<nat, nat>, meta: Metadata, central: nat, count: nat, chunks: seq<seq<nat>>, s: seq<nat>)
    requires BinStored(link, meta, central, count, chunks)
    requires s != [] && |s| <= UINT32_MAX && Chain(link, s[0], s) && s[0] !in Flat(chunks)
    ensures BinStored(link, Described(meta, s[0], Last(s), |s|, central), s[0], count + |s|, [s] + chunks)
  {
    hide Chain;
    var meta' := Described(meta, s[0], Last(s), |s|, central);
    var all := [s] + chunks;
    assert all[1..] == chunks;
    forall i: nat | i < |all|
      ensures ChunkStored(link, meta', all, i)
    {
      if i > 0 {
        assert ChunkStored(link, meta, chunks, i - 1);
        FlatMember(chunks, i - 1, chunks[i - 1][0]);
      }
    }
  }

  lemma BinPop(link: map<nat, nat>, meta: Metadata, central: nat, count: nat, chunks: seq<seq<nat>>)
    requires BinStored(link, meta, central, count, chunks) && central != 0
    ensures chunks != [] && ChunkStored(link, meta, chunks, 0) && central == chunks[0][0]
    ensures count >= |chunks[0]|
    ensures BinStored(link, meta, Word(meta.chunkNext, central), count - |chunks[0]|, chunks[1..])
  {
    hide Chain;
    assert chunks != [];
    assert ChunkStored(link, meta, chunks, 0);
    forall i: nat | i < |chunks[1..]|
      ensures ChunkStored(link, meta, chunks[1..], i)
    {
      assert ChunkStored(link, meta, chunks, i + 1);
    }
  }

  // ----- who holds what

  /** Every block once, none of them null. */
  ghost predicate Distinct(m: multiset<nat>) { m[0] == 0 && forall b :: m[b] <= 1 }

  ghost function Held(s: Segments, queue: seq<nat>, chunks: seq<seq<nat>>): multiset<nat> {
    multiset(s.local) + multiset(s.spare) + multiset(queue) + multiset(Flat(chunks))
  }

  lemma Apart(s: Segments, queue: seq<nat>, chunks: seq<seq<nat>>, rest: multiset<nat>, b: nat)
    requires Distinct(Held(s, queue, chunks) + rest)
    ensures b in rest ==> b !in s.local && b !in s.spare && b !in queue && b !in Flat(chunks) && b != 0
    ensures b in s.local ==> b !in s.spare && b !in queue && b !in Flat(chunks)
    ensures b in s.spare ==> b !in queue && b !in Flat(chunks)
    ensures b in queue ==> b !in Flat(chunks)
  {
    var m := Held(s, queue, chunks) + rest;
    assert m[b] <= 1;
    assert m[b] == multiset(s.local)[b] + multiset(s.spare)[b] + multiset(queue)[b] + multiset(Flat(chunks))[b] + rest[b];
    assert b in s.local <==> multiset(s.local)[b] > 0;
    assert b in s.spare <==> multiset(s.spare)[b] > 0;
    assert b in queue <==> multiset(queue)[b] > 0;
    assert b in Flat(chunks) <==> multiset(Flat(chunks))[b] > 0;
  }

  lemma FlatPush(chunks: seq<seq<nat>>, s: seq<nat>)
    ensures Flat([s] + chunks) == s + Flat(chunks)
  {
    assert ([s] + chunks)[1..] == chunks;
  }

  // ----- the lists of one cache and the bin of one class

  class BlockLists {
    const g: Limits
    var link: map<nat, nat>
    var meta: Metadata
    var local: nat
    var localTail: nat
    var localCount: nat
    var spare: nat
    var spareTail: nat
    var spareCount: nat
    var remote: nat
    var remoteCount: nat
    var central: nat
    var centralCount: nat
    ghost var segments: Segments
    ghost var queue: seq<nat>
    ghost var chunks: seq<seq<nat>>

    constructor (g: Limits)
      requires g.Legal()
      ensures this.g == g && segments == Segments([], []) && queue == [] && chunks == []
      ensures Stored(multiset{}) && Settled()
    {
      this.g := g;
      link, meta := map[], Metadata(map[], map[], map[]);
      local, localTail, localCount, spare, spareTail, spareCount := 0, 0, 0, 0, 0, 0;
      remote, remoteCount, central, centralCount := 0, 0, 0, 0;
      segments, queue, chunks := Segments([], []), [], [];
    }

    /** Lists that lie in memory already. */
    constructor At(g: Limits, link: map<nat, nat>, meta: Metadata, local: nat, localTail: nat, localCount: nat,
                   spare: nat, spareTail: nat, spareCount: nat, remote: nat, remoteCount: nat, central: nat, centralCount: nat,
                   ghost segments: Segments, ghost queue: seq<nat>, ghost chunks: seq<seq<nat>>)
      ensures this.g == g && this.link == link && this.meta == meta
      ensures this.local == local && this.localTail == localTail && this.localCount == localCount
      ensures this.spare == spare && this.spareTail == spareTail && this.spareCount == spareCount
      ensures this.remote == remote && this.remoteCount == remoteCount && this.central == central && this.centralCount == centralCount
      ensures this.segments == segments && this.queue == queue && this.chunks == chunks
    {
      this.g, this.link, this.meta := g, link, meta;
      this.local, this.localTail, this.localCount := local, localTail, localCount;
      this.spare, this.spareTail, this.spareCount := spare, spareTail, spareCount;
      this.remote, this.remoteCount, this.central, this.centralCount := remote, remoteCount, central, centralCount;
      this.segments, this.queue, this.chunks := segments, queue, chunks;
    }

    ghost predicate LocalStored() reads this {
      Chain(link, local, segments.local) && localTail == Last(segments.local) && localCount == |segments.local|
    }

    ghost predicate SpareStored() reads this {
      Chain(link, spare, segments.spare) && spareTail == Last(segments.spare) && spareCount == |segments.spare|
    }

    ghost predicate QueueStored() reads this { Chain(link, remote, queue) && remoteCount == |queue| }

    ghost predicate CentralStored() reads this { BinStored(link, meta, central, centralCount, chunks) }

    /** All lists lie in memory as described; rest are the blocks outside them. */
    ghost predicate Stored(rest: multiset<nat>) reads this {
      && LocalStored() && SpareStored() && QueueStored() && CentralStored()
      && Distinct(Held(segments, queue, chunks) + rest)
    }

    /** The budgets of an attached cache, and of the chunks others may take. */
    ghost predicate Settled() reads this {
      g.Legal() && AtRest(g, segments) && forall i :: 0 <= i < |chunks| ==> |chunks[i]| <= g.Cap()
    }

    /** memx_heap_push_central_chunk_locked. */
    method PushCentralChunk(head: nat, tail: nat, count: nat, ghost s: seq<nat>)
      requires CentralStored() && s != [] && head == s[0] && tail == Last(s) && count == |s| <= UINT32_MAX
      requires Chain(link[tail := 0], head, s) && head !in Flat(chunks) && tail !in Flat(chunks)
      modifies this`link, this`meta, this`central, this`centralCount, this`chunks
      ensures link == old(link)[tail := 0]
      ensures CentralStored() && chunks == [s] + old(chunks)
      ensures OnlyTouched(old(link), old(meta), link, meta, [head, tail])
    {
      hide ChunkStored;
      link := link[tail := 0];
      BinFrame(old(link), link, meta, central, centralCount, chunks);
      BinPush(link, meta, central, centralCount, chunks, s);
      FlatPush(chunks, s);
      meta := Described(meta, head, tail, count, central);
      central := head;
      centralCount := centralCount + count;
      chunks := [s] + chunks;
    }

    /** The first half of memx_heap_flush_excess_slow: the old spare goes to the bin as one chunk. */
    method GiveSpare(ghost rest: multiset<nat>)
      requires Stored(rest) && |segments.spare| <= UINT32_MAX
      modifies this`link, this`meta, this`central, this`centralCount, this`chunks
      ensures LocalStored() && QueueStored() && CentralStored()
      ensures chunks == Given(segments.spare, old(chunks))
      ensures OnlyTouched(old(link), old(meta), link, meta, segments.spare)
    {
      hide BinStored, Distinct, Chain, Held, Flat, Link, Last, Head;
      ghost var s := segments.spare;
      EndsOf(link, spare, s);
      if spare != 0 && spareTail != 0 && spareCount != 0 && spareCount <= UINT32_MAX {
        Apart(segments, queue, chunks, rest, spare);
        Apart(segments, queue, chunks, rest, spareTail);
        ChainFrame(link, spare, s, spareTail, 0);
        ChainFrame(link, local, segments.local, spareTail, 0);
        ChainFrame(link, remote, queue, spareTail, 0);
        LinkCut(link, spareTail, s);
        PushCentralChunk(spare, spareTail, spareCount, s);
      }
    }

    /** memx_heap_flush_excess_slow: the old spare goes to the bin, the hot segment becomes the spare. */
    method FlushExcess(ghost rest: multiset<nat>)
      requires Stored(rest) && |segments.spare| <= UINT32_MAX
      modifies this`link, this`meta, this`central, this`centralCount, this`chunks, this`segments
      modifies this`local, this`localTail, this`localCount, this`spare, this`spareTail, this`spareCount
      ensures Stored(rest) && segments == Segments([], old(segments).local)
      ensures chunks == Given(old(segments).spare, old(chunks))
      ensures OnlyTouched(old(link), old(meta), link, meta, old(segments).spare)
    {
      hide BinStored, Distinct, Chain, Held, Flat, Link, Given, Last, Head;
      FlushHeld(segments, queue, chunks);
      GiveSpare(rest);
      EmptyChain(link);
      spare, spareTail, spareCount := local, localTail, localCount;
      local, localTail, localCount := 0, 0, 0;
      segments := Segments([], segments.local);
    }

    /** memx_heap_trim_cache. */
    method TrimCache(ghost rest: multiset<nat>)
      requires Stored(rest) && |segments.local| <= g.limit && |segments.spare| <= UINT32_MAX
      modifies this`link, this`meta, this`central, this`centralCount, this`chunks, this`segments
      modifies this`local, this`localTail, this`localCount, this`spare, this`spareTail, this`spareCount
      ensures Stored(rest)
      ensures var t := Trimmed(g, old(segments)); segments == t.kept && chunks == Given(t.flushed, old(chunks))
      ensures OnlyTouched(old(link), old(meta), link, meta, old(segments).spare)
    {
      hide BinStored, Distinct, Chain, Held, Flat;
      if localCount >= g.limit / 2 || localCount >= UINT32_MAX || spareCount > g.limit - localCount {
        FlushExcess(rest);
      }
    }

    /** The home path of memx_heap_route_small, and one turn of a drain: one block enters the hot segment. */
    method PushLocal(block: nat, ghost rest: multiset<nat>)
      requires Stored(rest + multiset{block}) && Settled()
      modifies this`link, this`meta, this`central, this`centralCount, this`chunks, this`segments
      modifies this`local, this`localTail, this`localCount, this`spare, this`spareTail, this`spareCount
      ensures Stored(rest) && Settled()
      ensures var r := Returned(g, old(segments), block); segments == r.kept && chunks == Given(r.flushed, old(chunks))
      ensures OnlyTouched(old(link), old(meta), link, meta, [block] + old(segments).spare)
    {
      hide BinStored, Distinct, Chain, Held, Flat, AtRest;
      ReturnedAtRest(g, segments, block);
      RestBounds(g, segments);
      Apart(segments, queue, chunks, rest + multiset{block}, block);
      ChainPush(link, local, segments.local, block);
      ChainFrame(link, spare, segments.spare, block, local);
      ChainFrame(link, remote, queue, block, local);
      BinFrame(link, link[block := local], meta, central, centralCount, chunks);
      EndsOf(link, local, segments.local);
      PushHeld(segments, queue, chunks, block, rest);
      if local == 0 { localTail := block; }
      link := link[block := local];
      local := block;
      localCount := localCount + 1;
      segments := segments.(local := [block] + segments.local);
      TrimCache(rest);
    }

    /** memx_heap_adopt_spare. */
    method AdoptSpare(ghost rest: multiset<nat>) returns (adopted: bool)
      requires Stored(rest) && segments.local == []
      modifies this`segments, this`local, this`localTail, this`localCount, this`spare, this`spareTail, this`spareCount
      ensures Stored(rest) && segments == Segments(old(segments).spare, [])
      ensures adopted <==> segments.local != []
    {
      hide BinStored, Distinct, Chain, Held, Flat;
      EndsOf(link, spare, segments.spare);
      EmptyChain(link);
      AdoptHeld(segments, queue, chunks);
      adopted := spare != 0;
      if adopted {
        local, localTail, localCount := spare, spareTail, spareCount;
        spare, spareTail, spareCount := 0, 0, 0;
        segments := Segments(segments.spare, []);
      }
    }

    /** memx_heap_drain_remote: takes the whole queue, then returns its blocks one by one. */
    method DrainRemote(ghost rest: multiset<nat>)
      requires Stored(rest) && Settled()
      modifies this`link, this`meta, this`central, this`centralCount, this`chunks, this`segments, this`queue
      modifies this`local, this`localTail, this`localCount, this`spare, this`spareTail, this`spareCount
      modifies this`remote, this`remoteCount
      ensures Stored(rest) && Settled() && queue == []
      ensures Bins(segments, chunks) == Drained(g, Bins(old(segments), old(chunks)), old(queue))
    {
      hide BinStored, Distinct, Chain, Held, Flat, AtRest, Returned;
      var block := remote;
      ghost var pending := queue;
      QueueTaken(segments, queue, chunks, rest);
      EmptyChain(link);
      remote, remoteCount := 0, 0;
      queue := [];
      while block != 0
        invariant Stored(rest + multiset(pending)) && Settled() && queue == [] && Chain(link, block, pending)
        invariant Drained(g, Bins(segments, chunks), pending) == Drained(g, Bins(old(segments), old(chunks)), old(queue))
        decreases |pending|
      {
        ChainPop(link, block, pending);
        var next := Link(link, block);
        ghost var others := pending[1..];
        PendingApart(segments, queue, chunks, rest, pending);
        ghost var before, beforeMeta, cold := link, meta, segments.spare;
        PushLocal(block, rest + multiset(others));
        assert forall b :: b in others ==> b !in [block] + cold;
        UntouchedLinks(before, beforeMeta, link, meta, [block] + cold, others);
        SameLinks(before, link, next, others);
        pending := others;
        block := next;
      }
      EndsOf(link, block, pending);
      assert rest + multiset(pending) == rest;
    }

    // ----- carving and refilling

    /** The loop of memx_heap_create_span_locked over the blocks of a claimed span. */
    method CarveSpan(span: seq<nat>, ghost rest: multiset<nat>)
      requires Stored(rest + multiset(span)) && g.Legal()
      modifies this`link, this`meta, this`central, this`centralCount, this`chunks
      ensures Stored(rest)
      ensures chunks == CarvedChunks(span, g.ChunkLimit(), old(chunks))
      ensures OnlyTouched(old(link), old(meta), link, meta, span)
    {
      hide BinStored, Distinct, Chain, Held, Flat, Reverse, Untouched, OnlyTouched;
      var limit := g.ChunkLimit();
      var chunkHead, chunkTail, chunkCount := 0, 0, 0;
      var index := 0;
      ghost var start := 0;
      assert span[0..] == span && span[0..0] == [] && Reverse([]) == [] by { ReverseEmpty(); }
      EmptyChain(link);
      TouchedNothing(link, meta, span);
      while index < |span|
        invariant 0 <= start <= index <= |span| && chunkCount == index - start < limit
        invariant Stored(rest + multiset(span[start..]))
        invariant Chain(link, chunkHead, Reverse(span[start..index])) && chunkTail == Head(span[start..index])
        invariant OnlyTouched(old(link), old(meta), link, meta, span)
        invariant CarvedChunks(span, limit, old(chunks)) == CarvedChunks(span[start..], limit, chunks)
      {
        var block := span[index];
        ghost var link0, meta0 := link, meta;
        LinkCarved(block, chunkHead, span, start, index, rest);
        TouchedTwice(old(link), old(meta), link0, meta0, link, meta, span);
        CarvedHead(span, start, index);
        chunkHead := block;
        if chunkTail == 0 { chunkTail := block; }
        chunkCount := chunkCount + 1;
        index := index + 1;
        if chunkCount == limit {
          ghost var link1, meta1 := link, meta;
          PushPiece(chunkHead, chunkTail, chunkCount, span, start, index, rest);
          TouchedTwice(old(link), old(meta), link1, meta1, link, meta, span);
          CarvedStep(span, start, index, limit, old(chunks), chunks);
          chunkHead, chunkTail, chunkCount := 0, 0, 0;
          start := index;
          EmptyChain(link);
          assert span[start..index] == [];
        }
      }
      if chunkCount != 0 {
        ghost var link1, meta1 := link, meta;
        PushPiece(chunkHead, chunkTail, chunkCount, span, start, index, rest);
        TouchedTwice(old(link), old(meta), link1, meta1, link, meta, span);
        assert span[start..] == span[start..index];
        CarvedStep(span, start, index, limit, old(chunks), chunks);
      }
      assert rest + multiset(span[index..]) == rest;
    }

    /** One turn of that loop: the block goes in front of the chain carved so far. */
    method LinkCarved(block: nat, head: nat, ghost span: seq<nat>, ghost start: nat, ghost index: nat, ghost rest: multiset<nat>)
      requires start <= index < |span| && block == span[index]
      requires Stored(rest + multiset(span[start..])) && Chain(link, head, Reverse(span[start..index]))
      modifies this`link
      ensures Stored(rest + multiset(span[start..])) && Chain(link, block, Reverse(span[start..index + 1])) && block != 0
      ensures Head(span[start..index]) == 0 <==> start == index
      ensures OnlyTouched(old(link), old(meta), link, meta, span)
    {
      hide BinStored, Distinct, Chain, Held, Flat, Reverse;
      CarvedApart(segments, queue, chunks, rest, span, start, index);
      ChainPush(link, head, Reverse(span[start..index]), block);
      ChainFrame(link, local, segments.local, block, head);
      ChainFrame(link, spare, segments.spare, block, head);
      ChainFrame(link, remote, queue, block, head);
      BinFrame(link, link[block := head], meta, central, centralCount, chunks);
      PieceGrows(span, start, index);
      link := link[block := head];
    }

    /** Pushes the chain carved from span[start..index]. */
    method PushPiece(head: nat, tail: nat, count: nat, ghost span: seq<nat>, ghost start: nat, ghost index: nat, ghost rest: multiset<nat>)
      requires start < index <= |span| && count == index - start && count <= UINT32_MAX
      requires Stored(rest + multiset(span[start..]))
      requires Chain(link, head, Reverse(span[start..index])) && tail == Head(span[start..index])
      modifies this`link, this`meta, this`central, this`centralCount, this`chunks
      ensures Stored(rest + multiset(span[index..]))
      ensures chunks == [Reverse(span[start..index])] + old(chunks)
      ensures OnlyTouched(old(link), old(meta), link, meta, span)
    {
      hide BinStored, Distinct, Chain, Held, Flat, Reverse;
      ghost var piece := Reverse(span[start..index]);
      ReverseEnds(span[start..index]);
      EndsOf(link, head, piece);
      CarvedApart(segments, queue, chunks, rest, span, start, start);
      CarvedApart(segments, queue, chunks, rest, span, start, index - 1);
      ChainFrame(link, head, piece, tail, 0);
      ChainFrame(link, local, segments.local, tail, 0);
      ChainFrame(link, spare, segments.spare, tail, 0);
      ChainFrame(link, remote, queue, tail, 0);
      PieceHeld(segments, queue, chunks, rest, span, start, index);
      PushCentralChunk(head, tail, count, piece);
    }

    /** The chunk on top of the central bin becomes the hot segment. */
    method TakeChunk(ghost rest: multiset<nat>)
      requires Stored(rest) && central != 0 && segments.local == []
      modifies this`link, this`central, this`centralCount, this`chunks, this`segments, this`local, this`localTail, this`localCount
      ensures Stored(rest) && old(chunks) != [] && forall b :: Link(link, b) == Link(old(link), b)
      ensures segments == old(segments).(local := old(chunks)[0]) && chunks == old(chunks)[1..] && segments.local != []
      ensures Held(segments, queue, chunks) == old(Held(segments, queue, chunks))
    {
      hide BinStored, Distinct, Chain, Held, Flat, Link, Last, Head, Word, Untouched, ChunkStored;
      TopChunk(link, meta, central, centralCount, chunks);
      SameLinks(link, link[Last(chunks[0]) := 0], spare, segments.spare);
      SameLinks(link, link[Last(chunks[0]) := 0], remote, queue);
      ChunkHeld(segments, queue, chunks);
      EndsOf(link, local, segments.local);
      ghost var s := chunks[0];
      var first := central;
      var tail := Word(meta.chunkTail, first);
      var moved := Word(meta.requested, first);
      central := Word(meta.chunkNext, first);
      link := link[tail := local];
      if local == 0 { localTail := tail; }
      centralCount := centralCount - moved;
      local := first;
      localCount := localCount + moved;
      segments, chunks := segments.(local := s), chunks[1..];
    }

    /** The critical section of memx_heap_refill; span is empty when the arena has nothing to give. */
    method RefillCentral(span: seq<nat>, ghost rest: multiset<nat>) returns (first: nat, ghost carved: bool)
      requires Stored(rest + multiset(span)) && Settled() && segments == Segments([], []) && queue == []
      modifies this
      ensures Stored(if carved then rest else rest + multiset(span)) && Within() && first == local
      ensures carved ==> span != []
      ensures Held(segments, queue, chunks) == old(Held(segments, queue, chunks)) + if carved then multiset(span) else multiset{}
      ensures first == 0 <==> segments.local == []
      ensures first == 0 ==> span == [] && Held(segments, queue, chunks) == multiset{}
    {
      hide BinStored, Distinct, Chain, Flat, AtRest, CarvedChunks, Held;
      carved := false;
      EndsOf(link, local, segments.local);
      BinEnds(link, meta, central, centralCount, chunks);
      if central == 0 && span == [] {
        EmptyHeld();
        return 0, false;
      }
      if central == 0 {
        CarveSpan(span, rest);
        CarvedAll(segments, queue, span, g.ChunkLimit(), g.Cap());
        carved := true;
        BinEnds(link, meta, central, centralCount, chunks);
      }
      TakeChunk(if carved then rest else rest + multiset(span));
      EndsOf(link, local, segments.local);
      first := local;
    }

    /** memx_heap_refill on an empty hot segment: the spare, the remote queue, then the central bin. */
    method Refill(span: seq<nat>, ghost rest: multiset<nat>) returns (first: nat, ghost carved: bool)
      requires Stored(rest + multiset(span)) && Settled() && segments.local == []
      modifies this
      ensures Stored(if carved then rest else rest + multiset(span)) && Within() && first == local
      ensures carved ==> span != []
      ensures Held(segments, queue, chunks) == old(Held(segments, queue, chunks)) + if carved then multiset(span) else multiset{}
      ensures first == 0 <==> segments.local == []
      ensures first == 0 ==> span == [] && Held(segments, queue, chunks) == multiset{}
    {
      hide BinStored, Distinct, Chain, Flat, AtRest, Drained, Held;
      carved := false;
      ghost var all := rest + multiset(span);
      WithinBounds(g, segments);
      AdoptHeld(segments, queue, chunks);
      var adopted := AdoptSpare(all);
      EndsOf(link, local, segments.local);
      if adopted { return local, false; }
      DrainedHeld(g, Bins(segments, chunks), queue);
      EmptyAtRest(g);
      DrainRemote(all);
      WithinBounds(g, segments);
      EndsOf(link, local, segments.local);
      if local == 0 {
        AdoptHeld(segments, queue, chunks);
        adopted := AdoptSpare(all);
        EndsOf(link, local, segments.local);
      }
      if local != 0 { return local, false; }
      EmptyAtRest(g);
      first, carved := RefillCentral(span, rest);
    }

    /** Bounds a refilled cache respects just before a block is handed out. */
    ghost predicate Within() reads this {
      && g.Legal() && |segments.local| <= g.Cap() && |segments.local| + |segments.spare| <= g.limit && |segments.spare| <= UINT32_MAX
      && forall i :: 0 <= i < |chunks| ==> |chunks[i]| <= g.Cap()
    }

    // ----- allocating and freeing

    /** Hands out the head of the hot segment: its link word becomes the owner, its count word the request. */
    method Pop(size: nat, owner: nat, ghost rest: multiset<nat>) returns (block: nat)
      requires Stored(rest) && local != 0
      modifies this`link, this`meta, this`segments, this`local, this`localTail, this`localCount
      ensures old(segments).local != [] && block == old(segments).local[0] && block != 0
      ensures segments == old(segments).(local := old(segments).local[1..])
      ensures Stored(rest + multiset{block}) && Link(link, block) == owner && Word(meta.requested, block) == size
      ensures Held(segments, queue, chunks) + multiset{block} == old(Held(segments, queue, chunks))
      ensures OnlyTouched(old(link), old(meta), link, meta, [block])
    {
      hide BinStored, Distinct, Chain, Held, Flat;
      ghost var s := segments.local;
      ChainPop(link, local, s);
      PopHeld(segments, queue, chunks, rest);
      block := local;
      PoppedApart(segments, queue, chunks, rest);
      var next := Link(link, block);
      EndsOf(link, next, s[1..]);
      LastOfTail(s);
      ChainFrame(link, next, s[1..], block, owner);
      ChainFrame(link, spare, segments.spare, block, owner);
      ChainFrame(link, remote, queue, block, owner);
      BinFrame(link, link[block := owner], meta, central, centralCount, chunks);
      BinMetaFrame(link[block := owner], meta, central, centralCount, chunks, block, size);
      local := next;
      if next == 0 { localTail := 0; }
      localCount := localCount - 1;
      link := link[block := owner];
      meta := meta.(requested := meta.requested[block := size]);
      segments := segments.(local := s[1..]);
    }

    /**
     memx_heap_allocate_small: hands out a block the lists held, or one of a newly carved span;
     fails only when every list is empty and the arena gave nothing.
     */
    method AllocateSmall(size: nat, owner: nat, span: seq<nat>, ghost rest: multiset<nat>) returns (block: nat, ghost carved: bool)
      requires Stored(rest + multiset(span)) && Settled()
      modifies this
      ensures Settled()
      ensures block == 0 ==> span == [] && old(Held(segments, queue, chunks)) == multiset{} && Stored(rest)
      ensures block != 0 ==>
                && Stored((if carved then rest else rest + multiset(span)) + multiset{block})
                && Link(link, block) == owner && Word(meta.requested, block) == size
                && Held(segments, queue, chunks) + multiset{block}
                   == old(Held(segments, queue, chunks)) + if carved then multiset(span) else multiset{}
      ensures old(segments).local != [] ==>
                block == old(segments).local[0] && segments == old(segments).(local := old(segments).local[1..])
                && queue == old(queue) && chunks == old(chunks)
    {
      hide BinStored, Distinct, Chain, Flat, AtRest, Held;
      WithinBounds(g, segments);
      EndsOf(link, local, segments.local);
      carved := false;
      block := local;
      if block == 0 {
        block, carved := Refill(span, rest);
        EndsOf(link, local, segments.local);
        if block == 0 {
          assert rest + multiset(span) == rest;
          FailedAtRest(g, segments, queue, chunks);
          return 0, false;
        }
      }
      TakenAtRest(g, segments);
      block := Pop(size, owner, if carved then rest else rest + multiset(span));
    }

    /** The remote path of memx_heap_route_small, under the owner's remote lock. */
    method PushRemote(block: nat, ghost rest: multiset<nat>)
      requires Stored(rest + multiset{block})
      modifies this`link, this`remote, this`remoteCount, this`queue
      ensures Stored(rest) && queue == [block] + old(queue) && forall b :: b != block ==> Link(link, b) == Link(old(link), b)
    {
      hide BinStored, Distinct, Chain, Held, Flat;
      Apart(segments, queue, chunks, rest + multiset{block}, block);
      ChainPush(link, remote, queue, block);
      ChainFrame(link, local, segments.local, block, remote);
      ChainFrame(link, spare, segments.spare, block, remote);
      BinFrame(link, link[block := remote], meta, central, centralCount, chunks);
      QueueHeld(segments, queue, chunks, block, rest);
      link := link[block := remote];
      remote := block;
      remoteCount := remoteCount + 1;
      queue := [block] + queue;
    }

    // ----- detaching

    /** One of the two loops of a detach over a class: every block of a chain becomes a chunk of its own. */
    method SurrenderChain(first: nat, ghost s: seq<nat>, ghost rest: multiset<nat>)
      requires CentralStored() && Chain(link, first, s) && Distinct(multiset(s) + multiset(Flat(chunks)) + rest)
      modifies this`link, this`meta, this`central, this`centralCount, this`chunks
      ensures CentralStored() && chunks == Singles(s, old(chunks))
      ensures Distinct(multiset(Flat(chunks)) + rest) && multiset(Flat(chunks)) == multiset(s) + multiset(Flat(old(chunks)))
      ensures OnlyTouched(old(link), old(meta), link, meta, s)
    {
      hide BinStored, Distinct, Chain, Flat;
      var block := first;
      ghost var left := s;
      ghost var all := multiset(s) + multiset(Flat(chunks));
      while block != 0
        invariant CentralStored() && Chain(link, block, left) && Singles(s, old(chunks)) == Singles(left, chunks)
        invariant multiset(left) + multiset(Flat(chunks)) == all
        invariant forall b :: b in left ==> b in s
        invariant OnlyTouched(old(link), old(meta), link, meta, s)
        decreases |left|
      {
        ChainPop(link, block, left);
        var next := Link(link, block);
        SingleApart(chunks, left, rest);
        SingleMoved(chunks, left);
        SingleChain(link, block);
        ghost var before, beforeMeta := link, meta;
        PushCentralChunk(block, block, 1, [block]);
        TouchedMore(before, beforeMeta, link, meta, [block, block], s);
        TouchedTwice(old(link), old(meta), before, beforeMeta, link, meta, s);
        SameLinks(before, link, next, left[1..]);
        left := left[1..];
        block := next;
      }
      EndsOf(link, block, left);
      assert multiset(left) + multiset(Flat(chunks)) == multiset(Flat(chunks));
    }

    /** The first loop of memx_heap_thread_detach: remote blocks move to the hot list, whose tail is no longer kept. */
    method RecallRemote(ghost rest: multiset<nat>)
      requires Chain(link, local, segments.local) && localCount == |segments.local| && SpareStored() && QueueStored() && CentralStored()
      requires Distinct(Held(segments, queue, chunks) + rest)
      modifies this`link, this`segments, this`queue, this`local, this`localCount, this`remote, this`remoteCount
      ensures Chain(link, local, segments.local) && SpareStored() && QueueStored() && CentralStored()
      ensures Distinct(Held(segments, queue, chunks) + rest)
      ensures segments == Segments(Reverse(old(queue)) + old(segments).local, old(segments).spare) && queue == []
      ensures Held(segments, queue, chunks) == old(Held(segments, queue, chunks)) && localCount == |segments.local|
      ensures forall b :: b !in old(queue) ==> Link(link, b) == Link(old(link), b)
    {
      hide BinStored, Distinct, Chain, Flat, Reverse, Held;
      var block := remote;
      ghost var hot, left, cold := segments.local, queue, segments.spare;
      while block != 0
        invariant Chain(link, block, left) && Chain(link, local, hot) && SpareStored() && CentralStored()
        invariant Held(Segments(hot, cold), left, chunks) == Held(segments, queue, chunks)
        invariant Reverse(queue) + segments.local == Reverse(left) + hot
        invariant segments == old(segments) && queue == old(queue) && localCount == |hot|
        invariant forall b :: b in left ==> b in queue
        invariant forall b :: b !in queue ==> Link(link, b) == Link(old(link), b)
        decreases |left|
      {
        ChainPop(link, block, left);
        var next := Link(link, block);
        RecallMoved(hot, cold, left, chunks, rest);
        ReverseHead(left, hot);
        ChainPush(link, local, hot, block);
        ChainFrame(link, next, left[1..], block, local);
        ChainFrame(link, spare, cold, block, local);
        BinFrame(link, link[block := local], meta, central, centralCount, chunks);
        link := link[block := local];
        local := block;
        localCount := localCount + 1;
        hot := [block] + hot;
        left := left[1..];
        block := next;
      }
      EndsOf(link, block, left);
      ReverseEmpty();
      EmptyChain(link);
      remote, remoteCount := 0, 0;
      segments, queue := Segments(hot, cold), [];
    }

    /** memx_heap_thread_detach for one class: the remote queue, the hot segment and the spare all go to the bin. */
    method DetachClass(ghost rest: multiset<nat>)
      requires Stored(rest)
      modifies this
      ensures Stored(rest) && segments == Segments([], []) && queue == []
      ensures Held(segments, queue, chunks) == old(Held(segments, queue, chunks))
      ensures chunks == Singles(old(segments).spare, Singles(Reverse(old(queue)) + old(segments).local, old(chunks)))
    {
      hide BinStored, Distinct, Chain, Flat, Singles, Reverse, Held;
      RecallRemote(rest);
      EndsOf(link, remote, queue);
      SurrenderClass(rest);
    }

    /** The second loop of memx_heap_thread_detach for one class: both segments go to the bin and are cleared. */
    method SurrenderClass(ghost rest: multiset<nat>)
      requires Chain(link, local, segments.local) && Chain(link, spare, segments.spare) && QueueStored() && CentralStored()
      requires queue == [] && Distinct(Held(segments, queue, chunks) + rest)
      modifies this`link, this`meta, this`central, this`centralCount, this`chunks, this`segments
      modifies this`local, this`localTail, this`localCount, this`spare, this`spareTail, this`spareCount
      ensures Stored(rest) && segments == Segments([], [])
      ensures Held(segments, queue, chunks) == old(Held(segments, queue, chunks))
      ensures chunks == Singles(old(segments).spare, Singles(old(segments).local, old(chunks)))
      ensures OnlyTouched(old(link), old(meta), link, meta, old(segments).local + old(segments).spare)
    {
      hide BinStored, Distinct, Chain, Flat, Singles, Held, OnlyTouched;
      EndsOf(link, remote, queue);
      SurrenderSegments(rest);
      local, localTail, localCount := 0, 0, 0;
      spare, spareTail, spareCount := 0, 0, 0;
      segments := Segments([], []);
      EmptyChain(link);
      OnlyChunks(chunks);
    }

    /** Both loops over one class; the segments themselves are cleared afterwards. */
    method SurrenderSegments(ghost rest: multiset<nat>)
      requires Chain(link, local, segments.local) && Chain(link, spare, segments.spare) && CentralStored() && queue == []
      requires Distinct(Held(segments, queue, chunks) + rest)
      modifies this`link, this`meta, this`central, this`centralCount, this`chunks
      ensures CentralStored() && Distinct(multiset(Flat(chunks)) + rest)
      ensures multiset(Flat(chunks)) == old(Held(segments, queue, chunks))
      ensures chunks == Singles(segments.spare, Singles(segments.local, old(chunks)))
      ensures OnlyTouched(old(link), old(meta), link, meta, segments.local + segments.spare)
    {
      hide BinStored, Distinct, Chain, Flat, Singles, Held;
      ghost var hot, cold, before, flat0 := segments.local, segments.spare, link, multiset(Flat(chunks));
      DetachSplit(hot, cold, chunks, rest);
      SurrenderChain(local, hot, multiset(cold) + rest);
      SameLinks(before, link, spare, cold);
      ghost var flat1 := multiset(Flat(chunks));
      Regroup(multiset(hot), multiset(cold), flat0, flat1, rest);
      SurrenderChain(spare, cold, rest);
    }
  }

  /** One chunk per block, in the order they are pushed. */
  function Singles(s: seq<nat>, chunks: seq<seq<nat>>): seq<seq<nat>>
    decreases |s|
  {
    if s == [] then chunks else Singles(s[1..], [[s[0]]] + chunks)
  }

  lemma PopHeld(s: Segments, queue: seq<nat>, chunks: seq<seq<nat>>, rest: multiset<nat>)
    requires s.local != []
    ensures Held(s.(local := s.local[1..]), queue, chunks) + multiset{s.local[0]} == Held(s, queue, chunks)
    ensures Held(s.(local := s.local[1..]), queue, chunks) + (rest + multiset{s.local[0]}) == Held(s, queue, chunks) + rest
  {
    assert s.local == [s.local[0]] + s.local[1..];
  }

  lemma PoppedApart(s: Segments, queue: seq<nat>, chunks: seq<seq<nat>>, rest: multiset<nat>)
    requires s.local != [] && Distinct(Held(s, queue, chunks) + rest)
    ensures var b := s.local[0];
            b !in s.local[1..] && b !in s.spare && b !in queue && b !in Flat(chunks)
  {
    PopHeld(s, queue, chunks, rest);
    var b := s.local[0];
    Apart(s.(local := s.local[1..]), queue, chunks, rest + multiset{b}, b);
  }

  lemma LastOfTail(s: seq<nat>)
    requires s != []
    ensures s[1..] != [] ==> Last(s[1..]) == Last(s)
  {
  }

  lemma BinMetaFrame(link: map<nat, nat>, meta: Metadata, central: nat, count: nat, chunks: seq<seq<nat>>, b: nat, size: nat)
    requires BinStored(link, meta, central, count, chunks) && b !in Flat(chunks)
    ensures BinStored(link, meta.(requested := meta.requested[b := size]), central, count, chunks)
  {
    var meta' := meta.(requested := meta.requested[b := size]);
    forall i: nat | i < |chunks|
      ensures ChunkStored(link, meta', chunks, i)
    {
      assert ChunkStored(link, meta, chunks, i);
      FlatMember(chunks, i, chunks[i][0]);
    }
  }

  lemma FailedAtRest(g: Limits, s: Segments, queue: seq<nat>, chunks: seq<seq<nat>>)
    requires g.Legal() && Held(s, queue, chunks) == multiset{}
    ensures AtRest(g, s)
  {
    assert |Held(s, queue, chunks)| == |s.local| + |s.spare| + |queue| + |Flat(chunks)|;
  }

  lemma QueueHeld(s: Segments, queue: seq<nat>, chunks: seq<seq<nat>>, b: nat, rest: multiset<nat>)
    ensures Held(s, [b] + queue, chunks) + rest == Held(s, queue, chunks) + (rest + multiset{b})
  {
  }

  lemma SingleChain(link: map<nat, nat>, b: nat)
    requires b != 0
    ensures Chain(link[b := 0], b, [b])
  {
  }

  lemma SingleApart(chunks: seq<seq<nat>>, left: seq<nat>, rest: multiset<nat>)
    requires left != [] && Distinct(multiset(left) + multiset(Flat(chunks)) + rest)
    ensures left[0] != 0 && left[0] !in Flat(chunks) && left[0] !in left[1..]
    ensures forall b :: b in left[1..] ==> b != left[0]
  {
    var b := left[0];
    assert left == [b] + left[1..];
    var m := multiset(left) + multiset(Flat(chunks)) + rest;
    assert m[b] <= 1 && m[b] == 1 + multiset(left[1..])[b] + multiset(Flat(chunks))[b] + rest[b];
  }

  lemma SingleMoved(chunks: seq<seq<nat>>, left: seq<nat>)
    requires left != []
    ensures multiset(left[1..]) + multiset(Flat([[left[0]]] + chunks)) == multiset(left) + multiset(Flat(chunks))
    ensures forall b :: b in left[1..] ==> b in left
    ensures left[0] in left
  {
    FlatPush(chunks, [left[0]]);
    assert left == [left[0]] + left[1..];
  }

  lemma RecallMoved(hot: seq<nat>, cold: seq<nat>, left: seq<nat>, chunks: seq<seq<nat>>, rest: multiset<nat>)
    requires left != [] && Distinct(Held(Segments(hot, cold), left, chunks) + rest)
    ensures var b := left[0];
            b != 0 && b !in left[1..] && b !in hot && b !in cold && b !in Flat(chunks)
    ensures Held(Segments([left[0]] + hot, cold), left[1..], chunks) == Held(Segments(hot, cold), left, chunks)
  {
    var b := left[0];
    assert left == [b] + left[1..];
    var m := Held(Segments(hot, cold), left, chunks) + rest;
    assert m[b] <= 1;
    assert m[b] == multiset(hot)[b] + multiset(cold)[b] + 1 + multiset(left[1..])[b] + multiset(Flat(chunks))[b] + rest[b];
  }

  lemma Regroup(hot: multiset<nat>, cold: multiset<nat>, flat0: multiset<nat>, flat1: multiset<nat>, rest: multiset<nat>)
    requires flat1 == hot + flat0
    ensures flat1 + (cold + rest) == cold + flat1 + rest
    ensures cold + flat1 == hot + cold + flat0
  {
  }

  lemma OnlyChunks(chunks: seq<seq<nat>>)
    ensures Held(Segments([], []), [], chunks) == multiset(Flat(chunks))
  {
  }

  lemma ReverseHead(left: seq<nat>, hot: seq<nat>)
    requires left != []
    ensures Reverse(left) + hot == Reverse(left[1..]) + ([left[0]] + hot)
  {
  }

  lemma DetachSplit(hot: seq<nat>, cold: seq<nat>, chunks: seq<seq<nat>>, rest: multiset<nat>)
    requires Distinct(Held(Segments(hot, cold), [], chunks) + rest)
    ensures Held(Segments(hot, cold), [], chunks) == multiset(hot) + multiset(cold) + multiset(Flat(chunks))
    ensures Distinct(multiset(hot) + multiset(Flat(chunks)) + (multiset(cold) + rest))
    ensures forall b :: b in cold ==> b !in hot
  {
    var m := multiset(hot) + multiset(Flat(chunks)) + (multiset(cold) + rest);
    assert Held(Segments(hot, cold), [], chunks) + rest == m;
    forall b | b in cold
      ensures b !in hot
    {
      assert m[b] <= 1 && m[b] == multiset(hot)[b] + multiset(Flat(chunks))[b] + multiset(cold)[b] + rest[b];
      assert multiset(cold)[b] > 0;
    }
  }

  /** Reading the top chunk from its head block; rewriting its null tail link changes nothing. */
  lemma TopChunk(link: map<nat, nat>, meta: Metadata, central: nat, count: nat, chunks: seq<seq<nat>>)
    requires BinStored(link, meta, central, count, chunks) && central != 0
    ensures chunks != [] && chunks[0] != [] && central == chunks[0][0] && count >= |chunks[0]|
    ensures Word(meta.requested, central) == |chunks[0]| && Word(meta.chunkTail, central) == Last(chunks[0])
    ensures var link' := link[Last(chunks[0]) := 0];
            && Chain(link', central, chunks[0])
            && BinStored(link', meta, Word(meta.chunkNext, central), count - |chunks[0]|, chunks[1..])
            && (forall c :: Link(link', c) == Link(link, c))
  {
    hide BinStored;
    BinPop(link, meta, central, count, chunks);
    var tail := Last(chunks[0]);
    var link' := link[tail := 0];
    SameWrite(link, tail, 0);
    ChainFrame(link, central, chunks[0], tail, 0);
    BinFrame(link, link', meta, Word(meta.chunkNext, central), count - |chunks[0]|, chunks[1..]);
  }

  lemma SameWrite(link: map<nat, nat>, b: nat, x: nat)
    requires Link(link, b) == x
    ensures forall c :: Link(link[b := x], c) == Link(link, c)
  {
  }

  lemma ChunkHeld(s: Segments, queue: seq<nat>, chunks: seq<seq<nat>>)
    requires chunks != [] && s.local == []
    ensures Held(s.(local := chunks[0]), queue, chunks[1..]) == Held(s, queue, chunks)
  {
  }

  lemma BinEnds(link: map<nat, nat>, meta: Metadata, central: nat, count: nat, chunks: seq<seq<nat>>)
    requires BinStored(link, meta, central, count, chunks)
    ensures central == 0 <==> chunks == []
  {
    if chunks != [] {
      assert ChunkStored(link, meta, chunks, 0);
      EndsOf(link, chunks[0][0], chunks[0]);
    }
  }

  lemma WithinBounds(g: Limits, s: Segments)
    requires g.Legal() && AtRest(g, s)
    ensures |s.local| <= g.Cap() && |s.spare| <= g.Cap() && |s.local| + |s.spare| <= g.limit && |s.spare| <= UINT32_MAX
  {
  }

  lemma EmptyAtRest(g: Limits)
    requires g.Legal()
    ensures AtRest(g, Segments([], []))
  {
  }

  lemma EmptyHeld()
    ensures Held(Segments([], []), [], []) == multiset{}
  {
  }

  /** Draining a queue moves its blocks and keeps all others. */
  lemma {:induction false} DrainedHeld(g: Limits, bins: Bins, queue: seq<nat>)
    ensures Held(Drained(g, bins, queue).segments, [], Drained(g, bins, queue).chunks) == Held(bins.segments, queue, bins.chunks)
    decreases |queue|
  {
    if queue != [] {
      var r := Returned(g, bins.segments, queue[0]);
      var next := Bins(r.kept, Given(r.flushed, bins.chunks));
      DrainedHeld(g, next, queue[1..]);
      ReturnedKeeps(g, bins.segments, queue[0]);
      FlatPush(bins.chunks, r.flushed);
      assert queue == [queue[0]] + queue[1..];
    }
  }

  lemma {:induction false} CarvedHeld(blocks: seq<nat>, n: nat, chunks: seq<seq<nat>>)
    requires n >= 1
    ensures multiset(Flat(CarvedChunks(blocks, n, chunks))) == multiset(blocks) + multiset(Flat(chunks))
    ensures blocks != [] || chunks != [] ==> CarvedChunks(blocks, n, chunks) != []
    decreases |blocks|
  {
    hide Reverse;
    if blocks != [] {
      var size := if n < |blocks| then n else |blocks|;
      var chunk := Reverse(blocks[..size]);
      CarvedHeld(blocks[size..], n, [chunk] + chunks);
      FlatPush(chunks, chunk);
      ReverseSame(blocks[..size]);
      assert blocks == blocks[..size] + blocks[size..];
      assert CarvedChunks(blocks, n, chunks) == CarvedChunks(blocks[size..], n, [chunk] + chunks);
    }
  }

  lemma CarvedAll(s: Segments, queue: seq<nat>, span: seq<nat>, n: nat, cap: nat)
    requires 1 <= n <= cap && span != []
    ensures var all := CarvedChunks(span, n, []);
            && Held(s, queue, all) == Held(s, queue, []) + multiset(span)
            && all != [] && forall i :: 0 <= i < |all| ==> |all[i]| <= cap
  {
    hide CarvedChunks;
    CarvedHeld(span, n, []);
    CarvedWithin(span, n, cap, []);
  }

  lemma {:induction false} CarvedWithin(blocks: seq<nat>, n: nat, cap: nat, chunks: seq<seq<nat>>)
    requires 1 <= n <= cap && forall i :: 0 <= i < |chunks| ==> |chunks[i]| <= cap
    ensures var all := CarvedChunks(blocks, n, chunks); forall i :: 0 <= i < |all| ==> |all[i]| <= cap
    decreases |blocks|
  {
    if blocks != [] {
      var size := if n < |blocks| then n else |blocks|;
      var chunk := Reverse(blocks[..size]);
      var more := [chunk] + chunks;
      assert |chunk| <= cap;
      forall i | 0 <= i < |more|
        ensures |more[i]| <= cap
      {
        if i > 0 { assert more[i] == chunks[i - 1]; }
      }
      CarvedWithin(blocks[size..], n, cap, more);
      assert CarvedChunks(blocks, n, chunks) == CarvedChunks(blocks[size..], n, more);
    }
  }

  /** The chunks of a carved span on top of a bin; the blocks of a chunk end up in reverse order. */
  function CarvedChunks(blocks: seq<nat>, n: nat, chunks: seq<seq<nat>>): seq<seq<nat>>
    requires n >= 1
    decreases |blocks|
  {
    if blocks == [] then chunks
    else
      var size := if n < |blocks| then n else |blocks|;
      CarvedChunks(blocks[size..], n, [Reverse(blocks[..size])] + chunks)
  }

  lemma CarvedStep(span: seq<nat>, start: nat, index: nat, n: nat, before: seq<seq<nat>>, chunks: seq<seq<nat>>)
    requires start < index <= |span| && index - start <= n && (index - start == n || index == |span|)
    requires chunks != [] && chunks[0] == Reverse(span[start..index])
    requires n >= 1 && CarvedChunks(span, n, before) == CarvedChunks(span[start..], n, chunks[1..])
    ensures CarvedChunks(span, n, before) == CarvedChunks(span[index..], n, chunks)
  {
    var blocks := span[start..];
    var size := if n < |blocks| then n else |blocks|;
    assert size == index - start && blocks[..size] == span[start..index] && blocks[size..] == span[index..];
    assert [chunks[0]] + chunks[1..] == chunks;
  }

  lemma ReverseEmpty()
    ensures Reverse([]) == []
  {
  }

  lemma {:induction false} ReverseEnds(s: seq<nat>)
    requires s != []
    ensures Last(Reverse(s)) == s[0] && Reverse(s) != [] && |Reverse(s)| == |s|
    ensures Reverse(s)[0] == s[|s| - 1]
  {
    if |s| > 1 {
      ReverseEnds(s[1..]);
      assert Reverse(s)[0] == Reverse(s[1..])[0];
    }
  }

  lemma {:induction false} ReverseGrows(s: seq<nat>, b: nat)
    ensures Reverse(s + [b]) == [b] + Reverse(s)
  {
    if s == [] {
      assert s + [b] == [b];
    } else {
      ReverseGrows(s[1..], b);
      assert (s + [b])[1..] == s[1..] + [b];
    }
  }

  lemma PieceGrows(span: seq<nat>, start: nat, index: nat)
    requires start <= index < |span|
    ensures span[start..index + 1] == span[start..index] + [span[index]]
    ensures Reverse(span[start..index + 1]) == [span[index]] + Reverse(span[start..index])
    ensures Head(span[start..index + 1]) == if start == index then span[index] else Head(span[start..index])
  {
    ReverseGrows(span[start..index], span[index]);
    assert span[start..index + 1] == span[start..index] + [span[index]];
  }

  lemma CarvedHead(span: seq<nat>, start: nat, index: nat)
    requires start <= index < |span|
    ensures Head(span[start..index + 1]) == if start == index then span[index] else Head(span[start..index])
  {
  }

  /** A block of a span still being carved is in no list and not among the blocks before it. */
  lemma CarvedApart(s: Segments, queue: seq<nat>, chunks: seq<seq<nat>>, rest: multiset<nat>, span: seq<nat>, start: nat, i: nat)
    requires start <= i < |span| && Distinct(Held(s, queue, chunks) + (rest + multiset(span[start..])))
    ensures span[i] != 0 && span[i] !in s.local && span[i] !in s.spare && span[i] !in queue && span[i] !in Flat(chunks)
    ensures span[i] !in span[start..i] && span[i] !in Reverse(span[start..i])
    ensures Head(span[start..i]) == 0 <==> start == i
  {
    var all := span[start..];
    assert all[i - start] == span[i];
    assert span[i] in all;
    Apart(s, queue, chunks, rest + multiset(all), span[i]);
    assert all == span[start..i] + ([span[i]] + span[i + 1..]);
    assert multiset(all)[span[i]] == multiset(span[start..i])[span[i]] + 1 + multiset(span[i + 1..])[span[i]];
    assert (Held(s, queue, chunks) + (rest + multiset(all)))[span[i]] <= 1;
    if start < i {
      assert span[start] == all[0] && all[0] in all;
      Apart(s, queue, chunks, rest + multiset(all), span[start]);
    }
  }

  lemma {:induction false} ReverseSame(s: seq<nat>)
    ensures multiset(Reverse(s)) == multiset(s)
  {
    if s != [] {
      ReverseSame(s[1..]);
      assert s == [s[0]] + s[1..];
    }
  }

  lemma PieceHeld(s: Segments, queue: seq<nat>, chunks: seq<seq<nat>>, rest: multiset<nat>, span: seq<nat>, start: nat, index: nat)
    requires start <= index <= |span|
    ensures Held(s, queue, [Reverse(span[start..index])] + chunks) + (rest + multiset(span[index..]))
            == Held(s, queue, chunks) + (rest + multiset(span[start..]))
  {
    FlatPush(chunks, Reverse(span[start..index]));
    ReverseSame(span[start..index]);
    assert span[start..] == span[start..index] + span[index..];
  }

  /** A segment given to the bin, if there is one. */
  function Given(flushed: seq<nat>, chunks: seq<seq<nat>>): seq<seq<nat>> { if flushed == [] then chunks else [flushed] + chunks }

  datatype Bins = Bins(segments: Segments, chunks: seq<seq<nat>>)

  /** The segments and the bin after a queue is returned from its head on. */
  function Drained(g: Limits, bins: Bins, queue: seq<nat>): Bins
    decreases |queue|
  {
    if queue == [] then bins
    else
      var r := Returned(g, bins.segments, queue[0]);
      Drained(g, Bins(r.kept, Given(r.flushed, bins.chunks)), queue[1..])
  }

  lemma RestBounds(g: Limits, s: Segments)
    requires AtRest(g, s)
    ensures |s.spare| <= UINT32_MAX
  {
  }

  lemma PushHeld(s: Segments, queue: seq<nat>, chunks: seq<seq<nat>>, b: nat, rest: multiset<nat>)
    ensures Held(s.(local := [b] + s.local), queue, chunks) + rest == Held(s, queue, chunks) + (rest + multiset{b})
  {
  }

  lemma AdoptHeld(s: Segments, queue: seq<nat>, chunks: seq<seq<nat>>)
    requires s.local == []
    ensures Held(Segments(s.spare, []), queue, chunks) == Held(s, queue, chunks)
  {
  }

  lemma QueueTaken(s: Segments, queue: seq<nat>, chunks: seq<seq<nat>>, rest: multiset<nat>)
    ensures Held(s, [], chunks) + (rest + multiset(queue)) == Held(s, queue, chunks) + rest
  {
  }

  /** Blocks still pending are in no list, and the first of them is not among the others. */
  lemma PendingApart(s: Segments, queue: seq<nat>, chunks: seq<seq<nat>>, rest: multiset<nat>, pending: seq<nat>)
    requires pending != [] && Distinct(Held(s, queue, chunks) + (rest + multiset(pending)))
    ensures rest + multiset(pending) == (rest + multiset(pending[1..])) + multiset{pending[0]}
    ensures forall b :: b in pending[1..] ==> b != pending[0] && b !in s.spare
  {
    assert pending == [pending[0]] + pending[1..];
    forall b | b in pending[1..]
      ensures b != pending[0] && b !in s.spare
    {
      Apart(s, queue, chunks, rest + multiset(pending), b);
      assert multiset(pending)[b] == multiset{pending[0]}[b] + multiset(pending[1..])[b];
      assert multiset(pending[1..])[b] >= 1;
      assert (Held(s, queue, chunks) + (rest + multiset(pending)))[b] <= 1;
    }
  }

  lemma SameLinks(link: map<nat, nat>, link': map<nat, nat>, head: nat, s: seq<nat>)
    requires Chain(link, head, s) && forall b :: b in s ==> Link(link', b) == Link(link, b)
    ensures Chain(link', head, s)
  {
  }

  lemma EndsOf(link: map<nat, nat>, head: nat, s: seq<nat>)
    requires Chain(link, head, s)
    ensures (head == 0 <==> s == []) && (Last(s) == 0 <==> s == [])
    ensures s != [] ==> head in s && Last(s) in s && head == s[0] && Link(link, Last(s)) == 0
  {
  }

  lemma LinkCut(link: map<nat, nat>, tail: nat, s: seq<nat>)
    requires tail in s
    ensures forall b :: b !in s ==> Link(link[tail := 0], b) == Link(link, b)
  {
  }

  lemma EmptyChain(link: map<nat, nat>)
    ensures Chain(link, 0, []) && Last([]) == 0 && Head([]) == 0
  {
  }

  lemma FlushHeld(s: Segments, queue: seq<nat>, chunks: seq<seq<nat>>)
    ensures Held(Segments([], s.local), queue, Given(s.spare, chunks)) == Held(s, queue, chunks)
  {
    FlatPush(chunks, s.spare);
  }
}
