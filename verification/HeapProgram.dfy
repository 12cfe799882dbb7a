/**
 The heap as a program over its words. A thread reads and writes link words, heads, tails,
 counts and its own position; after any run by any threads the words still describe exactly
 the lists of the transition system.
 */
module HeapProgram {
  import opened CacheSegments
  import opened HeapPools
  import opened HeapMemory
  import opened HeapMoves
  import opened HeapSteps
  import opened HeapFrame
  import opened HeapSafety
  import opened HeapRuns
  import opened HeapViews
  import opened HeapLayout
  import L = HeapLists

  /** A block held by the application, or by a thread that is freeing it. */
  ghost predicate Outside(m: Memory, b: nat) { b in In(m, Live) || exists t: nat :: b in In(m, Hand(t)) }

  /** The link word of such a block names its owner. */
  ghost predicate OwnersStored(link: map<nat, nat>, m: Memory, owner: map<nat, nat>) {
    forall b :: Outside(m, b) ==> b in owner && L.Link(link, b) == owner[b]
  }

  function LooseOf(caches: map<nat, CacheInfo>): set<nat> { set c | c in caches && !caches[c].accepting }

  ghost predicate LiveStored(l: Layout, m: Memory) { forall b :: b in l.live <==> b in In(m, Live) }

  /** The words of the heap describe its lists, who owns what, and which blocks are live. */
  ghost predicate LayoutAt(l: Layout, m: Memory, owner: map<nat, nat>, loose: set<nat>) {
    Core(l, m, loose) && TakenOk(l, m) && LiveStored(l, m) && OwnersStored(l.link, m, owner)
  }

  ghost predicate LayoutOk(l: Layout, s: State) { LayoutAt(l, s.m, s.owner, LooseOf(s.caches)) }

  // ----- frames

  /** The lists of other places are not written to. */
  lemma Elsewhere(l: Layout, next: Layout, m: Memory, c: nat, k: nat, from: Place, blocks: seq<nat>)
    requires Sound(m) && L.OnlyTouched(l.link, l.meta, next.link, next.meta, blocks) && Within(m, c, k, from, blocks)
    ensures forall p: Place, b :: (p.Live? || p.Hand? || p.Taken?) && p != from && b in In(m, p) ==> L.Link(next.link, b) == L.Link(l.link, b)
  {
    hide Sound, Within, L.Link;
    forall p: Place, b | (p.Live? || p.Hand? || p.Taken?) && p != from && b in In(m, p)
      ensures L.Link(next.link, b) == L.Link(l.link, b)
    {
      ListUntouched(m, c, k, from, blocks, p);
      assert L.Untouched(l.link, l.meta, next.link, next.meta, b);
    }
  }

  /** A move that keeps the taken chains and puts no block of its own outside keeps the layout. */
  lemma Framed(l: Layout, next: Layout, m: Memory, m': Memory, owner: map<nat, nat>, loose: set<nat>, loose': set<nat>,
               c: nat, k: nat, from: Place, blocks: seq<nat>)
    requires LayoutAt(l, m, owner, loose) && Core(next, m', loose') && Sound(m) && !from.Taken?
    requires L.OnlyTouched(l.link, l.meta, next.link, next.meta, blocks) && Within(m, c, k, from, blocks)
    requires next.taken == l.taken && next.live == l.live && In(m', Live) == In(m, Live)
    requires forall t: nat, j: nat :: In(m', Taken(t, j)) == In(m, Taken(t, j))
    requires forall t: nat :: In(m', Hand(t)) == if Hand(t) == from then [] else In(m, Hand(t))
    requires from.Live? ==> forall b :: b in blocks ==> b !in In(m, Live)
    ensures LayoutAt(next, m', owner, loose')
  {
    hide Sound, Within, L.OnlyTouched, L.Link, Core, L.Chain;
    var source := if from.Live? then Chunk(0) else from;
    NotLive(m, c, k, from, blocks, source);
    Elsewhere(l, next, m, c, k, source, blocks);
    TakenStays(l, next, m, m');
  }

  /** Nothing comes from the application: any place without blocks of the move will do as its source. */
  lemma NotLive(m: Memory, c: nat, k: nat, from: Place, blocks: seq<nat>, source: Place)
    requires Within(m, c, k, from, blocks) && (from.Live? ==> forall b :: b in blocks ==> b !in In(m, Live))
    requires source == from || from.Live?
    ensures Within(m, c, k, source, blocks)
  {
    hide InView;
  }

  lemma TakenStays(l: Layout, next: Layout, m: Memory, m': Memory)
    requires TakenOk(l, m) && next.taken == l.taken
    requires forall t: nat, j: nat, b :: b in In(m, Taken(t, j)) ==> L.Link(next.link, b) == L.Link(l.link, b)
    requires forall t: nat, j: nat :: In(m', Taken(t, j)) == In(m, Taken(t, j))
    ensures TakenOk(next, m')
  {
    hide L.Chain, L.Link;
    forall t: nat, j: nat
      ensures L.Chain(next.link, TakenWord(next, t, j), In(m', Taken(t, j)))
    {
      L.SameLinks(l.link, next.link, TakenWord(l, t, j), In(m, Taken(t, j)));
    }
  }

  /** The words say which lists are empty. */
  lemma HeadsTell(l: Layout, m: Memory, loose: set<nat>, c: nat, k: nat)
    requires Core(l, m, loose)
    ensures WordsOf(l, c, k).local == 0 <==> In(m, Local(c, k)) == []
    ensures WordsOf(l, c, k).spare == 0 <==> In(m, Spare(c, k)) == []
  {
    StoredCache(l, m, loose, c, k);
    hide L.Chain, Core;
    L.EndsOf(l.link, WordsOf(l, c, k).local, In(m, Local(c, k)));
    L.EndsOf(l.link, WordsOf(l, c, k).spare, In(m, Spare(c, k)));
  }

  lemma BinTells(l: Layout, m: Memory, loose: set<nat>, k: nat)
    requires Core(l, m, loose) && k < CLASS_COUNT && |m.stacks| == CLASS_COUNT
    ensures k < |l.bins| && (l.bins[k].central == 0 <==> m.stacks[k] == [])
  {
    StoredBin(l, m, loose, k);
    hide Core, L.BinStored;
    L.BinEnds(l.link, l.meta, l.bins[k].central, l.bins[k].count, ChunksOf(m, k));
  }

  // ----- allocating

  /** Hands out the first block of the hot segment, under a request of any size. */
  method DeliverWords(l: Layout, g: Limits, ctl: State, t: nat, c: nat, k: nat, ghost m: Memory)
    returns (next: Layout, after: State, ghost m': Memory)
    requires LayoutOk(l, ctl.(m := m)) && Sound(m) && k < CLASS_COUNT && c !in LooseOf(ctl.caches) && In(m, Local(c, k)) != []
    ensures after.(m := m') == Deliver(ctl.(m := m), t, c, k)
    ensures LayoutOk(next, Deliver(ctl.(m := m), t, c, k))
  {
    hide Sound, Core, L.Link, L.Chain, Move, L.OnlyTouched, Within;
    var size: nat := *;
    var block;
    next, block := PopBlock(l, g, c, k, size, m, LooseOf(ctl.caches));
    m' := Take(m, c, k);
    after := With(ctl.(owner := ctl.owner[block := c]), t, ThreadOf(ctl, t).(pc := Idle));
    MoveAt(m, Local(c, k), 0, 1, Live);
    OneFromView(m, c, k, Local(c, k), block);
    Elsewhere(l, next, m, c, k, Local(c, k), [block]);
    TakenStays(l, next, m, m');
    DeliveredLive(l, next, m, m', block);
    DeliveredOwner(l.link, next.link, m, m', ctl.owner, block, c);
  }

  lemma OneFromView(m: Memory, c: nat, k: nat, p: Place, block: nat)
    requires block in In(m, p)
    ensures Within(m, c, k, p, [block])
  {
    hide InView;
  }

  lemma DeliveredLive(l: Layout, next: Layout, m: Memory, m': Memory, block: nat)
    requires LiveStored(l, m) && next.live == l.live + {block} && In(m', Live) == [block] + In(m, Live)
    ensures LiveStored(next, m')
  {
    hide In;
  }

  lemma DeliveredOwner(link: map<nat, nat>, link': map<nat, nat>, m: Memory, m': Memory, owner: map<nat, nat>, block: nat, c: nat)
    requires OwnersStored(link, m, owner) && L.Link(link', block) == c
    requires forall p: Place, b :: (p.Live? || p.Hand?) && b in In(m, p) ==> L.Link(link', b) == L.Link(link, b)
    requires In(m', Live) == [block] + In(m, Live) && forall t: nat :: In(m', Hand(t)) == In(m, Hand(t))
    ensures OwnersStored(link', m', owner[block := c])
  {
    hide In, L.Link;
  }

  /** The spare segment becomes the hot one. */
  method AdoptWords(l: Layout, g: Limits, ctl: State, c: nat, k: nat, ghost m: Memory) returns (next: Layout)
    requires LayoutOk(l, ctl.(m := m)) && Sound(m) && k < CLASS_COUNT && c !in LooseOf(ctl.caches) && In(m, Local(c, k)) == []
    ensures LayoutOk(next, ctl.(m := Adopt(m, c, k)))
  {
    hide Sound, Core, L.Link, L.Chain, Move, L.OnlyTouched;
    next := AdoptSegment(l, g, c, k, m, LooseOf(ctl.caches));
    MoveAt(m, Spare(c, k), 0, |In(m, Spare(c, k))|, Local(c, k));
    L.TouchedNothing(l.link, l.meta, []);
    Framed(l, next, m, Adopt(m, c, k), ctl.owner, LooseOf(ctl.caches), LooseOf(ctl.caches), c, k, Live, []);
  }

  /** From the hot segment, or from the spare. */
  method ServeWords(l: Layout, g: Limits, ctl: State, t: nat, c: nat, k: nat, ghost m: Memory)
    returns (served: bool, next: Layout, after: State, ghost m': Memory)
    requires g.Legal() && LayoutOk(l, ctl.(m := m)) && Sound(m) && ChunksWithin(m, g.Cap()) && k < CLASS_COUNT
    requires c !in LooseOf(ctl.caches) && AtRest(g, SegmentsOf(m, c, k))
    ensures LayoutOk(next, after.(m := m'))
    ensures served <==> In(m, Local(c, k)) != [] || In(m, Spare(c, k)) != []
    ensures !served ==> next == l && after == ctl && m' == m
    ensures In(m, Local(c, k)) != [] ==> after.(m := m') == Deliver(ctl.(m := m), t, c, k)
    ensures In(m, Local(c, k)) == [] && In(m, Spare(c, k)) != [] ==>
              In(Adopt(m, c, k), Local(c, k)) != [] && after.(m := m') == Deliver(ctl.(m := Adopt(m, c, k)), t, c, k)
  {
    hide Sound, Core, L.Link, L.Chain, Adopt, L.OnlyTouched, AtRest, ChunksWithin, Deliver, LayoutOk, In;
    assert Core(l, m, LooseOf(ctl.caches)) by { CoreOf(l, ctl.(m := m)); }
    HeadsTell(l, m, LooseOf(ctl.caches), c, k);
    var w := WordsOf(l, c, k);
    served, next, after, m' := false, l, ctl, m;
    if w.local != 0 {
      next, after, m' := DeliverWords(l, g, ctl, t, c, k, m);
      served := true;
    } else if w.spare != 0 {
      AdoptEffect(g, m, c, k);
      next := AdoptWords(l, g, ctl, c, k, m);
      next, after, m' := DeliverWords(next, g, ctl, t, c, k, Adopt(m, c, k));
      served := true;
    }
  }

  lemma CoreOf(l: Layout, s: State)
    requires LayoutOk(l, s)
    ensures Core(l, s.m, LooseOf(s.caches)) && TakenOk(l, s.m) && LiveStored(l, s.m) && OwnersStored(l.link, s.m, s.owner)
  {
  }

  /** What the thread may rely on while it works with its cache. */
  lemma CacheReady(g: Limits, s: State, t: nat, c: nat)
    requires g.Legal() && Inv(g, s) && ThreadOf(s, t).attached == Some(c)
    ensures Sound(s.m) && ChunksWithin(s.m, g.Cap()) && |s.m.stacks| == CLASS_COUNT && c !in LooseOf(s.caches)
    ensures forall k: nat :: AtRest(g, SegmentsOf(s.m, c, k))
    ensures forall k: nat :: ThreadOf(s, t).pc in {Registering(k), Allocating(k), Draining(k), Refilling(k)} ==> k < CLASS_COUNT
    ensures !ThreadOf(s, t).pc.Draining? ==> forall k: nat :: In(s.m, Taken(t, k)) == []
    ensures ThreadOf(s, t).pc.Refilling? ==> SegmentsOf(s.m, c, ThreadOf(s, t).pc.k) == Segments([], [])
  {
    StackCount(s.m);
    hide Sound, ChunksWithin, OwnersOk, AtRest, In;
    assert ThreadOk(s, t);
    AttachedFacts(g, s, t);
  }

  /** Looking at the cache: a block is handed out, or the remote queue is taken whole. */
  method AllocateWords(l: Layout, g: Limits, ctl: State, t: nat, c: nat, k: nat, ghost m: Memory)
    returns (next: Layout, after: State, ghost m': Memory)
    requires g.Legal() && Inv(g, ctl.(m := m)) && LayoutOk(l, ctl.(m := m))
    requires ThreadOf(ctl, t).pc == Allocating(k) && ThreadOf(ctl, t).attached == Some(c)
    ensures after.(m := m') == Allocate(ctl.(m := m), t, c, k)
    ensures LayoutOk(next, Allocate(ctl.(m := m), t, c, k))
  {
    CacheReady(g, ctl.(m := m), t, c);
    hide Inv, Sound, Move, Adopt, AtRest, ChunksWithin, Deliver, In, LayoutOk, LooseOf;
    var served;
    served, next, after, m' := ServeWords(l, g, ctl, t, c, k, m);
    if !served {
      next, m' := QueueTakenWords(l, ctl, t, c, k, m);
      after := With(ctl, t, ThreadOf(ctl, t).(pc := Draining(k)));
      SameLayout(next, ctl.(m := m'), after.(m := m'));
    }
  }

  method QueueTakenWords(l: Layout, ctl: State, t: nat, c: nat, k: nat, ghost m: Memory) returns (next: Layout, ghost m': Memory)
    requires LayoutOk(l, ctl.(m := m)) && Sound(m) && k < CLASS_COUNT && In(m, Taken(t, k)) == []
    ensures m' == Move(m, Remote(c, k), 0, |In(m, Remote(c, k))|, Taken(t, k))
    ensures LayoutOk(next, ctl.(m := Move(m, Remote(c, k), 0, |In(m, Remote(c, k))|, Taken(t, k))))
  {
    hide Sound, Core, L.Link, L.Chain, Move, In, TakenOk;
    next := TakeQueue(l, t, c, k, m, LooseOf(ctl.caches));
    m' := Move(m, Remote(c, k), 0, |In(m, Remote(c, k))|, Taken(t, k));
    MoveAt(m, Remote(c, k), 0, |In(m, Remote(c, k))|, Taken(t, k));
    OutsideSame(l, next, m, m', ctl.owner);
  }

  lemma OutsideSame(l: Layout, next: Layout, m: Memory, m': Memory, owner: map<nat, nat>)
    requires LiveStored(l, m) && OwnersStored(l.link, m, owner) && next.live == l.live && next.link == l.link
    requires In(m', Live) == In(m, Live) && forall t: nat :: In(m', Hand(t)) == In(m, Hand(t))
    ensures LiveStored(next, m') && OwnersStored(next.link, m', owner)
  {
    hide In, L.Link;
  }

  // ----- draining

  /** The rest of a taken chain is not written to when its first block returns to a cache. */
  lemma TakenRest(m: Memory, t: nat, c: nat, k: nat)
    requires Sound(m) && In(m, Taken(t, k)) != []
    ensures forall b :: b in In(m, Taken(t, k))[1..] ==> b !in [In(m, Taken(t, k))[0]] + In(m, Spare(c, k))
  {
    hide Suited, Complete, Stacked;
    var s := In(m, Taken(t, k));
    assert NoRepeat(At(m.pools, Taken(t, k)));
    FirstOnce(s);
    forall b | b in s[1..]
      ensures b !in In(m, Spare(c, k))
    {
      assert b in At(m.pools, Taken(t, k));
      assert b in At(m.pools, Spare(c, k)) <==> b in In(m, Spare(c, k));
    }
  }

  lemma ReturnSource(m: Memory, c: nat, k: nat, from: Place)
    requires In(m, from) != []
    ensures Within(m, c, k, from, [In(m, from)[0]] + In(m, Spare(c, k)))
  {
    hide In;
    assert In(m, from)[0] in In(m, from);
  }

  /** One turn of the drain loop: the first taken block returns to the cache. */
  method DrainTurn(l: Layout, g: Limits, ctl: State, t: nat, c: nat, k: nat, ghost m: Memory) returns (next: Layout)
    requires g.Legal() && LayoutOk(l, ctl.(m := m)) && Sound(m) && ChunksWithin(m, g.Cap()) && |m.stacks| == CLASS_COUNT && k < CLASS_COUNT
    requires c !in LooseOf(ctl.caches) && AtRest(g, SegmentsOf(m, c, k)) && In(m, Taken(t, k)) != []
    ensures LayoutOk(next, ctl.(m := Return(g, m, Taken(t, k), c, k)))
  {
    hide Sound, Core, L.Link, L.Chain, L.OnlyTouched, AtRest, ChunksWithin, Return, In, Within, L.Untouched;
    ghost var chain := In(m, Taken(t, k));
    var block := TakenWord(l, t, k);
    L.EndsOf(l.link, block, chain);
    L.ChainPop(l.link, block, chain);
    var rest := L.Link(l.link, block);
    OfClass(m, Taken(t, k), k);
    next := ReturnBlock(l, g, c, k, block, m, LooseOf(ctl.caches), Taken(t, k));
    ghost var m' := Return(g, m, Taken(t, k), c, k);
    ReturnEffect(g, m, Taken(t, k), c, k);
    ReturnSource(m, c, k, Taken(t, k));
    Elsewhere(l, next, m, c, k, Taken(t, k), [block] + In(m, Spare(c, k)));
    TakenRest(m, t, c, k);
    L.UntouchedLinks(l.link, l.meta, next.link, next.meta, [block] + In(m, Spare(c, k)), chain[1..]);
    L.SameLinks(l.link, next.link, rest, chain[1..]);
    var drained := next.(taken := next.taken[(t, k) := rest]);
    CoreIgnoresTaken(next, drained, m', LooseOf(ctl.caches));
    forall u: nat, j: nat
      ensures L.Chain(drained.link, TakenWord(drained, u, j), In(m', Taken(u, j)))
    {
      if (u, j) != (t, k) {
        assert TakenWord(drained, u, j) == TakenWord(l, u, j) && In(m', Taken(u, j)) == In(m, Taken(u, j));
        L.SameLinks(l.link, drained.link, TakenWord(l, u, j), In(m, Taken(u, j)));
      }
    }
    OutsideKept(l, drained, m, m', ctl.owner);
    next := drained;
  }

  lemma CoreIgnoresTaken(l: Layout, next: Layout, m: Memory, loose: set<nat>)
    requires Core(l, m, loose) && next == l.(taken := next.taken)
    ensures Core(next, m, loose)
  {
    hide L.Chain, L.BinStored, CacheStored;
    forall c: nat, k: nat
      ensures ClassOk(next, m, c, k, loose)
    {
      assert ClassOk(l, m, c, k, loose);
    }
    forall k: nat | k < CLASS_COUNT
      ensures BinOk(next, m, k)
    {
      assert BinOk(l, m, k);
    }
  }

  /** Blocks outside are the same, and so are their links. */
  lemma OutsideKept(l: Layout, next: Layout, m: Memory, m': Memory, owner: map<nat, nat>)
    requires LiveStored(l, m) && OwnersStored(l.link, m, owner) && next.live == l.live
    requires In(m', Live) == In(m, Live) && forall t: nat :: In(m', Hand(t)) == In(m, Hand(t))
    requires forall p: Place, b :: (p.Live? || p.Hand?) && b in In(m, p) ==> L.Link(next.link, b) == L.Link(l.link, b)
    ensures LiveStored(next, m') && OwnersStored(next.link, m', owner)
  {
    hide In, L.Link;
  }

  method DrainWords(l: Layout, g: Limits, ctl: State, t: nat, c: nat, k: nat, ghost m: Memory)
    returns (next: Layout, after: State, ghost m': Memory)
    requires g.Legal() && Inv(g, ctl.(m := m)) && LayoutOk(l, ctl.(m := m)) && k < |m.stacks|
    requires ThreadOf(ctl, t).pc == Draining(k) && ThreadOf(ctl, t).attached == Some(c)
    ensures after.(m := m') == Drain(g, ctl.(m := m), t, c, k)
    ensures LayoutOk(next, Drain(g, ctl.(m := m), t, c, k))
  {
    CacheReady(g, ctl.(m := m), t, c);
    hide Inv, Sound, Core, L.Link, L.Chain, Adopt, AtRest, ChunksWithin, Deliver, In, LiveStored, OwnersStored, Return;
    L.EndsOf(l.link, TakenWord(l, t, k), In(m, Taken(t, k)));
    if TakenWord(l, t, k) != 0 {
      next := DrainTurn(l, g, ctl, t, c, k, m);
      after, m' := ctl, Return(g, m, Taken(t, k), c, k);
    } else {
      var served;
      served, next, after, m' := ServeWords(l, g, ctl, t, c, k, m);
      if !served { after := With(ctl, t, ThreadOf(ctl, t).(pc := Refilling(k))); }
    }
  }

  // ----- refilling

  /** The blocks of a span are new to the span table, and none is null. */
  predicate NewTo(classes: map<nat, nat>, span: seq<nat>) {
    && (forall i, j :: 0 <= i < j < |span| ==> span[i] != span[j])
    && (forall i :: 0 <= i < |span| ==> span[i] != 0 && span[i] !in classes)
  }

  lemma NewIsFresh(m: Memory, span: seq<nat>)
    ensures NewTo(m.carved, span) <==> Fresh(m, span)
  {
  }

  /** The critical section of a refill: a span is carved when the class has no chunk. */
  method RefillWords(l: Layout, g: Limits, ctl: State, t: nat, c: nat, k: nat, span: seq<nat>, ghost m: Memory)
    returns (next: Layout, after: State, ghost m': Memory)
    requires g.Legal() && Inv(g, ctl.(m := m)) && LayoutOk(l, ctl.(m := m)) && k < CLASS_COUNT
    requires ThreadOf(ctl, t).pc == Refilling(k) && ThreadOf(ctl, t).attached == Some(c)
    requires Sound(m) && ChunksWithin(m, g.Cap()) && SegmentsOf(m, c, k) == Segments([], [])
    ensures after.(m := m') == Refill(g, ctl.(m := m), t, c, k, span)
    ensures LayoutOk(next, Refill(g, ctl.(m := m), t, c, k, span))
  {
    CacheReady(g, ctl.(m := m), t, c);
    CoreOf(l, ctl.(m := m));
    NewIsFresh(m, span);
    BinTells(l, m, LooseOf(ctl.caches), k);
    BinCount(l, m, LooseOf(ctl.caches));
    hide Inv, Sound, Core, AtRest, ChunksWithin, Deliver, LayoutOk, NewTo, Fresh, FromCentral, CarveAll, In;
    next, after, m' := l, ctl, m;
    if l.bins[k].central == 0 && !(span != [] && NewTo(l.classes, span)) {
      after := With(ctl, t, ThreadOf(ctl, t).(pc := Idle));
      SameLayout(l, ctl.(m := m), after.(m := m));
    } else {
      CarvedEffect(g, m, c, k, span);
      if l.bins[k].central == 0 {
        next, m' := CarveWords(l, g, ctl, c, k, span, m);
      }
      next, m' := TopWords(next, g, ctl, c, k, m');
      next, after, m' := DeliverWords(next, g, ctl, t, c, k, m');
    }
  }

  lemma SameLayout(l: Layout, s: State, next: State)
    requires LayoutOk(l, s) && next.m == s.m && next.owner == s.owner && LooseOf(next.caches) == LooseOf(s.caches)
    ensures LayoutOk(l, next)
  {
  }

  method CarveWords(l: Layout, g: Limits, ctl: State, c: nat, k: nat, span: seq<nat>, ghost m: Memory) returns (next: Layout, ghost m': Memory)
    requires g.Legal() && LayoutOk(l, ctl.(m := m)) && Sound(m) && ChunksWithin(m, g.Cap()) && |m.stacks| == CLASS_COUNT && k < CLASS_COUNT
    requires c !in LooseOf(ctl.caches) && Fresh(m, span) && span != [] && SegmentsOf(m, c, k) == Segments([], [])
    ensures m' == CarveAll(m, k, span, g.ChunkLimit())
    ensures LayoutOk(next, ctl.(m := CarveAll(m, k, span, g.ChunkLimit())))
    ensures Sound(m') && |m'.stacks| == CLASS_COUNT && m'.stacks[k] != [] && SegmentsOf(m', c, k) == Segments([], [])
  {
    hide Sound, Core, ChunksWithin, CarveAll, In, L.OnlyTouched, Fresh, Classed;
    next := CarveBlocks(l, g, c, k, span, m, LooseOf(ctl.caches));
    m' := CarveAll(m, k, span, g.ChunkLimit());
    CarveAllEffect(m, k, span, g.ChunkLimit(), g.Cap());
    StackCount(m');
    SpanNew(m, c, k, span);
    Framed(l, next, m, m', ctl.owner, LooseOf(ctl.caches), LooseOf(ctl.caches), c, k, Live, span);
  }

  lemma SpanNew(m: Memory, c: nat, k: nat, span: seq<nat>)
    requires Fresh(m, span) && Sound(m)
    ensures Within(m, c, k, Live, span) && forall b :: b in span ==> b !in In(m, Live)
  {
    hide Sound, InView, NoRepeat;
    forall b | b in span
      ensures b !in In(m, Live)
    {
      OnePlace(m, Live, b);
    }
  }

  method TopWords(l: Layout, g: Limits, ctl: State, c: nat, k: nat, ghost m: Memory) returns (next: Layout, ghost m': Memory)
    requires LayoutOk(l, ctl.(m := m)) && Sound(m) && |m.stacks| == CLASS_COUNT && k < CLASS_COUNT && m.stacks[k] != []
    requires c !in LooseOf(ctl.caches) && SegmentsOf(m, c, k) == Segments([], [])
    ensures m' == FromCentral(m, k, Local(c, k))
    ensures LayoutOk(next, ctl.(m := FromCentral(m, k, Local(c, k))))
    ensures Sound(m') && In(m', Local(c, k)) != []
  {
    hide Sound, Core, FromCentral, In, L.OnlyTouched, Suits;
    next := TakeTop(l, g, c, k, m, LooseOf(ctl.caches));
    LocalTakes(m, c, k);
    FromCentralSound(m, k, Local(c, k));
    m' := FromCentral(m, k, Local(c, k));
    Framed(l, next, m, m', ctl.owner, LooseOf(ctl.caches), LooseOf(ctl.caches), c, k, Live, []);
  }

  // ----- freeing

  /** The checked free's exchange of the state word. */
  method ReleaseWords(l: Layout, g: Limits, ctl: State, t: nat, b: nat, ghost m: Memory)
    returns (next: Layout, after: State, ghost m': Memory)
    requires g.Legal() && Inv(g, ctl.(m := m)) && LayoutOk(l, ctl.(m := m)) && ThreadOf(ctl, t).pc.Idle?
    ensures after.(m := m') == Release(ctl.(m := m), t, b)
    ensures LayoutOk(next, Release(ctl.(m := m), t, b))
  {
    IdleHand(g, ctl.(m := m), t);
    CoreOf(l, ctl.(m := m));
    hide Inv, Sound, Core, In, Move, LayoutOk;
    next, after, m' := l, ctl, m;
    if b in l.live {
      next := l.(live := l.live - {b});
      after := With(ctl, t, ThreadOf(ctl, t).(pc := Freeing(b)));
      ghost var i := Position(In(m, Live), b);
      m' := Move(m, Live, i, i + 1, Hand(t));
      ReleasedLayout(l, next, ctl.(m := m), t, b, i);
      SameLayout(next, ctl.(m := m'), after.(m := m'));
    }
  }

  /** Taking a block out of the live ones changes no list of the heap. */
  lemma ReleasedLayout(l: Layout, next: Layout, s: State, t: nat, b: nat, i: nat)
    requires LayoutOk(l, s) && next == l.(live := l.live - {b}) && Sound(s.m) && In(s.m, Hand(t)) == []
    requires i < |In(s.m, Live)| && In(s.m, Live)[i] == b
    ensures LayoutOk(next, s.(m := Move(s.m, Live, i, i + 1, Hand(t))))
  {
    hide Sound, Core, In, L.Link, L.Chain, Move;
    var m' := Move(s.m, Live, i, i + 1, Hand(t));
    MoveAt(s.m, Live, i, i + 1, Hand(t));
    MoveBins(s.m, Live, i, i + 1, Hand(t));
    CoreSameLists(l, next, s.m, m', LooseOf(s.caches));
    CutOnce(s.m, i, b);
    ReleasedOutside(l, next, s.m, m', s.owner, t, b, i);
  }

  lemma IdleHand(g: Limits, s: State, t: nat)
    requires Inv(g, s) && ThreadOf(s, t).pc.Idle?
    ensures Sound(s.m) && In(s.m, Hand(t)) == []
  {
    hide Sound, ChunksWithin, In;
    assert ThreadOk(s, t);
  }

  lemma CoreSameLists(l: Layout, next: Layout, m: Memory, m': Memory, loose: set<nat>)
    requires Core(l, m, loose) && next == l.(live := next.live, taken := next.taken) && m'.carved == m.carved && SameBins(m, m')
    requires forall p: Place :: p.Local? || p.Spare? || p.Remote? ==> In(m', p) == In(m, p)
    ensures Core(next, m', loose)
  {
    hide L.Chain, L.BinStored, CacheStored, ChunksOf, In;
    forall c: nat, k: nat
      ensures ClassOk(next, m', c, k, loose)
    {
      assert ClassOk(l, m, c, k, loose);
    }
    forall k: nat | k < CLASS_COUNT
      ensures BinOk(next, m', k)
    {
      assert BinOk(l, m, k);
    }
  }

  /** Cut out once, a block is gone. */
  lemma CutOnce(m: Memory, i: nat, b: nat)
    requires Sound(m) && i < |In(m, Live)| && In(m, Live)[i] == b
    ensures forall x :: x in In(m, Live)[..i] + In(m, Live)[i + 1..] <==> x in In(m, Live) && x != b
  {
    var s := In(m, Live);
    assert NoRepeat(At(m.pools, Live));
    assert s == s[..i] + [b] + s[i + 1..];
  }

  lemma ReleasedOutside(l: Layout, next: Layout, m: Memory, m': Memory, owner: map<nat, nat>, t: nat, b: nat, i: nat)
    requires LiveStored(l, m) && OwnersStored(l.link, m, owner) && next.live == l.live - {b} && next.link == l.link
    requires i < |In(m, Live)| && In(m, Live)[i] == b && In(m, Hand(t)) == []
    requires forall x :: x in In(m, Live)[..i] + In(m, Live)[i + 1..] <==> x in In(m, Live) && x != b
    requires In(m', Live) == In(m, Live)[..i] + In(m, Live)[i + 1..] && In(m', Hand(t)) == In(m, Live)[i..i + 1] + In(m, Hand(t))
    requires forall u: nat :: u != t ==> In(m', Hand(u)) == In(m, Hand(u))
    ensures LiveStored(next, m') && OwnersStored(next.link, m', owner)
  {
    hide In, L.Link;
    assert b in In(m, Live) && In(m, Live)[i..i + 1] == [b];
    forall x | Outside(m', x)
      ensures Outside(m, x)
    {
    }
  }

  /** What a thread that is routing a block may rely on. */
  lemma RouteReady(g: Limits, s: State, t: nat, b: nat)
    requires g.Legal() && Inv(g, s) && ThreadOf(s, t).pc == Freeing(b)
    ensures b in s.owner && RoutedOwner(s, t, b) == s.owner[b] && In(s.m, Hand(t)) == [b]
    ensures b in s.m.carved && s.m.carved[b] < CLASS_COUNT && |s.m.stacks| == CLASS_COUNT
    ensures Sound(s.m) && ChunksWithin(s.m, g.Cap())
    ensures var th, owner := ThreadOf(s, t), s.owner[b];
            th.last == Cached(owner) || th.attached == Some(owner) ==>
              th.attached == Some(owner) && owner !in LooseOf(s.caches) && forall k: nat :: AtRest(g, SegmentsOf(s.m, owner, k))
  {
    ShortcutSound(g, s, t, b);
    hide Sound, ChunksWithin, In, AtRest;
    assert ThreadOk(s, t);
    if ThreadOf(s, t).attached.Some? { AttachedFacts(g, s, t); }
  }

  /** memx_heap_route_small up to its first lock: the owner is read from the block unless the shortcut is taken. */
  method RouteWords(l: Layout, g: Limits, ctl: State, t: nat, b: nat, ghost m: Memory)
    returns (next: Layout, after: State, ghost m': Memory)
    requires g.Legal() && Inv(g, ctl.(m := m)) && LayoutOk(l, ctl.(m := m)) && ThreadOf(ctl, t).pc == Freeing(b)
    requires b in ctl.owner && b in m.carved && m.carved[b] < |m.stacks| && In(m, Hand(t)) == [b]
    ensures after.(m := m') == Route(g, ctl.(m := m), t, b)
    ensures LayoutOk(next, Route(g, ctl.(m := m), t, b))
  {
    RouteReady(g, ctl.(m := m), t, b);
    CoreOf(l, ctl.(m := m));
    BinCount(l, m, LooseOf(ctl.caches));
    HandOutside(l, m, ctl.owner, t, b);
    hide Inv, Sound, Core, In, AtRest, ChunksWithin, Return, L.Link, OwnersStored, LayoutAt;
    var th := ThreadOf(ctl, t);
    var owner := if Shortcut(ctl, t) then th.last.c else L.Link(l.link, b);
    var last := if th.last == Cached(owner) || th.attached.None? then th.last else Cached(th.attached.value);
    next, m' := l, m;
    if th.last == Cached(owner) || th.attached == Some(owner) {
      next, m' := HomeWords(l, g, ctl, t, owner, l.classes[b], b, m);
      after := With(ctl, t, th.(last := last, pc := Idle));
    } else {
      after := With(ctl, t, th.(last := last, pc := ToRemote(b, owner)));
    }
    SameLayout(next, ctl.(m := m'), after.(m := m'));
  }

  lemma HandOutside(l: Layout, m: Memory, owner: map<nat, nat>, t: nat, b: nat)
    requires OwnersStored(l.link, m, owner) && In(m, Hand(t)) == [b]
    ensures b in owner && L.Link(l.link, b) == owner[b]
  {
    hide In, L.Link;
    assert b in In(m, Hand(t));
    assert Outside(m, b);
  }

  method HomeWords(l: Layout, g: Limits, ctl: State, t: nat, c: nat, k: nat, b: nat, ghost m: Memory) returns (next: Layout, ghost m': Memory)
    requires g.Legal() && LayoutOk(l, ctl.(m := m)) && Sound(m) && ChunksWithin(m, g.Cap()) && |m.stacks| == CLASS_COUNT && k < CLASS_COUNT
    requires c !in LooseOf(ctl.caches) && AtRest(g, SegmentsOf(m, c, k)) && In(m, Hand(t)) == [b] && b in m.carved && m.carved[b] == k
    ensures m' == Return(g, m, Hand(t), c, k)
    ensures LayoutOk(next, ctl.(m := Return(g, m, Hand(t), c, k)))
  {
    hide Sound, Core, L.OnlyTouched, AtRest, ChunksWithin, Return, In, Within;
    next := ReturnBlock(l, g, c, k, b, m, LooseOf(ctl.caches), Hand(t));
    m' := Return(g, m, Hand(t), c, k);
    ReturnEffect(g, m, Hand(t), c, k);
    ReturnSource(m, c, k, Hand(t));
    Framed(l, next, m, m', ctl.owner, LooseOf(ctl.caches), LooseOf(ctl.caches), c, k, Hand(t), [b] + In(m, Spare(c, k)));
  }

  /** The critical section on the owner's remote queue. */
  method DepositWords(l: Layout, g: Limits, ctl: State, t: nat, b: nat, owner: nat, ghost m: Memory)
    returns (next: Layout, after: State, ghost m': Memory)
    requires g.Legal() && Inv(g, ctl.(m := m)) && LayoutOk(l, ctl.(m := m)) && ThreadOf(ctl, t).pc == ToRemote(b, owner)
    requires b in m.carved && owner in ctl.caches && In(m, Hand(t)) == [b]
    ensures after.(m := m') == Deposit(ctl.(m := m), t, b, owner)
    ensures LayoutOk(next, Deposit(ctl.(m := m), t, b, owner))
  {
    SoundOf(g, ctl.(m := m));
    CoreOf(l, ctl.(m := m));
    BinCount(l, m, LooseOf(ctl.caches));
    SuitsOf(m, Hand(t), b);
    hide Inv, Sound, Core, In, L.OnlyTouched, LayoutAt, Move;
    next, m' := l, m;
    if ctl.caches[owner].accepting {
      next, m' := QueueWords(l, g, ctl, t, owner, l.classes[b], b, m);
      after := With(ctl, t, ThreadOf(ctl, t).(pc := Idle));
    } else {
      after := With(ctl, t, ThreadOf(ctl, t).(pc := ToBin(b)));
    }
    SameLayout(next, ctl.(m := m'), after.(m := m'));
  }

  lemma SoundOf(g: Limits, s: State)
    requires Inv(g, s)
    ensures Sound(s.m) && ChunksWithin(s.m, g.Cap()) && |s.m.stacks| == CLASS_COUNT
  {
    StackCount(s.m);
  }

  method QueueWords(l: Layout, g: Limits, ctl: State, t: nat, c: nat, k: nat, b: nat, ghost m: Memory) returns (next: Layout, ghost m': Memory)
    requires LayoutOk(l, ctl.(m := m)) && Sound(m) && k < CLASS_COUNT && c !in LooseOf(ctl.caches) && In(m, Hand(t)) == [b]
    ensures m' == Move(m, Hand(t), 0, 1, Remote(c, k))
    ensures LayoutOk(next, ctl.(m := Move(m, Hand(t), 0, 1, Remote(c, k))))
  {
    hide Sound, Core, L.OnlyTouched, In, Move;
    next := QueueBlock(l, g, t, c, k, b, m, LooseOf(ctl.caches));
    m' := Move(m, Hand(t), 0, 1, Remote(c, k));
    MoveAt(m, Hand(t), 0, 1, Remote(c, k));
    OneFromView(m, c, k, Hand(t), b);
    Framed(l, next, m, m', ctl.owner, LooseOf(ctl.caches), LooseOf(ctl.caches), c, k, Hand(t), [b]);
  }

  /** One block goes to its central bin as a chunk of its own. */
  method BinStepWords(l: Layout, g: Limits, ctl: State, t: nat, b: nat, ghost m: Memory)
    returns (next: Layout, after: State, ghost m': Memory)
    requires g.Legal() && Inv(g, ctl.(m := m)) && LayoutOk(l, ctl.(m := m)) && ThreadOf(ctl, t).pc == ToBin(b)
    requires b in m.carved && m.carved[b] < |m.stacks| && In(m, Hand(t)) == [b]
    ensures after.(m := m') == Bin(ctl.(m := m), t, b)
    ensures LayoutOk(next, Bin(ctl.(m := m), t, b))
  {
    SoundOf(g, ctl.(m := m));
    hide Inv, Sound, In, ToCentral, LayoutOk, ChunksWithin;
    next, m' := SingleWords(l, g, ctl, t, m.carved[b], b, m);
    after := With(ctl, t, ThreadOf(ctl, t).(pc := Idle));
    SameLayout(next, ctl.(m := m'), after.(m := m'));
  }

  method SingleWords(l: Layout, g: Limits, ctl: State, t: nat, ghost k: nat, b: nat, ghost m: Memory) returns (next: Layout, ghost m': Memory)
    requires g.Legal() && LayoutOk(l, ctl.(m := m)) && Sound(m) && ChunksWithin(m, g.Cap()) && |m.stacks| == CLASS_COUNT && k < CLASS_COUNT
    requires b in m.carved && m.carved[b] == k && In(m, Hand(t)) == [b]
    ensures m' == ToCentral(m, Hand(t), 1, k)
    ensures LayoutOk(next, ctl.(m := ToCentral(m, Hand(t), 1, k)))
  {
    OkToAt(l, ctl.(m := m));
    CoreOf(l, ctl.(m := m));
    BinCount(l, m, LooseOf(ctl.caches));
    hide Sound, Core, In, L.OnlyTouched, ToCentral, ChunksWithin, LayoutAt, LayoutOk, LooseOf, TakenOk, LiveStored, OwnersStored;
    next := BinBlock(l, t, l.classes[b], b, m, LooseOf(ctl.caches));
    m' := ToCentral(m, Hand(t), 1, k);
    BinnedLayout(l, next, g, m, ctl.owner, LooseOf(ctl.caches), t, k, b);
    AtToOk(next, ctl.(m := m'), LooseOf(ctl.caches));
  }

  lemma BinnedLayout(l: Layout, next: Layout, g: Limits, m: Memory, owner: map<nat, nat>, loose: set<nat>, t: nat, k: nat, b: nat)
    requires g.Legal() && LayoutAt(l, m, owner, loose) && Sound(m) && ChunksWithin(m, g.Cap()) && |m.stacks| == CLASS_COUNT && k < CLASS_COUNT
    requires b in m.carved && m.carved[b] == k && In(m, Hand(t)) == [b]
    requires Core(next, ToCentral(m, Hand(t), 1, k), loose) && next.taken == l.taken && next.live == l.live
    requires L.OnlyTouched(l.link, l.meta, next.link, next.meta, [b, b])
    ensures LayoutAt(next, ToCentral(m, Hand(t), 1, k), owner, loose)
  {
    hide Sound, Core, In, L.OnlyTouched, ToCentral, Within, ChunksWithin, LayoutAt;
    BinLists(g, m, t, b);
    TwiceFrom(m, 0, k, Hand(t), b);
    Framed(l, next, m, ToCentral(m, Hand(t), 1, k), owner, loose, loose, 0, k, Hand(t), [b, b]);
  }

  lemma TwiceFrom(m: Memory, c: nat, k: nat, p: Place, b: nat)
    requires In(m, p) == [b]
    ensures Within(m, c, k, p, [b, b])
  {
    hide InView, In;
    assert b in In(m, p);
  }

  // ----- detaching

  /** Detaching takes back the remote queues of all classes. */
  method UnlinkWords(l: Layout, g: Limits, ctl: State, t: nat, ghost m: Memory) returns (next: Layout, after: State, ghost m': Memory)
    requires g.Legal() && Inv(g, ctl.(m := m)) && LayoutOk(l, ctl.(m := m)) && ThreadOf(ctl, t).pc.Idle?
    ensures after.(m := m') == Unlink(ctl.(m := m), t)
    ensures LayoutOk(next, Unlink(ctl.(m := m), t))
  {
    SoundOf(g, ctl.(m := m));
    OkToAt(l, ctl.(m := m));
    hide Inv, Sound, In, Recall, ChunksWithin, LayoutAt, LayoutOk, LooseOf;
    var th := ThreadOf(ctl, t);
    next, after, m' := l, ctl, m;
    if th.attached.None? { return; }
    var c := th.attached.value;
    ghost var loose := LooseOf(ctl.caches);
    next, m' := RecallFirst(l, g, ctl.owner, c, m, loose);
    after := With(ctl.(caches := ctl.caches[c := CacheInfo(t, false)]), t,
                  Thread(None, if th.last == Cached(c) then Nothing else th.last, Detaching(c, 0)));
    LooseGrows(ctl.caches, c, CacheInfo(t, false));
    assert LayoutOk(next, after.(m := m')) by { AtToOk(next, after.(m := m'), loose + {c}); }
  }

  lemma LooseGrows(caches: map<nat, CacheInfo>, c: nat, info: CacheInfo)
    requires !info.accepting
    ensures LooseOf(caches[c := info]) == LooseOf(caches) + {c}
  {
  }

  lemma AtToOk(l: Layout, s: State, loose: set<nat>)
    requires LayoutAt(l, s.m, s.owner, loose) && LooseOf(s.caches) == loose
    ensures LayoutOk(l, s)
  {
  }

  lemma OkToAt(l: Layout, s: State)
    requires LayoutOk(l, s)
    ensures LayoutAt(l, s.m, s.owner, LooseOf(s.caches))
  {
  }

  /** The loop over the classes. */
  method RecallFirst(l: Layout, g: Limits, ghost owner: map<nat, nat>, c: nat, ghost m: Memory, ghost loose: set<nat>)
    returns (next: Layout, ghost m': Memory)
    requires g.Legal() && LayoutAt(l, m, owner, loose) && Sound(m) && ChunksWithin(m, g.Cap())
    ensures m' == Recall(m, c, 0)
    ensures LayoutAt(next, Recall(m, c, 0), owner, loose + {c})
  {
    hide Sound, Core, In, L.OnlyTouched, Recall, Unload, ChunksWithin, TakenOk, LiveStored, OwnersStored, LayoutAt;
    next, m' := RecallWords(l, g, owner, c, 0, m, loose);
    RecallOnce(m, c, 0);
    var k := 1;
    while k < CLASS_COUNT
      invariant 1 <= k <= CLASS_COUNT && LayoutAt(next, m', owner, loose + {c}) && Sound(m') && ChunksWithin(m', g.Cap())
      invariant Recall(m', c, k) == Recall(m, c, 0)
    {
      ghost var before := m';
      next, m' := RecallWords(next, g, owner, c, k, m', loose + {c});
      RecallOnce(before, c, k);
      assert loose + {c} + {c} == loose + {c};
      k := k + 1;
    }
    RecallOnce(m', c, k);
  }

  lemma RecallOnce(m: Memory, c: nat, k: nat)
    requires k <= CLASS_COUNT
    ensures Recall(m, c, k) == if k == CLASS_COUNT then m else Recall(Unload(m, Remote(c, k), Local(c, k)), c, k + 1)
  {
  }

  method RecallWords(l: Layout, g: Limits, ghost owner: map<nat, nat>, c: nat, k: nat, ghost m: Memory, ghost loose: set<nat>)
    returns (next: Layout, ghost m': Memory)
    requires g.Legal() && LayoutAt(l, m, owner, loose) && Sound(m) && ChunksWithin(m, g.Cap()) && k < CLASS_COUNT
    ensures m' == Unload(m, Remote(c, k), Local(c, k)) && Sound(m') && ChunksWithin(m', g.Cap())
    ensures LayoutAt(next, Unload(m, Remote(c, k), Local(c, k)), owner, loose + {c})
  {
    StackCount(m);
    hide Sound, Core, In, L.OnlyTouched, Unload, ChunksWithin, Within;
    next := RecallQueue(l, g, c, k, m, loose);
    m' := Unload(m, Remote(c, k), Local(c, k));
    UnloadEffect(m, c, k, g.Cap());
    QueueWithin(m, c, k);
    Framed(l, next, m, m', owner, loose, loose + {c}, c, k, Live, In(m, Remote(c, k)));
  }

  lemma QueueWithin(m: Memory, c: nat, k: nat)
    requires Sound(m)
    ensures Within(m, c, k, Live, In(m, Remote(c, k))) && forall b :: b in In(m, Remote(c, k)) ==> b !in In(m, Live)
  {
    hide Sound;
    forall b | b in In(m, Remote(c, k))
      ensures b !in In(m, Live)
    {
      OnePlace(m, Remote(c, k), b);
    }
  }

  /** Surrenders one class under its class lock. */
  method SurrenderStepWords(l: Layout, g: Limits, ctl: State, t: nat, c: nat, k: nat, ghost m: Memory)
    returns (next: Layout, after: State, ghost m': Memory)
    requires g.Legal() && Inv(g, ctl.(m := m)) && LayoutOk(l, ctl.(m := m)) && ThreadOf(ctl, t).pc == Detaching(c, k) && k < |m.stacks|
    ensures after.(m := m') == SurrenderClass(ctl.(m := m), t, c, k)
    ensures LayoutOk(next, SurrenderClass(ctl.(m := m), t, c, k))
  {
    DetachReady(g, ctl.(m := m), t, c, k);
    hide Inv, Sound, Core, In, L.OnlyTouched, Surrender, ChunksWithin, Within;
    next := SurrenderWords(l, g, c, k, m, LooseOf(ctl.caches));
    m' := Surrender(m, c, k);
    SurrenderEffect(m, c, k, g.Cap());
    SegmentsWithin(m, c, k);
    Framed(l, next, m, m', ctl.owner, LooseOf(ctl.caches), LooseOf(ctl.caches), c, k, Live, In(m, Local(c, k)) + In(m, Spare(c, k)));
    after := With(ctl, t, ThreadOf(ctl, t).(pc := if k + 1 < CLASS_COUNT then Detaching(c, k + 1) else Idle));
    SameLayout(next, ctl.(m := m'), after.(m := m'));
  }

  lemma DetachReady(g: Limits, s: State, t: nat, c: nat, k: nat)
    requires Inv(g, s) && ThreadOf(s, t).pc == Detaching(c, k)
    ensures Sound(s.m) && ChunksWithin(s.m, g.Cap()) && |s.m.stacks| == CLASS_COUNT && k < CLASS_COUNT && In(s.m, Remote(c, k)) == []
  {
    StackCount(s.m);
    hide Sound, ChunksWithin, In, AtRest, OwnersOk;
    assert ThreadOk(s, t);
    assert HeapSteps.CacheOk(g, s, c);
  }

  lemma SegmentsWithin(m: Memory, c: nat, k: nat)
    requires Sound(m)
    ensures var blocks := In(m, Local(c, k)) + In(m, Spare(c, k));
            Within(m, c, k, Live, blocks) && forall b :: b in blocks ==> b !in In(m, Live)
  {
    hide Sound;
    forall b | b in In(m, Local(c, k)) + In(m, Spare(c, k))
      ensures b !in In(m, Live)
    {
      OnePlace(m, Local(c, k), b);
      OnePlace(m, Spare(c, k), b);
    }
  }

  // ----- the program

  /** One step of thread t, on the words alone; m is the abstract memory they describe. */
  method Perform(l: Layout, g: Limits, ctl: State, t: nat, choice: Choice, ghost m: Memory)
    returns (next: Layout, after: State, ghost m': Memory)
    requires g.Legal() && Inv(g, ctl.(m := m)) && LayoutOk(l, ctl.(m := m))
    ensures after.(m := m') == Next(g, ctl.(m := m), t, choice)
    ensures LayoutOk(next, Next(g, ctl.(m := m), t, choice))
  {
    hide Inv, LayoutOk, LooseOf, Sound, ChunksWithin, In, Allocate, Drain, Refill, Release, Route, Deposit, Bin, Unlink, SurrenderClass;
    var th := ThreadOf(ctl, t);
    next, after, m' := l, ctl, m;
    if th.pc.Idle? {
      match choice
      case Malloc(k, record) =>
        if k < CLASS_COUNT {
          after := Enter(ctl, t, k, record);
          EnterLayout(l, ctl.(m := m), t, k, record);
        }
      case Free(b) => next, after, m' := ReleaseWords(l, g, ctl, t, b, m);
      case Detach => next, after, m' := UnlinkWords(l, g, ctl, t, m);
      case UseOtherHeap =>
        after := With(ctl, t, th.(last := Foreign));
        SameLayout(l, ctl.(m := m), after.(m := m));
      case Continue(_) =>
    } else if choice.Continue? {
      next, after, m' := ResumeWords(l, g, ctl, t, choice.span, m);
    }
  }

  /** A new cache accepts blocks from the start. */
  lemma EnterLayout(l: Layout, s: State, t: nat, k: nat, record: Option<nat>)
    requires LayoutOk(l, s)
    ensures LayoutOk(l, Enter(s, t, k, record))
  {
    hide LayoutAt;
    assert LooseOf(Enter(s, t, k, record).caches) == LooseOf(s.caches);
  }

  /** The next step of the operation a thread is in. */
  method ResumeWords(l: Layout, g: Limits, ctl: State, t: nat, span: seq<nat>, ghost m: Memory)
    returns (next: Layout, after: State, ghost m': Memory)
    requires g.Legal() && Inv(g, ctl.(m := m)) && LayoutOk(l, ctl.(m := m)) && !ThreadOf(ctl, t).pc.Idle?
    ensures after.(m := m') == Resume(g, ctl.(m := m), t, span)
    ensures LayoutOk(next, Resume(g, ctl.(m := m), t, span))
  {
    SoundOf(g, ctl.(m := m));
    var pc := ThreadOf(ctl, t).pc;
    if pc.Registering? || pc.Allocating? || pc.Draining? || pc.Refilling? {
      next, after, m' := ResumeAllocation(l, g, ctl, t, span, m);
    } else {
      next, after, m' := ResumeFree(l, g, ctl, t, span, m);
    }
  }

  lemma Attached(g: Limits, s: State, t: nat)
    requires Inv(g, s)
    requires var pc := ThreadOf(s, t).pc; pc.Registering? || pc.Allocating? || pc.Draining? || pc.Refilling?
    ensures ThreadOf(s, t).attached.Some? && ThreadOf(s, t).pc.k < CLASS_COUNT
    ensures ThreadOf(s, t).pc.Refilling? ==> SegmentsOf(s.m, ThreadOf(s, t).attached.value, ThreadOf(s, t).pc.k) == Segments([], [])
  {
    hide Sound, ChunksWithin, HeapSteps.CacheOk, OwnersOk, In;
    assert ThreadOk(s, t);
  }

  method ResumeAllocation(l: Layout, g: Limits, ctl: State, t: nat, span: seq<nat>, ghost m: Memory)
    returns (next: Layout, after: State, ghost m': Memory)
    requires g.Legal() && Inv(g, ctl.(m := m)) && LayoutOk(l, ctl.(m := m))
    requires var pc := ThreadOf(ctl, t).pc; pc.Registering? || pc.Allocating? || pc.Draining? || pc.Refilling?
    ensures after.(m := m') == Resume(g, ctl.(m := m), t, span)
    ensures LayoutOk(next, Resume(g, ctl.(m := m), t, span))
  {
    ghost var s := ctl.(m := m);
    var th := ThreadOf(ctl, t);
    Attached(g, s, t);
    SoundOf(g, s);
    hide Inv, LayoutOk, LooseOf, Sound, ChunksWithin, In, Allocate, Drain, Refill, Route, Deposit, Bin, SurrenderClass;
    next, after, m' := l, ctl, m;
    match th.pc
    case Registering(k) =>
      after := Register(ctl, t, th.attached.value, k);
      SameLayout(l, s, after.(m := m));
    case Allocating(k) => next, after, m' := AllocateWords(l, g, ctl, t, th.attached.value, k, m);
    case Draining(k) => next, after, m' := DrainWords(l, g, ctl, t, th.attached.value, k, m);
    case Refilling(k) => next, after, m' := RefillWords(l, g, ctl, t, th.attached.value, k, span, m);
  }

  lemma ResumesRoute(g: Limits, s: State, t: nat, span: seq<nat>, b: nat)
    requires g.Legal() && Inv(g, s) && ThreadOf(s, t).pc == Freeing(b)
    ensures b in s.owner && b in s.m.carved && s.m.carved[b] < |s.m.stacks| && In(s.m, Hand(t)) == [b]
    ensures Resume(g, s, t, span) == Route(g, s, t, b)
  {
    ShortcutSound(g, s, t, b);
    hide Inv, Sound, ChunksWithin, In, Route;
  }

  lemma ResumesDeposit(g: Limits, s: State, t: nat, span: seq<nat>, b: nat, owner: nat)
    requires g.Legal() && Inv(g, s) && ThreadOf(s, t).pc == ToRemote(b, owner)
    ensures b in s.m.carved && owner in s.caches && In(s.m, Hand(t)) == [b]
    ensures Resume(g, s, t, span) == Deposit(s, t, b, owner)
  {
    DepositKeeps(g, s, t, b, owner);
    hide Inv, Sound, ChunksWithin, In, Deposit;
  }

  lemma ResumesBin(g: Limits, s: State, t: nat, span: seq<nat>, b: nat)
    requires g.Legal() && Inv(g, s) && ThreadOf(s, t).pc == ToBin(b)
    ensures b in s.m.carved && s.m.carved[b] < |s.m.stacks| && In(s.m, Hand(t)) == [b]
    ensures Resume(g, s, t, span) == Bin(s, t, b)
  {
    BinKeeps(g, s, t, b);
    hide Inv, Sound, ChunksWithin, In, Bin;
  }

  lemma ResumesSurrender(g: Limits, s: State, t: nat, span: seq<nat>, c: nat, k: nat)
    requires g.Legal() && Inv(g, s) && ThreadOf(s, t).pc == Detaching(c, k)
    ensures k < |s.m.stacks| && Resume(g, s, t, span) == SurrenderClass(s, t, c, k)
  {
    SurrenderKeeps(g, s, t, c, k);
    hide Inv, Sound, ChunksWithin, In, SurrenderClass;
  }

  method ResumeFree(l: Layout, g: Limits, ctl: State, t: nat, span: seq<nat>, ghost m: Memory)
    returns (next: Layout, after: State, ghost m': Memory)
    requires g.Legal() && Inv(g, ctl.(m := m)) && LayoutOk(l, ctl.(m := m))
    requires var pc := ThreadOf(ctl, t).pc; pc.Freeing? || pc.ToRemote? || pc.ToBin? || pc.Detaching?
    ensures after.(m := m') == Resume(g, ctl.(m := m), t, span)
    ensures LayoutOk(next, Resume(g, ctl.(m := m), t, span))
  {
    ghost var s := ctl.(m := m);
    hide Inv, LayoutOk, In, Resume, Route, Deposit, Bin, SurrenderClass;
    match ThreadOf(ctl, t).pc
    case Freeing(b) =>
      ResumesRoute(g, s, t, span, b);
      next, after, m' := RouteWords(l, g, ctl, t, b, m);
    case ToRemote(b, owner) =>
      ResumesDeposit(g, s, t, span, b, owner);
      next, after, m' := DepositWords(l, g, ctl, t, b, owner, m);
    case ToBin(b) =>
      ResumesBin(g, s, t, span, b);
      next, after, m' := BinStepWords(l, g, ctl, t, b, m);
    case Detaching(c, k) =>
      ResumesSurrender(g, s, t, span, c, k);
      next, after, m' := SurrenderStepWords(l, g, ctl, t, c, k, m);
  }

  function EmptyLayout(): Layout {
    Layout(map[], L.Metadata(map[], map[], map[]), map[], seq(CLASS_COUNT, _ => BinWords(0, 0)), map[], map[], {})
  }

  lemma EmptyOk()
    ensures LayoutOk(EmptyLayout(), Start())
  {
  }

  /**
   After any run of any threads the words in memory describe exactly the lists the transition
   system is in: every head, tail and count, every link, every chunk's own description, and
   the owner of every block outside the heap.
   */
  method RunWords(g: Limits, turns: seq<Turn>) returns (l: Layout, ctl: State, ghost m: Memory)
    requires g.Legal()
    ensures ctl.(m := m) == Run(g, turns) && LayoutOk(l, Run(g, turns))
  {
    hide Inv, LayoutOk, Next;
    l, ctl, m := EmptyLayout(), Start(), Start().m;
    EmptyOk();
    var i := 0;
    while i < |turns|
      invariant i <= |turns| && ctl.(m := m) == Run(g, turns[..i]) && LayoutOk(l, ctl.(m := m))
    {
      assert turns[..i + 1][..i] == turns[..i];
      l, ctl, m := Perform(l, g, ctl, turns[i].thread, turns[i].choice, m);
      i := i + 1;
    }
    assert turns[..i] == turns;
  }
}
