/**
 The heap and its arena together: spans are carved from the arena one after the other, and
 over whole runs the blocks of the heap are exactly the blocks of the claimed spans.
 */
module HeapArenaRuns {
  import opened CacheSegments
  import opened HeapPools
  import opened HeapMemory
  import opened HeapMoves
  import opened HeapSteps
  import opened HeapRuns
  import opened SizeClasses
  import opened SpanLayout
  import opened Arena
  import Bits
  import IndexSpec

  /** The heap, and the class of every claimed span in the order of the spans. */
  datatype World = World(heap: State, classes: seq<nat>)

  /** b is block j of span i. */
  ghost predicate BlockOf(l: Layout, classes: seq<nat>, i: nat, j: nat, b: nat)
    requires l.Legal()
  {
    i < |classes| && classes[i] < CLASSES && j < l.BlockCount(classes[i]) && b == l.BlockAt(i, classes[i], j)
  }

  ghost predicate SpanBlock(l: Layout, classes: seq<nat>, b: nat)
    requires l.Legal()
  {
    exists i: nat, j: nat :: BlockOf(l, classes, i, j, b)
  }

  ghost predicate ClassOfSpan(carved: map<nat, nat>, classes: seq<nat>, i: nat, b: nat) {
    i < |classes| && b in carved && carved[b] == classes[i]
  }

  /** The carved blocks are those of the claimed spans, each with the class of its span. */
  ghost predicate FromSpans(l: Layout, carved: map<nat, nat>, classes: seq<nat>)
    requires l.Legal()
  {
    && |classes| <= l.Capacity()
    && (forall i: nat, j: nat, b: nat :: BlockOf(l, classes, i, j, b) ==> ClassOfSpan(carved, classes, i, b))
    && (forall b :: b in carved ==> SpanBlock(l, classes, b))
  }

  /** What the arena gives to a refill that finds its class without a chunk. */
  ghost function Offered(l: Layout, w: World, t: nat, choice: Choice, granted: bool): seq<nat>
    requires l.Legal()
  {
    var pc := ThreadOf(w.heap, t).pc;
    if pc.Refilling? && choice.Continue? && pc.k < |w.heap.m.stacks| && pc.k < CLASSES && w.heap.m.stacks[pc.k] == []
       && granted && |w.classes| < l.Capacity()
    then SpanBlocks(l, |w.classes|, pc.k) else []
  }

  ghost function WithSpan(choice: Choice, span: seq<nat>): Choice { if choice.Continue? then Continue(span) else choice }

  /** A step of a thread; granted says whether the system commits memory and the index takes the span. */
  ghost function Advance(l: Layout, g: Limits, w: World, t: nat, choice: Choice, granted: bool): (next: World)
    requires l.Legal() && g.Legal() && Inv(g, w.heap) && FromSpans(l, w.heap.m.carved, w.classes)
    ensures Inv(g, next.heap) && FromSpans(l, next.heap.m.carved, next.classes)
  {
    hide Inv, FromSpans, Next;
    var span := Offered(l, w, t, choice, granted);
    AdvanceKeeps(l, g, w, t, choice, granted);
    World(Next(g, w.heap, t, WithSpan(choice, span)), if span == [] then w.classes else w.classes + [ThreadOf(w.heap, t).pc.k])
  }

  lemma AdvanceKeeps(l: Layout, g: Limits, w: World, t: nat, choice: Choice, granted: bool)
    requires l.Legal() && g.Legal() && Inv(g, w.heap) && FromSpans(l, w.heap.m.carved, w.classes)
    ensures var span := Offered(l, w, t, choice, granted);
            && (span != [] ==> ThreadOf(w.heap, t).pc.Refilling?)
            && FromSpans(l, Next(g, w.heap, t, WithSpan(choice, span)).m.carved,
                         if span == [] then w.classes else w.classes + [ThreadOf(w.heap, t).pc.k])
  {
    hide Inv, FromSpans, Next, SpanBlocks, Classed, Fresh, Layout.Legal;
    var span := Offered(l, w, t, choice, granted);
    CarvedStep(g, w.heap, t, WithSpan(choice, span));
    if span != [] {
      var k := ThreadOf(w.heap, t).pc.k;
      NextSpanFresh(l, w.heap.m, w.classes, k);
      SpanAdded(l, w.heap.m.carved, w.classes, k);
    }
  }

  /** The next span of the arena is new to the heap. */
  lemma NextSpanFresh(l: Layout, m: Memory, classes: seq<nat>, k: nat)
    requires l.Legal() && FromSpans(l, m.carved, classes) && k < CLASSES
    ensures Fresh(m, SpanBlocks(l, |classes|, k)) && SpanBlocks(l, |classes|, k) != []
    ensures forall b :: b in SpanBlocks(l, |classes|, k) ==> b !in m.carved
  {
    hide SpanBlocks, Layout.Legal, NoRepeat, CarvedFrom, BlockOf, Layout.Capacity;
    forall b | b in m.carved
      ensures CarvedFrom(l, classes, |classes|, b)
    {
      SpanBlockCarved(l, classes, b);
    }
    NewBlocksAreFresh(l, classes, |classes|, k, m);
  }

  lemma SpanBlockCarved(l: Layout, classes: seq<nat>, b: nat)
    requires l.Legal() && SpanBlock(l, classes, b)
    ensures CarvedFrom(l, classes, |classes|, b)
  {
    hide Layout.Legal, Layout.BlockAt, Layout.BlockCount;
    var i: nat, j: nat :| BlockOf(l, classes, i, j, b);
  }

  /** One more span leaves the blocks of the others as they are, and adds its own. */
  lemma BlockOfMore(l: Layout, classes: seq<nat>, k: nat, i: nat, j: nat, b: nat)
    requires l.Legal() && k < CLASSES
    ensures BlockOf(l, classes, i, j, b) ==> BlockOf(l, classes + [k], i, j, b) && i < |classes|
    ensures BlockOf(l, classes + [k], i, j, b) ==> BlockOf(l, classes, i, j, b) || (i == |classes| && b in SpanBlocks(l, |classes|, k))
  {
    hide Layout.Legal, Layout.BlockAt;
    if BlockOf(l, classes + [k], i, j, b) && i == |classes| {
      assert SpanBlocks(l, |classes|, k)[j] == b;
    }
  }

  lemma SpanBlocksOf(l: Layout, classes: seq<nat>, k: nat, b: nat)
    requires l.Legal() && k < CLASSES && b in SpanBlocks(l, |classes|, k)
    ensures SpanBlock(l, classes + [k], b)
  {
    hide Layout.Legal, Layout.BlockAt;
    var span := SpanBlocks(l, |classes|, k);
    var j: nat :| j < |span| && span[j] == b;
    assert BlockOf(l, classes + [k], |classes|, j, b);
  }

  lemma SpanAdded(l: Layout, carved: map<nat, nat>, classes: seq<nat>, k: nat)
    requires l.Legal() && FromSpans(l, carved, classes) && k < CLASSES && |classes| < l.Capacity()
    requires forall b :: b in SpanBlocks(l, |classes|, k) ==> b !in carved
    ensures FromSpans(l, Classed(carved, SpanBlocks(l, |classes|, k), k), classes + [k])
  {
    hide Layout.Legal, Layout.Capacity, BlockOf, SpanBlocks;
    var n, more, span := |classes|, classes + [k], SpanBlocks(l, |classes|, k);
    var next := Classed(carved, span, k);
    forall i: nat, j: nat, b: nat | BlockOf(l, more, i, j, b)
      ensures ClassOfSpan(next, more, i, b)
    {
      BlockOfMore(l, classes, k, i, j, b);
      assert BlockOf(l, classes, i, j, b) ==> ClassOfSpan(carved, classes, i, b);
    }
    forall b | b in next
      ensures SpanBlock(l, more, b)
    {
      if b in span {
        SpanBlocksOf(l, classes, k, b);
      } else {
        assert SpanBlock(l, classes, b);
        var i: nat, j: nat :| BlockOf(l, classes, i, j, b);
        BlockOfMore(l, classes, k, i, j, b);
      }
    }
  }

  datatype ArenaTurn = ArenaTurn(thread: nat, choice: Choice, granted: bool)

  lemma NoSpans(l: Layout)
    requires l.Legal()
    ensures FromSpans(l, map[], [])
  {
    hide Layout.Legal, Layout.Capacity, Layout.BlockCount, Layout.BlockAt;
  }

  /** Heap and arena after a run. */
  ghost function RunIn(l: Layout, g: Limits, turns: seq<ArenaTurn>): (w: World)
    requires l.Legal() && g.Legal()
    ensures Inv(g, w.heap) && FromSpans(l, w.heap.m.carved, w.classes)
  {
    hide Inv, FromSpans, Advance;
    if turns == [] then (StartInv(g); NoSpans(l); World(Start(), []))
    else
      var last := turns[|turns| - 1];
      Advance(l, g, RunIn(l, g, turns[..|turns| - 1]), last.thread, last.choice, last.granted)
  }

  /** The run of the heap alone, with the spans the arena gave. */
  ghost function Alone(l: Layout, g: Limits, turns: seq<ArenaTurn>): (plain: seq<Turn>)
    requires l.Legal() && g.Legal()
    ensures |plain| == |turns|
  {
    if turns == [] then []
    else
      var last := turns[|turns| - 1];
      var span := Offered(l, RunIn(l, g, turns[..|turns| - 1]), last.thread, last.choice, last.granted);
      Alone(l, g, turns[..|turns| - 1]) + [Turn(last.thread, WithSpan(last.choice, span))]
  }

  /** Every run with the arena is a run of the heap, so all that holds of those holds here. */
  lemma {:induction false} RunIsRun(l: Layout, g: Limits, turns: seq<ArenaTurn>)
    requires l.Legal() && g.Legal()
    ensures RunIn(l, g, turns).heap == Run(g, Alone(l, g, turns))
  {
    hide Inv, FromSpans, Next, Offered, Layout.Legal;
    if turns != [] {
      var earlier := turns[..|turns| - 1];
      RunIsRun(l, g, earlier);
      assert Alone(l, g, turns)[..|turns| - 1] == Alone(l, g, earlier);
    }
  }

  // ----- what every run keeps

  /** After any run a block of the heap is one block of one claimed span, and has the class of that span; and conversely. */
  lemma BlocksAreSpans(l: Layout, g: Limits, turns: seq<ArenaTurn>, b: nat)
    requires l.Legal() && g.Legal()
    ensures var w := RunIn(l, g, turns); var carved := w.heap.m.carved;
            && (b in carved <==> exists i: nat, j: nat :: BlockOf(l, w.classes, i, j, b))
            && (forall i: nat, j: nat :: BlockOf(l, w.classes, i, j, b) ==> ClassOfSpan(carved, w.classes, i, b))
            && (forall i: nat, j: nat, i': nat, j': nat ::
                  BlockOf(l, w.classes, i, j, b) && BlockOf(l, w.classes, i', j', b) ==> i == i' && j == j')
  {
    hide Inv, RunIn, Layout.Legal, Layout.Capacity, BlockOf;
    var w := RunIn(l, g, turns);
    forall i: nat, j: nat, i': nat, j': nat | BlockOf(l, w.classes, i, j, b) && BlockOf(l, w.classes, i', j', b)
      ensures i == i' && j == j'
    {
      OneBlock(l, w.classes, i, j, i', j', b);
    }
    if b in w.heap.m.carved {
      assert SpanBlock(l, w.classes, b);
    }
    if i: nat, j: nat :| BlockOf(l, w.classes, i, j, b) {
      assert ClassOfSpan(w.heap.m.carved, w.classes, i, b);
    }
  }

  lemma OneBlock(l: Layout, classes: seq<nat>, i: nat, j: nat, i': nat, j': nat, b: nat)
    requires l.Legal() && BlockOf(l, classes, i, j, b) && BlockOf(l, classes, i', j', b)
    ensures i == i' && j == j'
  {
    hide Layout.BlockAt, Layout.Capacity, Layout.BlockCount;
    StrideFits(l, classes[i]);
    StrideFits(l, classes[i']);
    if (i, j) != (i', j') { BlocksApart(l, i, classes[i], j, i', classes[i'], j'); }
  }

  /**
   After any run, with the class table of the arena holding the claimed spans, the checked
   pointer lookup accepts exactly the payloads of carved blocks, and both lookups give their class.
   */
  lemma PayloadsAreCarved(l: Layout, g: Limits, turns: seq<ArenaTurn>, table: seq<nat>, address: nat)
    requires l.Legal() && g.Legal()
    requires var n := |RunIn(l, g, turns).classes|; n <= |table| <= l.Capacity() && table[..n] == RunIn(l, g, turns).classes
    ensures var w := RunIn(l, g, turns); var carved := w.heap.m.carved;
            && (IsPayload(l, table, |w.classes|, address) <==> address >= l.blockHeader && address - l.blockHeader in carved)
            && (IsPayload(l, table, |w.classes|, address) ==>
                  UncheckedBlock(l, table, address) == IndexSpec.Some(Resolved(address - l.blockHeader, carved[address - l.blockHeader])))
  {
    hide Inv, RunIn, FromSpans, Layout.Capacity, Layout.Legal, IsPayload, BlockOf, UncheckedBlock;
    var w := RunIn(l, g, turns);
    SpansWithin(l, w.heap.m.carved, w.classes);
    PayloadIsBlock(l, table, w.classes, address);
    if address >= l.blockHeader {
      var b := address - l.blockHeader;
      BlocksAreSpans(l, g, turns, b);
      if i: nat, j: nat :| BlockOf(l, w.classes, i, j, b) {
        assert ClassOfSpan(w.heap.m.carved, w.classes, i, b);
        BlockResolves(l, table, w.classes, i, j, address);
      }
    }
  }

  lemma SpansWithin(l: Layout, carved: map<nat, nat>, classes: seq<nat>)
    requires l.Legal() && FromSpans(l, carved, classes)
    ensures |classes| <= l.Capacity()
  {
  }

  lemma PayloadIsBlock(l: Layout, table: seq<nat>, classes: seq<nat>, address: nat)
    requires l.Legal() && |classes| <= |table| && table[..|classes|] == classes
    ensures IsPayload(l, table, |classes|, address) <==>
              address >= l.blockHeader && SpanBlock(l, classes, address - l.blockHeader)
  {
    RoomForHeader(l);
    hide Layout.BlockAt, Layout.BlockCount, Layout.Legal;
    assert forall i: nat :: i < |classes| ==> classes[i] == table[i];
    if address >= l.blockHeader {
      var b := address - l.blockHeader;
      if i: nat, j: nat :| BlockOf(l, classes, i, j, b) {
        assert PayloadOf(l, table, |classes|, address, i, j);
      }
    }
    if IsPayload(l, table, |classes|, address) {
      var i: nat, j: nat :| PayloadOf(l, table, |classes|, address, i, j);
      assert BlockOf(l, classes, i, j, address - l.blockHeader);
    }
  }

  /** The unchecked lookup of a payload reads the class of its span. */
  lemma BlockResolves(l: Layout, table: seq<nat>, classes: seq<nat>, i: nat, j: nat, address: nat)
    requires l.Legal() && |classes| <= |table| <= l.Capacity() && table[..|classes|] == classes
    requires address >= l.blockHeader && BlockOf(l, classes, i, j, address - l.blockHeader)
    ensures UncheckedBlock(l, table, address) == IndexSpec.Some(Resolved(address - l.blockHeader, classes[i]))
  {
    RoomForHeader(l);
    hide Layout.BlockAt, Layout.BlockCount, Layout.Legal, Bits.Shr;
    assert classes[i] == table[i];
    assert PayloadOf(l, table, |table|, address, i, j);
    PayloadSpan(l, table, |table|, address, i, j);
  }

  /** As long as the arena has a span left and the system grants it, a refill ends with a block delivered. */
  lemma RefillDelivers(l: Layout, g: Limits, turns: seq<ArenaTurn>, t: nat, k: nat, span: seq<nat>)
    requires l.Legal() && g.Legal() && ThreadOf(RunIn(l, g, turns).heap, t).pc == Refilling(k)
    requires |RunIn(l, g, turns).classes| < l.Capacity()
    ensures var w := RunIn(l, g, turns);
            var next := Advance(l, g, w, t, Continue(span), true).heap;
            && ThreadOf(next, t).pc == Idle
            && exists b :: b in next.m.carved && next.m.carved[b] == k && In(next.m, Live) == [b] + In(w.heap.m, Live)
  {
    hide RunIn, FromSpans, Layout.Capacity, Layout.Legal, Inv, Next, Advance;
    var w := RunIn(l, g, turns);
    RefillDeliversFrom(l, g, w, t, k, span);
  }

  lemma RefillDeliversFrom(l: Layout, g: Limits, w: World, t: nat, k: nat, span: seq<nat>)
    requires l.Legal() && g.Legal() && Inv(g, w.heap) && FromSpans(l, w.heap.m.carved, w.classes)
    requires ThreadOf(w.heap, t).pc == Refilling(k) && |w.classes| < l.Capacity()
    ensures var next := Advance(l, g, w, t, Continue(span), true).heap;
            && ThreadOf(next, t).pc == Idle
            && exists b :: b in next.m.carved && next.m.carved[b] == k && In(next.m, Live) == [b] + In(w.heap.m, Live)
  {
    hide FromSpans, Layout.Capacity, Layout.Legal, Sound, ChunksWithin, In, CarveAll, FromCentral, Fresh,
      SpanBlocks, Take;
    var offered := Offered(l, w, t, Continue(span), true);
    assert ThreadOk(w.heap, t);
    StackCount(w.heap.m);
    NextSpanFresh(l, w.heap.m, w.classes, k);
    var c := ThreadOf(w.heap, t).attached.value;
    CarvedEffect(g, w.heap.m, c, k, offered);
    var mid := if w.heap.m.stacks[k] == [] then CarveAll(w.heap.m, k, offered, g.ChunkLimit()) else w.heap.m;
    var filled := FromCentral(mid, k, Local(c, k));
    Limited(g, filled, c, k);
    TakeEffect(g, filled, c, k);
  }

  lemma Limited(g: Limits, m: Memory, c: nat, k: nat)
    requires g.Legal() && |In(m, Local(c, k))| <= g.Cap() && In(m, Spare(c, k)) == []
    ensures |In(m, Local(c, k))| + |In(m, Spare(c, k))| <= g.limit && |In(m, Spare(c, k))| <= UINT32_MAX
  {
  }
}
