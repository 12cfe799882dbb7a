/** Where spans and blocks lie in the arena: alignment, strides and block addresses. */
module SpanLayout {
  import opened Bits
  import opened SizeClasses

  const GRANULE_SHIFT: nat := 12
  const CLASSES: nat := 19

  /** memx_heap_align_up; zero when the sum does not fit in a word. */
  function AlignUp(w: nat, value: nat, n: nat): nat
    requires n <= w
  {
    Pow2Mono(n, w);
    if value > Pow2(w) - 1 - (Pow2(n) - 1) then 0 else And(value + Pow2(n) - 1, Not(w, Pow2(n) - 1))
  }

  lemma AlignUpFacts(w: nat, value: nat, n: nat)
    requires n <= w
    ensures AlignUp(w, value, n) != 0 ==> value <= AlignUp(w, value, n) < value + Pow2(n) && Low(AlignUp(w, value, n), n) == 0
    ensures AlignUp(w, value, n) == 0 <==> value == 0 || value > Pow2(w) - Pow2(n)
  {
    hide Pow2, And, Low;
    Pow2Mono(n, w);
    if value <= Pow2(w) - Pow2(n) {
      var x := value + Pow2(n) - 1;
      AndNotMask(w, x, n);
      Split(x, n);
      Unsplit(Shr(x, n), 0, n);
      if value == 0 { LowSmall(x, n); }
    }
  }

  lemma AlignUpMono(w: nat, a: nat, b: nat, n: nat)
    requires n <= w && a <= b && AlignUp(w, b, n) != 0
    ensures AlignUp(w, a, n) <= AlignUp(w, b, n)
  {
    hide Pow2, And, Low;
    Pow2Mono(n, w);
    AlignUpFacts(w, b, n);
    var x, y := a + Pow2(n) - 1, b + Pow2(n) - 1;
    AndNotMask(w, x, n);
    AndNotMask(w, y, n);
    Split(x, n);
    Split(y, n);
    SplitOrder(x, y, n);
    ShlMono(Shr(x, n), Shr(y, n), n);
  }

  // ----- multiples

  function Times(j: nat, s: nat): (r: nat) { if j == 0 then 0 else Times(j - 1, s) + s }

  lemma {:induction false} TimesIsProduct(j: nat, s: nat)
    ensures Times(j, s) == j * s
  {
    if j > 0 { TimesIsProduct(j - 1, s); }
  }

  lemma {:induction false} TimesMono(i: nat, j: nat, s: nat)
    requires i <= j
    ensures Times(i, s) <= Times(j, s)
    ensures i < j ==> Times(i, s) + s <= Times(j, s)
    decreases j
  {
    if i < j { TimesMono(i, j - 1, s); }
  }

  function Quotient(x: nat, s: nat): nat
    requires s > 0
  {
    x / s
  }

  /** Quotient and remainder of the machine's unsigned division. */
  lemma Divided(x: nat, s: nat)
    requires s > 0
    ensures x / s == Quotient(x, s) && 0 <= x % s < s && x == Times(Quotient(x, s), s) + x % s
  {
    TimesIsProduct(x / s, s);
  }

  lemma DividedUnique(x: nat, s: nat, j: nat, r: nat)
    requires s > 0 && x == Times(j, s) + r && r < s
    ensures Quotient(x, s) == j && x / s == j && x % s == r
  {
    Divided(x, s);
    var q := x / s;
    hide Times;
    if j < q { TimesMono(j, q, s); }
    if q < j { TimesMono(q, j, s); }
  }

  // ----- the arena

  datatype Layout = Layout(
    wordLog: nat, base: nat, size: nat, spanShift: nat, commitShift: nat, spanHeader: nat, blockHeader: nat, alignLog: nat)
  {
    function WordBits(): nat { Pow2(wordLog + 3) }
    function WordMax(): nat { Pow2(WordBits()) - 1 }
    function SpanSize(): nat { Pow2(spanShift) }
    function Capacity(): nat { Shr(size, spanShift) }
    function SpanBase(i: nat): nat { base + Shl(i, spanShift) }

    function HeaderSize(): nat
      requires alignLog <= WordBits()
    {
      AlignUp(WordBits(), spanHeader, alignLog)
    }

    function Stride(k: nat): nat
      requires alignLog <= WordBits() && k < CLASSES
    {
      AlignUp(WordBits(), blockHeader + TABLE[k], alignLog)
    }

    /** What memx_heap_create checks, and what reserving the arena gives. */
    ghost predicate Legal() {
      && wordLog >= 2 && alignLog <= WordBits() && spanShift < WordBits() && GRANULE_SHIFT <= spanShift <= commitShift <= WordBits()
      && base > 0 && size > 0 && base <= WordMax() && size <= WordMax() - base
      && Low(base, commitShift) == 0 && Low(size, commitShift) == 0
      && spanHeader > 0 && blockHeader > 0
      && HeaderSize() != 0 && Stride(CLASSES - 1) != 0 && HeaderSize() + Stride(CLASSES - 1) <= SpanSize()
    }

    /** Blocks in a span of class k. */
    function BlockCount(k: nat): nat
      requires alignLog <= WordBits() && k < CLASSES && HeaderSize() <= SpanSize()
    {
      if Stride(k) == 0 then 0 else Quotient(SpanSize() - HeaderSize(), Stride(k))
    }

    /** Header address of block j in span i of class k. */
    function BlockAt(i: nat, k: nat, j: nat): nat
      requires alignLog <= WordBits() && k < CLASSES
    {
      SpanBase(i) + HeaderSize() + Times(j, Stride(k))
    }
  }

  /** Every stride leaves room for the class and its header. */
  lemma StrideFits(l: Layout, k: nat)
    requires l.Legal() && k < CLASSES
    ensures l.blockHeader + TABLE[k] <= l.Stride(k) && l.HeaderSize() + l.Stride(k) <= l.SpanSize() && l.BlockCount(k) >= 1
    ensures Low(l.Stride(k), l.alignLog) == 0 && TABLE[k] > 0
  {
    var w := l.WordBits();
    hide Pow2, Low;
    assert TABLE[k] <= TABLE[CLASSES - 1];
    AlignUpMono(w, l.blockHeader + TABLE[k], l.blockHeader + TABLE[CLASSES - 1], l.alignLog);
    AlignUpFacts(w, l.blockHeader + TABLE[CLASSES - 1], l.alignLog);
    AlignUpFacts(w, l.blockHeader + TABLE[k], l.alignLog);
    Divided(l.SpanSize() - l.HeaderSize(), l.Stride(k));
  }

  /** A block lies inside its span, header and payload. */
  lemma BlockInSpan(l: Layout, i: nat, k: nat, j: nat)
    requires l.Legal() && k < CLASSES && j < l.BlockCount(k)
    ensures l.SpanBase(i) <= l.BlockAt(i, k, j) && l.BlockAt(i, k, j) + l.Stride(k) <= l.SpanBase(i) + l.SpanSize()
  {
    StrideFits(l, k);
    Divided(l.SpanSize() - l.HeaderSize(), l.Stride(k));
    TimesMono(j, l.BlockCount(k), l.Stride(k));
  }

  /** Blocks of a heap never overlap: two block numbers give disjoint strides. */
  lemma BlocksApart(l: Layout, i: nat, k: nat, j: nat, i': nat, k': nat, j': nat)
    requires l.Legal() && k < CLASSES && j < l.BlockCount(k) && k' < CLASSES && j' < l.BlockCount(k')
    requires (i == i' ==> k == k') && (i, j) != (i', j')
    ensures l.BlockAt(i, k, j) + l.Stride(k) <= l.BlockAt(i', k', j') || l.BlockAt(i', k', j') + l.Stride(k') <= l.BlockAt(i, k, j)
  {
    hide Times, Shl, Pow2;
    BlockInSpan(l, i, k, j);
    BlockInSpan(l, i', k', j');
    ShlMono(i, i', l.spanShift);
    ShlMono(i', i, l.spanShift);
    if i == i' {
      if j < j' { TimesMono(j, j', l.Stride(k)); } else { TimesMono(j', j, l.Stride(k)); }
    }
  }

  /** Payload start of block j: every address determines at most one such block in a span. */
  ghost predicate PayloadOf(l: Layout, classes: seq<nat>, n: nat, address: nat, i: nat, j: nat)
    requires l.alignLog <= l.WordBits() && l.HeaderSize() <= l.SpanSize()
  {
    i < n && i < |classes| && classes[i] < CLASSES && j < l.BlockCount(classes[i])
    && address == l.BlockAt(i, classes[i], j) + l.blockHeader
  }

  /** The span of a payload start is the quotient of its arena offset. */
  lemma PayloadSpan(l: Layout, classes: seq<nat>, n: nat, address: nat, i: nat, j: nat)
    requires l.Legal() && n <= l.Capacity() && PayloadOf(l, classes, n, address, i, j)
    ensures l.base <= address && address - l.base < l.size && Shr(address - l.base, l.spanShift) == i
  {
    hide Times, Shl, Pow2;
    BlockInSpan(l, i, classes[i], j);
    StrideFits(l, classes[i]);
    Unsplit(i, address - l.SpanBase(i), l.spanShift);
    SpanInside(l, i);
  }

  /** A span number below the capacity names a stretch of the arena. */
  lemma SpanInside(l: Layout, i: nat)
    requires l.Legal() && i < l.Capacity()
    ensures Shl(i, l.spanShift) + l.SpanSize() <= l.size
  {
    hide Shl, Pow2, Shr, Low;
    ShlMono(i, l.Capacity(), l.spanShift);
    Split(l.size, l.spanShift);
  }

  /** Spans are disjoint stretches of whole span size. */
  lemma SpansApart(l: Layout, i: nat, i': nat)
    requires i != i'
    ensures l.SpanBase(i) + l.SpanSize() <= l.SpanBase(i') || l.SpanBase(i') + l.SpanSize() <= l.SpanBase(i)
  {
    hide Shl, Pow2;
    ShlMono(i, i', l.spanShift);
    ShlMono(i', i, l.spanShift);
  }
}
