/** The size classes of the heap: two per power of two, found from the top bits of a request. */
module SizeClasses {
  import opened Bits

  const TABLE: seq<nat> := [16, 24, 32, 48, 64, 96, 128, 192, 256, 384, 512, 768, 1024, 1536, 2048, 3072, 4096, 6144, 8192]

  /** Classes continue past the table with 1.5 * 2^n and 2^n alternately. */
  function ClassSize(i: nat): (size: nat)
    ensures size > 0
  {
    if i == 0 then 16 else if i % 2 == 1 then Shl(24, i / 2) else Shl(16, i / 2)
  }

  /** The table holds the first nineteen classes. */
  lemma TableIsClassSize(i: nat)
    requires i < |TABLE|
    ensures TABLE[i] == ClassSize(i)
  {
    assert Shl(16, 1) == 32 && Shl(16, 2) == 64 && Shl(16, 3) == 128 && Shl(16, 4) == 256 && Shl(16, 5) == 512;
    assert Shl(16, 6) == 1024 && Shl(16, 7) == 2048 && Shl(16, 8) == 4096 && Shl(16, 9) == 8192;
    assert Shl(24, 1) == 48 && Shl(24, 2) == 96 && Shl(24, 3) == 192 && Shl(24, 4) == 384 && Shl(24, 5) == 768;
    assert Shl(24, 6) == 1536 && Shl(24, 7) == 3072 && Shl(24, 8) == 6144;
  }

  lemma {:induction false} ShlScale(x: nat, y: nat, n: nat)
    ensures x < y ==> Shl(x, n) < Shl(y, n)
    ensures Shl(2 * x, n) == Shl(x, n + 1)
  {
    if n > 0 { ShlScale(x, y, n - 1); }
  }

  /** Classes grow. */
  lemma {:induction false} ClassesGrow(i: nat, j: nat)
    requires i < j
    ensures ClassSize(i) < ClassSize(j)
    decreases j
  {
    var h := (j - 1) / 2;
    if j % 2 == 1 {
      ShlScale(16, 24, h);
    } else {
      ShlScale(24, 32, h);
      ShlScale(16, 24, h);
    }
    assert ClassSize(j - 1) < ClassSize(j);
    if i < j - 1 { ClassesGrow(i, j - 1); }
  }

  /** The number of significant bits. */
  function BitWidth(v: nat): nat { if v == 0 then 0 else 1 + BitWidth(v / 2) }

  lemma {:induction false} BitWidthBounds(v: nat)
    requires v > 0
    ensures BitWidth(v) >= 1 && Pow2(BitWidth(v) - 1) <= v < Pow2(BitWidth(v))
  {
    if v > 1 { BitWidthBounds(v / 2); }
  }

  predicate LeastFitting(size: nat, i: nat) { size <= ClassSize(i) && (i > 0 ==> ClassSize(i - 1) < size) }

  /** At most one class is the least fitting one, and no smaller class fits. */
  lemma LeastIsLeast(size: nat, i: nat, j: nat)
    requires LeastFitting(size, i) && size <= ClassSize(j)
    ensures i <= j
  {
    if j < i - 1 { ClassesGrow(j, i - 1); }
  }

  lemma WideEnough(value: nat)
    requires value >= 16
    ensures BitWidth(value) >= 5
  {
    assert Pow2(4) == 16;
    hide Pow2, BitWidth;
    if BitWidth(value) <= 4 {
      Pow2Mono(BitWidth(value), 4);
      BitWidthBounds(value);
      assert false;
    }
  }

  /** The octave of a value and the half of the octave it lies in. */
  lemma Octave(value: nat, width: nat)
    requires value >= 16 && width == BitWidth(value)
    ensures width >= 5
    ensures var half := And(Shr(value, width - 2), 1);
            half <= 1 && LeastFitting(value + 1, 2 * (width - 5) + half + 1)
  {
    WideEnough(value);
    TopTwoBits(value, width);
    var n := width - 5;
    var top := Shr(value, width - 2);
    TopBit(top);
    hide Shl, Shr, And, ClassSize, BitWidth, Pow2;
    OctaveBounds(n);
    if top == 2 {
      assert LeastFitting(value + 1, 2 * n + 1);
    } else {
      assert LeastFitting(value + 1, 2 * n + 2);
    }
  }

  /** The two top bits of a value tell which half of its octave it lies in. */
  lemma TopTwoBits(value: nat, width: nat)
    requires value >= 16 && width == BitWidth(value) && width >= 5
    ensures var top := Shr(value, width - 2); 2 <= top <= 3 && Shl(top, width - 2) <= value < Shl(top + 1, width - 2)
  {
    BitWidthBounds(value);
    hide Pow2, Shl, Shr, Low, And, ClassSize, BitWidth;
    var top := Shr(value, width - 2);
    OctaveBounds(width - 5);
    Split(value, width - 2);
    Below(value, width - 2);
    ShlMono(top + 1, 2, width - 2);
    ShlMono(4, top, width - 2);
  }

  lemma TopBit(top: nat)
    requires 2 <= top <= 3
    ensures And(top, 1) == top - 2
  {
    AndMask(top, 1);
  }

  lemma Below(x: nat, n: nat)
    ensures Low(x, n) < Pow2(n)
    ensures x < Shl(Shr(x, n) + 1, n)
  {
    Split(x, n);
    Unsplit(Shr(x, n), 0, n);
    ShlAdd(Shr(x, n), 1, n);
    ShlOne(n);
  }

  lemma {:induction false} OctaveBounds(n: nat)
    ensures Pow2(n + 4) == ClassSize(2 * n) == Shl(2, n + 3)
    ensures ClassSize(2 * n + 1) == Shl(3, n + 3)
    ensures Pow2(n + 5) == ClassSize(2 * n + 2) == Shl(4, n + 3)
  {
    if n == 0 {
      assert Shl(2, 3) == 16 && Shl(3, 3) == 24 && Shl(4, 3) == 32;
      assert Pow2(4) == 16 && Pow2(5) == 32 && Shl(16, 0) == 16 && Shl(24, 0) == 24 && Shl(16, 1) == 32;
    } else {
      OctaveBounds(n - 1);
    }
  }

  /**
   memx_heap_class_for_size: the index of the least class that fits, which lies in the table
   exactly for requests of at most 8192 bytes, and wastes less than half of the request.
   */
  method ClassForSize(size: nat) returns (index: nat)
    requires size >= 1
    ensures LeastFitting(size, index)
    ensures index >= |TABLE| <==> size > 8192
    ensures size > 16 ==> 2 * ClassSize(index) < 3 * size
  {
    hide Shr, And, ClassSize;
    if size <= 16 {
      SmallestClass(size);
      return 0;
    }
    var width: int, value: nat := 0, size - 1;
    while value != 0
      invariant width + BitWidth(value) == BitWidth(size - 1)
    {
      value := value / 2;
      width := width + 1;
    }
    value := size - 1;
    Octave(value, width);
    if width < 5 { width := 5; }
    var half := And(Shr(value, width - 2), 1);
    index := 2 * (width - 5) + half + 1;
    InTable(size, index);
    Waste(size, index);
  }

  lemma SmallestClass(size: nat)
    requires size <= 16
    ensures LeastFitting(size, 0)
  {
  }

  lemma InTable(size: nat, index: nat)
    requires LeastFitting(size, index)
    ensures index >= |TABLE| <==> size > 8192
  {
    TableIsClassSize(18);
    if size <= 8192 { LeastIsLeast(size, index, 18); }
    if index < 18 { ClassesGrow(index, 18); }
  }

  lemma Waste(size: nat, index: nat)
    requires LeastFitting(size, index) && index > 0
    ensures 2 * ClassSize(index) < 3 * size
  {
    OctaveBounds((index - 1) / 2);
    ThreeHalves(index);
  }

  lemma {:induction false} ThreeHalves(index: nat)
    requires index > 0
    ensures 2 * ClassSize(index) <= 3 * ClassSize(index - 1)
  {
    if index > 2 {
      ThreeHalves(index - 2);
      assert index % 2 == (index - 2) % 2 && index / 2 == (index - 2) / 2 + 1;
      assert (index - 1) % 2 == (index - 3) % 2;
      if index > 3 { assert (index - 1) / 2 == (index - 3) / 2 + 1; }
    }
  }
}
