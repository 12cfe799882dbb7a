/** One-word region descriptors: zero, a shifted handle with tag one, or an aligned table pointer with tag two. */
module Descriptors {
  import opened Bits
  import opened IndexSpec

  datatype RegionType = TypeEmpty | TypeUniform | TypeDense

  function TypeDecode(d: nat): RegionType {
    var tag := And(d, 3);
    if d == 0 then TypeEmpty else if tag == 1 then TypeUniform else if tag == 2 then TypeDense else TypeEmpty
  }

  function UniformDecode(d: nat): nat { Shr(d, 2) }

  /** The left shift drops the two top bits of the handle. */
  function UniformEncode(c: Config, handle: nat): nat {
    Or(Low(Shl(handle, 2), c.WordBits()), 1)
  }

  function DenseDecode(c: Config, d: nat): nat
    requires c.IsWord(d)
  {
    WordHasTagBits(c);
    And(d, Not(c.WordBits(), 3))
  }

  function DenseEncode(pointer: nat): nat { Or(pointer, 2) }

  lemma WordHasTagBits(c: Config)
    ensures c.WordBits() >= 8 && Pow2(c.WordBits()) >= 256
  {
    Pow2Mono(3, c.wordLog + 3);
    assert Pow2(3) == 8;
    Pow2Mono(8, c.WordBits());
    assert Pow2(8) == 256;
  }

  lemma TagBits(d: nat)
    ensures And(d, 3) == Low(d, 2)
  {
    assert Pow2(2) == 4;
    AndMask(d, 2);
  }

  /** The encoding keeps exactly the handles up to InlineMax. */
  lemma UniformRoundTrip(c: Config, handle: nat)
    requires c.IsWord(handle)
    ensures UniformDecode(UniformEncode(c, handle)) == handle <==> handle <= c.InlineMax()
    ensures handle <= c.InlineMax() ==>
              TypeDecode(UniformEncode(c, handle)) == TypeUniform && c.IsWord(UniformEncode(c, handle))
  {
    hide Shl, Shr, Or, And, Low, Pow2;
    var w := c.WordBits();
    WordHasTagBits(c);
    var shifted := Low(Shl(handle, 2), w);
    FourTimes(handle);
    LowOfShift(handle, w);
    OrLow(shifted, 1, 2) by { SmallPowers(); }
    var h := Low(handle, w - 2);
    FourTimes(h);
    SmallPowers();
    Unsplit(h, 1, 2);
    TagBits(shifted + 1);
    LargestInline(c);
    if handle <= c.InlineMax() {
      LowSmall(handle, w - 2);
    }
  }

  lemma SmallPowers()
    ensures Pow2(0) == 1 && Pow2(1) == 2 && Pow2(2) == 4
  {
    assert Pow2(1) == 2 * Pow2(0);
  }

  lemma FourTimes(x: nat)
    ensures Shl(x, 2) == 4 * x
  {
    assert Shl(x, 1) == 2 * Shl(x, 0);
  }

  lemma LargestInline(c: Config)
    ensures c.WordBits() >= 2 && c.InlineMax() == Pow2(c.WordBits() - 2) - 1
    ensures c.WordMax() == 4 * c.InlineMax() + 3
  {
    WordHasTagBits(c);
    var w := c.WordBits();
    var q := Pow2(w - 2) - 1;
    assert Pow2(w) == 2 * Pow2(w - 1) && Pow2(w - 1) == 2 * Pow2(w - 2);
    FourTimes(q);
    SmallPowers();
    Unsplit(q, 3, 2);
  }

  lemma LowOfShift(x: nat, w: nat)
    requires w >= 2
    ensures Low(Shl(x, 2), w) == Shl(Low(x, w - 2), 2)
    ensures Low(Low(Shl(x, 2), w), 2) == 0
  {
    FourTimes(x);
    var y := Shl(x, 2);
    assert y / 2 == 2 * x && y % 2 == 0;
    assert Low(y, w) == 2 * Low(2 * x, w - 1);
    assert Low(2 * x, w - 1) == 2 * Low(x, w - 2);
    FourTimes(Low(x, w - 2));
    SmallPowers();
    Unsplit(Low(x, w - 2), 0, 2);
  }

  /** An aligned table pointer survives tagging, and the tag says DENSE. */
  lemma DenseRoundTrip(c: Config, pointer: nat)
    requires c.IsWord(pointer) && Low(pointer, 2) == 0
    ensures DenseEncode(pointer) == pointer + 2 && c.IsWord(pointer + 2)
    ensures TypeDecode(DenseEncode(pointer)) == TypeDense
    ensures DenseDecode(c, DenseEncode(pointer)) == pointer
  {
    hide Shl, Shr, Or, And, Low, Pow2;
    var w := c.WordBits();
    WordHasTagBits(c);
    SmallPowers();
    OrLow(pointer, 2, 2);
    LowSmall(2, 2);
    AddAligned(pointer, 2, 2);
    TagBits(pointer + 2);
    AlignedBelowTop(c, pointer);
    AndNotMask(w, pointer + 2, 2);
  }

  /** The last multiple of four leaves room for any tag. */
  lemma AlignedBelowTop(c: Config, pointer: nat)
    requires c.IsWord(pointer) && Low(pointer, 2) == 0
    ensures pointer + 3 <= c.WordMax()
  {
    WordHasTagBits(c);
    SmallPowers();
    Split(pointer, 2);
    FourTimes(Shr(pointer, 2));
    var w := c.WordBits();
    assert Pow2(w) == 2 * Pow2(w - 1) && Pow2(w - 1) == 2 * Pow2(w - 2);
  }
}
