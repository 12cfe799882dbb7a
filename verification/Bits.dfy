/**
 Unsigned machine words as natural numbers, with the shifts and masks of the C sources.
 Every definition proceeds one binary digit at a time, so that address arithmetic
 stays linear: Shl multiplies by a power of two, Shr divides by it, Low is the remainder.
 */
module Bits {

  function Pow2(n: nat): (r: nat)
    ensures r >= 1
  {
    if n == 0 then 1 else 2 * Pow2(n - 1)
  }

  /** x << n without a word bound: x times 2^n. */
  function Shl(x: nat, n: nat): (r: nat)
    ensures r >= x
  {
    if n == 0 then x else 2 * Shl(x, n - 1)
  }

  /** x >> n: the quotient of x by 2^n. */
  function Shr(x: nat, n: nat): (r: nat)
    ensures r <= x
  {
    if n == 0 then x else Shr(x / 2, n - 1)
  }

  /** The n low digits of x: the remainder of x by 2^n. */
  function Low(x: nat, n: nat): (r: nat)
    ensures r <= x && r < Pow2(n)
  {
    if n == 0 then 0 else 2 * Low(x / 2, n - 1) + x % 2
  }

  /** Bitwise conjunction. */
  function And(x: nat, y: nat): (r: nat)
    ensures r <= x && r <= y
  {
    if x == 0 || y == 0 then 0 else 2 * And(x / 2, y / 2) + (if x % 2 == 1 && y % 2 == 1 then 1 else 0)
  }

  /** Bitwise disjunction. */
  function Or(x: nat, y: nat): (r: nat)
    decreases x + y
  {
    if x == 0 then y else if y == 0 then x
    else 2 * Or(x / 2, y / 2) + (if x % 2 == 1 || y % 2 == 1 then 1 else 0)
  }

  /** Complement of a word of w bits. */
  function Not(w: nat, x: nat): (r: nat)
    requires x < Pow2(w)
  {
    Pow2(w) - 1 - x
  }

  // ----- powers and shifts

  lemma {:induction false} Pow2Mono(a: nat, b: nat)
    requires a <= b
    ensures Pow2(a) <= Pow2(b)
    ensures a < b ==> 2 * Pow2(a) <= Pow2(b)
  {
    if a < b { Pow2Mono(a, b - 1); }
  }

  lemma {:induction false} ShlOne(n: nat)
    ensures Shl(1, n) == Pow2(n) && Shl(0, n) == 0
  {
    if n > 0 { ShlOne(n - 1); }
  }

  lemma {:induction false} ShlAdd(a: nat, b: nat, n: nat)
    ensures Shl(a + b, n) == Shl(a, n) + Shl(b, n)
  {
    if n > 0 { ShlAdd(a, b, n - 1); }
  }

  /** Distinct multiples of 2^n lie at least 2^n apart. */
  lemma ShlMono(a: nat, b: nat, n: nat)
    ensures a <= b <==> Shl(a, n) <= Shl(b, n)
    ensures a < b <==> Shl(a, n) + Pow2(n) <= Shl(b, n)
  {
    if a < b {
      ShlAdd(a, b - a, n);
      ShlAdd(1, b - a - 1, n);
      ShlOne(n);
    } else {
      ShlAdd(b, a - b, n);
    }
  }

  lemma {:induction false} ShlShl(x: nat, a: nat, b: nat)
    ensures Shl(Shl(x, a), b) == Shl(x, a + b)
  {
    if b > 0 { ShlShl(x, a, b - 1); }
  }

  lemma Pow2Add(a: nat, b: nat)
    ensures Shl(Pow2(a), b) == Pow2(a + b)
  {
    ShlOne(a);
    ShlShl(1, a, b);
    ShlOne(a + b);
  }

  // ----- quotient and remainder

  /** Dividing by 2^n: x is its quotient times 2^n plus its remainder. */
  lemma {:induction false} Split(x: nat, n: nat)
    ensures x == Shl(Shr(x, n), n) + Low(x, n)
  {
    if n > 0 { Split(x / 2, n - 1); }
  }

  /** The decomposition is unique. */
  lemma {:induction false} Unsplit(q: nat, r: nat, n: nat)
    requires r < Pow2(n)
    ensures Shr(Shl(q, n) + r, n) == q
    ensures Low(Shl(q, n) + r, n) == r
  {
    if n > 0 {
      assert (Shl(q, n) + r) / 2 == Shl(q, n - 1) + r / 2;
      Unsplit(q, r / 2, n - 1);
    }
  }

  /** Adding a multiple of 2^n adds its quotient and keeps the remainder. */
  lemma AddAligned(x: nat, y: nat, n: nat)
    requires Low(x, n) == 0
    ensures Shr(x + y, n) == Shr(x, n) + Shr(y, n)
    ensures Low(x + y, n) == Low(y, n)
  {
    Split(x, n);
    Split(y, n);
    ShlAdd(Shr(x, n), Shr(y, n), n);
    Unsplit(Shr(x, n) + Shr(y, n), Low(y, n), n);
  }

  /** The order of two numbers is the lexicographic order of (quotient, remainder). */
  lemma SplitOrder(x: nat, y: nat, n: nat)
    ensures x < y <==> Shr(x, n) < Shr(y, n) || (Shr(x, n) == Shr(y, n) && Low(x, n) < Low(y, n))
  {
    Split(x, n);
    Split(y, n);
    ShlMono(Shr(x, n), Shr(y, n), n);
    ShlMono(Shr(y, n), Shr(x, n), n);
  }

  /** Multiples of 2^n are equal or at least 2^n apart. */
  lemma MultiplesApart(x: nat, y: nat, n: nat)
    requires Low(x, n) == 0 && Low(y, n) == 0
    ensures x < y ==> x + Pow2(n) <= y
  {
    Split(x, n);
    Split(y, n);
    ShlMono(Shr(x, n), Shr(y, n), n);
  }

  lemma {:induction false} ShrShr(x: nat, a: nat, b: nat)
    ensures Shr(Shr(x, a), b) == Shr(x, a + b)
    ensures Shr(Low(x, a + b), a) == Low(Shr(x, a), b)
    ensures Low(Low(x, a + b), a) == Low(x, a)
  {
    if a > 0 {
      ShrShr(x / 2, a - 1, b);
      assert Low(x, a + b) / 2 == Low(x / 2, a + b - 1);
    }
  }

  // ----- masks

  /** x & (2^n - 1) keeps the n low digits. */
  lemma {:induction false} AndMask(x: nat, n: nat)
    ensures And(x, Pow2(n) - 1) == Low(x, n)
  {
    if n > 0 && x > 0 { AndMask(x / 2, n - 1); }
  }

  /** x & ~(2^n - 1), in a word of w bits, clears the n low digits. */
  lemma {:induction false} AndNotMask(w: nat, x: nat, n: nat)
    requires n <= w && x < Pow2(w)
    ensures Pow2(n) <= Pow2(w)
    ensures And(x, Not(w, Pow2(n) - 1)) == x - Low(x, n)
  {
    Pow2Mono(n, w);
    if n == 0 {
      AndMask(x, w);
      LowSmall(x, w);
    } else if x > 0 {
      var y := Not(w, Pow2(n) - 1);
      AndNotMask(w - 1, x / 2, n - 1);
      assert y == 2 * Not(w - 1, Pow2(n - 1) - 1);
      if y == 0 { LowSmall(x, n); }
    }
  }

  lemma {:induction false} LowSmall(x: nat, n: nat)
    requires x < Pow2(n)
    ensures Low(x, n) == x && Shr(x, n) == 0
  {
    if n > 0 { LowSmall(x / 2, n - 1); }
  }

  /** Masking with all ones keeps a word, masking with zero clears it. */
  lemma AndAllOnes(w: nat, x: nat)
    requires x < Pow2(w)
    ensures And(x, Pow2(w) - 1) == x && And(x, 0) == 0
  {
    AndMask(x, w);
    LowSmall(x, w);
  }

  /** Setting digits below 2^n in a multiple of 2^n adds them. */
  lemma {:induction false} OrLow(x: nat, low: nat, n: nat)
    requires low < Pow2(n) && Low(x, n) == 0
    ensures Or(x, low) == x + low
  {
    if n > 0 && x > 0 && low > 0 { OrLow(x / 2, low / 2, n - 1); }
  }
}
