/**
 Page accounting of the overlay conversion: keeping the end of the last counted page makes one
 pass over the regions count every page that a DENSE region touches exactly once.
 Region r holds the bytes from 2^b * r up to 2^b * (r + 1), and pages have 2^p bytes.
 */
module OverlayPages {
  import opened Bits

  function PageFloor(x: nat, p: nat): (r: nat)
    ensures r == Shl(Shr(x, p), p)
  {
    Split(x, p);
    x - Low(x, p)
  }

  function PageCeil(x: nat, p: nat): (r: nat)
    ensures r == Shl(Shr(x + Pow2(p) - 1, p), p)
  {
    PageFloor(x + Pow2(p) - 1, p)
  }

  datatype Account = Account(privateBytes: nat, previousEnd: nat)

  /** The accounting statements of the copy loop for one DENSE region. */
  function AccountRegion(a: Account, r: nat, b: nat, p: nat): (next: Account) {
    PagesOfRegion(r, b, p);
    var pageStart, pageEnd := PageFloor(Shl(r, b), p), PageCeil(Shl(r + 1, b), p);
    if pageEnd > a.previousEnd then
      Account(a.privateBytes + pageEnd - (if pageStart < a.previousEnd then a.previousEnd else pageStart), pageEnd)
    else a
  }

  /** The account after all regions of a layout. */
  function Accounted(dense: seq<bool>, b: nat, p: nat): Account {
    if dense == [] then Account(0, 0)
    else
      var a := Accounted(dense[..|dense| - 1], b, p);
      if dense[|dense| - 1] then AccountRegion(a, |dense| - 1, b, p) else a
  }

  /** Page q and region r have a byte in common. */
  ghost predicate Meets(q: nat, r: nat, b: nat, p: nat) {
    Shl(q, p) < Shl(r + 1, b) && Shl(r, b) < Shl(q + 1, p)
  }

  ghost predicate Touched(dense: seq<bool>, b: nat, p: nat, q: nat) {
    exists r: nat :: r < |dense| && dense[r] && Meets(q, r, b, p)
  }

  ghost function TouchedPages(dense: seq<bool>, b: nat, p: nat): set<nat> {
    set q: nat | q < Shl(|dense|, b) && Touched(dense, b, p, q)
  }

  function FirstPage(r: nat, b: nat, p: nat): nat { Shr(Shl(r, b), p) }
  function EndPage(r: nat, b: nat, p: nat): nat { Shr(Shl(r + 1, b) + Pow2(p) - 1, p) }

  /** The pages of a region form an interval. */
  lemma MeetsIsInterval(q: nat, r: nat, b: nat, p: nat)
    ensures Meets(q, r, b, p) <==> FirstPage(r, b, p) <= q < EndPage(r, b, p)
  {
    hide Shl, Shr, Low, Pow2;
    var start, end := Shl(r, b), Shl(r + 1, b);
    QuotientBelow(start, q + 1, p);
    QuotientBelow(end + Pow2(p) - 1, q + 1, p);
    ShlAdd(q, 1, p);
    ShlOne(p);
  }

  lemma QuotientBelow(x: nat, q: nat, p: nat)
    ensures Shr(x, p) < q <==> x < Shl(q, p)
  {
    Split(x, p);
    ShlMono(Shr(x, p), q, p);
    ShlMono(q, Shr(x, p), p);
  }

  lemma PagesOfRegion(r: nat, b: nat, p: nat)
    ensures FirstPage(r, b, p) < EndPage(r, b, p)
    ensures PageFloor(Shl(r, b), p) < PageCeil(Shl(r + 1, b), p)
  {
    hide Shl, Shr, Low, Pow2;
    ShlMono(r, r + 1, b);
    QuotientBelow(Shl(r, b), EndPage(r, b, p), p);
    QuotientBelow(Shl(r + 1, b) + Pow2(p) - 1, EndPage(r, b, p), p);
    ShlMono(FirstPage(r, b, p), EndPage(r, b, p), p);
    Split(Shl(r, b), p);
    Split(Shl(r + 1, b) + Pow2(p) - 1, p);
  }

  lemma PagesMonotone(r: nat, s: nat, b: nat, p: nat)
    requires r <= s
    ensures FirstPage(r, b, p) <= FirstPage(s, b, p) && EndPage(r, b, p) <= EndPage(s, b, p)
  {
    hide Shl, Shr, Low, Pow2;
    ShlMono(r, s, b);
    ShlMono(r + 1, s + 1, b);
    QuotientMono(Shl(r, b), Shl(s, b), p);
    QuotientMono(Shl(r + 1, b) + Pow2(p) - 1, Shl(s + 1, b) + Pow2(p) - 1, p);
  }

  lemma QuotientMono(x: nat, y: nat, p: nat)
    requires x <= y
    ensures Shr(x, p) <= Shr(y, p)
  {
    SplitOrder(y, x, p);
  }

  /** First and end page of the last DENSE region. */
  ghost function LastFirst(dense: seq<bool>, b: nat, p: nat): nat {
    if dense == [] then 0
    else if dense[|dense| - 1] then FirstPage(|dense| - 1, b, p)
    else LastFirst(dense[..|dense| - 1], b, p)
  }

  ghost function LastEnd(dense: seq<bool>, b: nat, p: nat): nat {
    if dense == [] then 0
    else if dense[|dense| - 1] then EndPage(|dense| - 1, b, p)
    else LastEnd(dense[..|dense| - 1], b, p)
  }

  predicate InInterval(q: nat, lo: nat, hi: nat) { lo <= q < hi }

  function Interval(lo: nat, hi: nat): set<nat> {
    set q: nat | q < hi && InInterval(q, lo, hi)
  }

  lemma {:induction false} IntervalSize(lo: nat, hi: nat)
    requires lo <= hi
    ensures |Interval(lo, hi)| == hi - lo
  {
    if lo == hi {
      assert Interval(lo, hi) == {};
    } else {
      IntervalSize(lo, hi - 1);
      assert Interval(lo, hi) == Interval(lo, hi - 1) + {hi - 1};
    }
  }

  lemma PagesBounded(dense: seq<bool>, b: nat, p: nat, q: nat)
    ensures q in TouchedPages(dense, b, p) <==> Touched(dense, b, p, q)
  {
    hide Shr, Low, Pow2;
    if Touched(dense, b, p, q) {
      var r: nat :| r < |dense| && dense[r] && Meets(q, r, b, p);
      ShlMono(r + 1, |dense|, b);
    }
  }

  /** Appending a region adds the pages it meets. */
  lemma TouchedSnoc(dense: seq<bool>, b: nat, p: nat)
    requires dense != []
    ensures var shorter, r := dense[..|dense| - 1], |dense| - 1;
            TouchedPages(dense, b, p) == TouchedPages(shorter, b, p)
              + (if dense[r] then Interval(FirstPage(r, b, p), EndPage(r, b, p)) else {})
  {
    hide Shl, Shr, Low, Pow2, FirstPage, EndPage, Meets, TouchedPages;
    var shorter, r := dense[..|dense| - 1], |dense| - 1;
    forall q: nat
      ensures q in TouchedPages(dense, b, p) <==>
                q in TouchedPages(shorter, b, p) || (dense[r] && FirstPage(r, b, p) <= q < EndPage(r, b, p))
    {
      PagesBounded(dense, b, p, q);
      PagesBounded(shorter, b, p, q);
      MeetsIsInterval(q, r, b, p);
      assert Touched(dense, b, p, q) <==> Touched(shorter, b, p, q) || (dense[r] && Meets(q, r, b, p));
    }
  }

  lemma {:induction false} LastMonotone(dense: seq<bool>, b: nat, p: nat, r: nat)
    requires |dense| <= r
    ensures LastFirst(dense, b, p) <= FirstPage(r, b, p) && LastEnd(dense, b, p) <= EndPage(r, b, p)
  {
    if dense != [] {
      PagesMonotone(|dense| - 1, r, b, p);
      LastMonotone(dense[..|dense| - 1], b, p, r);
    }
  }

  /** What the running account knows: every counted page is behind the last end, with no gap since the last region. */
  ghost predicate AccountInvariant(dense: seq<bool>, b: nat, p: nat) {
    var touched, first, end := TouchedPages(dense, b, p), LastFirst(dense, b, p), LastEnd(dense, b, p);
    && Accounted(dense, b, p) == Account(Shl(|touched|, p), Shl(end, p))
    && touched <= Interval(0, end) && Interval(first, end) <= touched
  }

  lemma {:induction false} AccountHolds(dense: seq<bool>, b: nat, p: nat)
    ensures AccountInvariant(dense, b, p)
  {
    if dense == [] {
      ShlOne(p);
      assert TouchedPages(dense, b, p) == {};
    } else {
      AccountHolds(dense[..|dense| - 1], b, p);
      TouchedSnoc(dense, b, p);
      if dense[|dense| - 1] { AccountStep(dense, b, p); }
    }
  }

  /** Behind the last end every page from the first page on is already counted; the rest is new. */
  lemma PagesAdded(touched: set<nat>, lastFirst: nat, behind: nat, first: nat, end: nat)
    requires touched <= Interval(0, behind) && Interval(lastFirst, behind) <= touched
    requires lastFirst <= first < end && behind <= end
    ensures var from := if first < behind then behind else first;
            |touched + Interval(first, end)| == |touched| + (end - from)
    ensures touched + Interval(first, end) <= Interval(0, end)
  {
    var from := if first < behind then behind else first;
    assert touched + Interval(first, end) == touched + Interval(from, end);
    IntervalSize(from, end);
    assert touched !! Interval(from, end);
  }

  lemma AccountStep(dense: seq<bool>, b: nat, p: nat)
    requires dense != [] && dense[|dense| - 1]
    requires AccountInvariant(dense[..|dense| - 1], b, p)
    ensures AccountInvariant(dense, b, p)
  {
    hide Shl, Shr, Low, Pow2, TouchedPages;
    var shorter, r := dense[..|dense| - 1], |dense| - 1;
    var touched, first, end := TouchedPages(shorter, b, p), FirstPage(r, b, p), EndPage(r, b, p);
    var behind := LastEnd(shorter, b, p);
    TouchedSnoc(dense, b, p);
    LastMonotone(shorter, b, p, r);
    PagesOfRegion(r, b, p);
    ShlMono(end, behind, p);
    ShlMono(first, behind, p);
    var from := if first < behind then behind else first;
    PagesAdded(touched, LastFirst(shorter, b, p), behind, first, end);
    ShlAdd(|touched|, end - from, p);
    ShlAdd(from, end - from, p);
  }

  /** No page is counted twice and none is missed, for every layout and every power-of-two page size. */
  lemma PrivateBytesArePages(dense: seq<bool>, b: nat, p: nat)
    ensures Accounted(dense, b, p).privateBytes == Shl(|TouchedPages(dense, b, p)|, p)
    ensures forall q: nat :: q in TouchedPages(dense, b, p) <==> Touched(dense, b, p, q)
  {
    AccountHolds(dense, b, p);
    forall q: nat
      ensures q in TouchedPages(dense, b, p) <==> Touched(dense, b, p, q)
    {
      PagesBounded(dense, b, p, q);
    }
  }
}
