/** The generator's free list: sorted ranges that never touch, taken from at either end and merged when given back. */
module FreeRanges {
  import opened Bits

  datatype Range = Range(base: nat, size: nat) {
    function End(): nat { base + size }
    predicate Has(a: nat) { base <= a < base + size }
  }

  /** Sorted and apart; neighbours may touch. */
  ghost predicate Sorted(s: seq<Range>) {
    && (forall i :: 0 <= i < |s| ==> s[i].size > 0)
    && (forall i, j :: 0 <= i < j < |s| ==> s[i].End() <= s[j].base)
  }

  /** Sorted, and no two ranges touch. */
  ghost predicate Gapped(s: seq<Range>) {
    && (forall i :: 0 <= i < |s| ==> s[i].size > 0)
    && (forall i, j :: 0 <= i < j < |s| ==> s[i].End() < s[j].base)
  }

  ghost predicate Aligned(s: seq<Range>, gs: nat) {
    forall i :: 0 <= i < |s| ==> Low(s[i].base, gs) == 0 && Low(s[i].size, gs) == 0
  }

  ghost predicate Covers(s: seq<Range>, a: nat) { exists i :: 0 <= i < |s| && s[i].Has(a) }

  /** No address of r is covered. */
  ghost predicate Clear(s: seq<Range>, r: Range) { forall a :: r.Has(a) ==> !Covers(s, a) }

  // ----- sorting

  /** Tuple order: by base, then by size. */
  predicate Before(x: Range, y: Range) { x.base < y.base || (x.base == y.base && x.size < y.size) }

  function Place(s: seq<Range>, x: Range): seq<Range> {
    if s == [] then [x] else if Before(x, s[0]) then [x] + s else [s[0]] + Place(s[1..], x)
  }

  /** list.sort, as insertion from the front. */
  function Sort(s: seq<Range>): seq<Range> {
    if s == [] then [] else Place(Sort(s[..|s| - 1]), s[|s| - 1])
  }

  lemma {:induction false} PlaceLast(s: seq<Range>, x: Range)
    requires forall i :: 0 <= i < |s| ==> !Before(x, s[i])
    ensures Place(s, x) == s + [x]
  {
    if s != [] {
      PlaceLast(s[1..], x);
      assert s + [x] == [s[0]] + (s[1..] + [x]);
    }
  }

  lemma {:induction false} SortSorted(s: seq<Range>)
    requires Sorted(s)
    ensures Sort(s) == s
  {
    hide Place;
    if s != [] {
      SortedPrefix(s, s[..|s| - 1]);
      SortSorted(s[..|s| - 1]);
      PlaceLast(s[..|s| - 1], s[|s| - 1]);
      assert s == s[..|s| - 1] + [s[|s| - 1]];
    }
  }

  lemma SortedPrefix(s: seq<Range>, init: seq<Range>)
    requires Sorted(s) && s != [] && init == s[..|s| - 1]
    ensures Sorted(init) && forall i :: 0 <= i < |init| ==> !Before(s[|s| - 1], init[i])
  {
  }

  /** Sorting after one range was appended puts it in its place. */
  lemma SortAppended(s: seq<Range>, x: Range)
    requires Sorted(s)
    ensures Sort(s + [x]) == Place(s, x)
  {
    assert (s + [x])[..|s|] == s;
    SortSorted(s);
  }

  lemma {:induction false} PlaceMembers(s: seq<Range>, x: Range)
    ensures forall r :: r in Place(s, x) <==> r == x || r in s
  {
    if s != [] && !Before(x, s[0]) {
      PlaceMembers(s[1..], x);
      assert s == [s[0]] + s[1..];
    }
  }

  /** A range clear of a sorted list finds its place. */
  lemma {:induction false} PlaceSorted(s: seq<Range>, x: Range)
    requires Sorted(s) && Clear(s, x) && x.size > 0
    ensures Sorted(Place(s, x))
  {
    if s != [] {
      assert x.Has(x.base) && s[0].Has(s[0].base);
      assert !s[0].Has(x.base) && !x.Has(s[0].base);
      if !Before(x, s[0]) {
        TailClear(s, x);
        PlaceSorted(s[1..], x);
        PlaceMembers(s[1..], x);
        var t := Place(s[1..], x);
        forall j | 0 <= j < |t|
          ensures s[0].End() <= t[j].base
        {
          assert t[j] in t;
          if t[j] != x {
            var k :| 0 <= k < |s[1..]| && s[1..][k] == t[j];
            assert s[k + 1] == t[j];
          }
        }
      }
    }
  }

  lemma TailClear(s: seq<Range>, x: Range)
    requires s != [] && Clear(s, x)
    ensures Clear(s[1..], x)
  {
    forall a | x.Has(a)
      ensures !Covers(s[1..], a)
    {
      forall i | 0 <= i < |s[1..]|
        ensures !s[1..][i].Has(a)
      {
        assert !Covers(s, a);
        assert s[1..][i] == s[i + 1];
      }
    }
  }

  /** Placing a range adds its addresses and no others. */
  lemma PlaceCovers(s: seq<Range>, x: Range, a: nat)
    ensures Covers(Place(s, x), a) <==> Covers(s, a) || x.Has(a)
  {
    hide Place;
    PlaceMembers(s, x);
    CoversMember(s, a);
    CoversMember(Place(s, x), a);
  }

  lemma CoversMember(s: seq<Range>, a: nat)
    ensures Covers(s, a) <==> exists r :: r in s && r.Has(a)
  {
    if r :| r in s && r.Has(a) {
      var i :| 0 <= i < |s| && s[i] == r;
      assert s[i].Has(a);
    }
  }

  // ----- merging

  /** One turn of the merge loop. */
  function MergeOne(merged: seq<Range>, r: Range): seq<Range> {
    if merged != [] && merged[|merged| - 1].End() == r.base then
      merged[|merged| - 1 := Range(merged[|merged| - 1].base, merged[|merged| - 1].size + r.size)]
    else merged + [r]
  }

  lemma MergeKeeps(merged: seq<Range>, r: Range, gs: nat)
    requires Gapped(merged) && r.size > 0 && forall i :: 0 <= i < |merged| ==> merged[i].End() <= r.base
    requires Aligned(merged, gs) && Low(r.base, gs) == 0 && Low(r.size, gs) == 0
    ensures var next := MergeOne(merged, r);
            && Gapped(next) && Aligned(next, gs)
            && (forall i :: 0 <= i < |next| ==> next[i].End() <= r.End())
  {
    hide Low;
    if merged != [] {
      AddAligned(merged[|merged| - 1].size, r.size, gs);
    }
  }

  lemma MergeCovers(merged: seq<Range>, r: Range, a: nat)
    ensures Covers(MergeOne(merged, r), a) <==> Covers(merged, a) || r.Has(a)
  {
    var next := MergeOne(merged, r);
    var n := |merged| - 1;
    if merged != [] && merged[n].End() == r.base {
      assert forall i :: 0 <= i < n ==> next[i] == merged[i];
      assert next[n].Has(a) <==> merged[n].Has(a) || r.Has(a);
      if Covers(next, a) {
        var i :| 0 <= i < |next| && next[i].Has(a);
        assert i < n ==> merged[i].Has(a);
      }
      if Covers(merged, a) {
        var i :| 0 <= i < |merged| && merged[i].Has(a);
        assert i < n ==> next[i].Has(a);
      }
    } else {
      assert next[|merged|] == r;
      if Covers(merged, a) {
        var i :| 0 <= i < |merged| && merged[i].Has(a);
        assert next[i].Has(a);
      }
    }
  }

  /** The loop of free_range over the sorted list. */
  method Merge(s: seq<Range>, ghost gs: nat) returns (merged: seq<Range>)
    requires Sorted(s) && Aligned(s, gs)
    ensures Gapped(merged) && Aligned(merged, gs)
    ensures forall a: nat :: Covers(merged, a) <==> Covers(s, a)
  {
    hide Low;
    merged := [];
    var i := 0;
    while i < |s|
      invariant i <= |s| && Gapped(merged) && Aligned(merged, gs)
      invariant forall a: nat :: Covers(merged, a) <==> Covers(s[..i], a)
      invariant i < |s| ==> forall j :: 0 <= j < |merged| ==> merged[j].End() <= s[i].base
    {
      ghost var before := merged;
      MergeKeeps(merged, s[i], gs);
      merged := MergeOne(merged, s[i]);
      forall a: nat
        ensures Covers(merged, a) <==> Covers(s[..i + 1], a)
      {
        MergeCovers(before, s[i], a);
        PrefixCovers(s, i, a);
      }
      i := i + 1;
    }
    assert s[..i] == s;
  }

  lemma PrefixCovers(s: seq<Range>, i: nat, a: nat)
    requires i < |s|
    ensures Covers(s[..i + 1], a) <==> Covers(s[..i], a) || s[i].Has(a)
  {
    if s[i].Has(a) { assert s[..i + 1][i].Has(a); }
    if Covers(s[..i], a) {
      var j :| 0 <= j < |s[..i]| && s[..i][j].Has(a);
      assert s[..i + 1][j].Has(a);
    }
    if Covers(s[..i + 1], a) {
      var j :| 0 <= j < |s[..i + 1]| && s[..i + 1][j].Has(a);
      assert j < i ==> s[..i][j].Has(a);
    }
  }

  // ----- taking

  /** Takes size bytes from the high or the low end of range i. */
  function Taken(s: seq<Range>, i: nat, size: nat, high: bool): seq<Range>
    requires i < |s| && size <= s[i].size
  {
    var rest := s[i].size - size;
    if rest == 0 then s[..i] + s[i + 1..]
    else s[i := if high then Range(s[i].base, rest) else Range(s[i].base + size, rest)]
  }

  function TakenBase(s: seq<Range>, i: nat, size: nat, high: bool): nat
    requires i < |s| && size <= s[i].size
  {
    if high then s[i].base + s[i].size - size else s[i].base
  }

  lemma TakenKeeps(s: seq<Range>, i: nat, size: nat, high: bool, gs: nat)
    requires i < |s| && 0 < size <= s[i].size && Gapped(s) && Aligned(s, gs) && Low(size, gs) == 0
    ensures Gapped(Taken(s, i, size, high)) && Aligned(Taken(s, i, size, high), gs) && Low(TakenBase(s, i, size, high), gs) == 0
  {
    hide Low;
    EndsAligned(s[i], size, gs);
    if s[i].size == size {
      DropKeeps(s, i, gs);
    } else {
      ShrinkKeeps(s, i, if high then Range(s[i].base, s[i].size - size) else Range(s[i].base + size, s[i].size - size), gs);
    }
  }

  lemma EndsAligned(r: Range, size: nat, gs: nat)
    requires size <= r.size && Low(r.base, gs) == 0 && Low(r.size, gs) == 0 && Low(size, gs) == 0
    ensures Low(r.size - size, gs) == 0 && Low(r.base + size, gs) == 0 && Low(r.base + r.size - size, gs) == 0
  {
    hide Low;
    AddAligned(size, r.size - size, gs);
    AddAligned(r.base, r.size - size, gs);
    AddAligned(r.base, size, gs);
  }

  lemma DropKeeps(s: seq<Range>, i: nat, gs: nat)
    requires i < |s| && Gapped(s) && Aligned(s, gs)
    ensures Gapped(s[..i] + s[i + 1..]) && Aligned(s[..i] + s[i + 1..], gs)
  {
    hide Low;
  }

  lemma ShrinkKeeps(s: seq<Range>, i: nat, r: Range, gs: nat)
    requires i < |s| && Gapped(s) && Aligned(s, gs) && r.size > 0 && s[i].base <= r.base && r.End() <= s[i].End()
    requires Low(r.base, gs) == 0 && Low(r.size, gs) == 0
    ensures Gapped(s[i := r]) && Aligned(s[i := r], gs)
  {
    hide Low;
  }

  lemma TakenCovers(s: seq<Range>, i: nat, size: nat, high: bool, a: nat)
    requires i < |s| && 0 < size <= s[i].size && Gapped(s)
    ensures var t := Range(TakenBase(s, i, size, high), size);
            && (t.Has(a) ==> Covers(s, a))
            && (Covers(Taken(s, i, size, high), a) <==> Covers(s, a) && !t.Has(a))
  {
    OtherRanges(s, i, a);
    if s[i].size == size {
      DroppedCovers(s, i, a);
    } else {
      ReplacedCovers(s, i, if high then Range(s[i].base, s[i].size - size) else Range(s[i].base + size, s[i].size - size), a);
    }
  }

  /** The ranges other than one, at one address. */
  ghost predicate CoversBut(s: seq<Range>, i: nat, a: nat) { exists j :: 0 <= j < |s| && j != i && s[j].Has(a) }

  lemma OtherRanges(s: seq<Range>, i: nat, a: nat)
    requires i < |s| && Gapped(s)
    ensures Covers(s, a) <==> s[i].Has(a) || CoversBut(s, i, a)
    ensures s[i].Has(a) ==> !CoversBut(s, i, a)
  {
  }

  lemma DroppedCovers(s: seq<Range>, i: nat, a: nat)
    requires i < |s|
    ensures Covers(s[..i] + s[i + 1..], a) <==> CoversBut(s, i, a)
  {
    var next := s[..i] + s[i + 1..];
    if j :| 0 <= j < |next| && next[j].Has(a) {
      assert next[j] == s[if j < i then j else j + 1];
    }
    if j :| 0 <= j < |s| && j != i && s[j].Has(a) {
      assert next[if j < i then j else j - 1] == s[j];
    }
  }

  lemma ReplacedCovers(s: seq<Range>, i: nat, r: Range, a: nat)
    requires i < |s|
    ensures Covers(s[i := r], a) <==> r.Has(a) || CoversBut(s, i, a)
  {
    var next := s[i := r];
    assert next[i] == r;
    if j :| 0 <= j < |next| && next[j].Has(a) {
      assert j != i ==> s[j].Has(a);
    }
    if j :| 0 <= j < |s| && j != i && s[j].Has(a) {
      assert next[j].Has(a);
    }
  }

  /** A gapped list that covers exactly one interval is that interval. */
  lemma SoleRange(s: seq<Range>, base: nat, limit: nat)
    requires Gapped(s) && base < limit && forall a: nat :: Covers(s, a) <==> base <= a < limit
    ensures s == [Range(base, limit - base)]
  {
    assert Covers(s, base) && Covers(s, limit - 1);
    assert s != [];
    if |s| >= 2 {
      GapUncovered(s);
      assert s[0].Has(s[0].base) && s[1].Has(s[1].base);
      assert Covers(s, s[0].base) && Covers(s, s[1].base);
      assert false;
    }
    assert s == [s[0]];
    assert s[0].Has(s[0].base) && s[0].Has(s[0].End() - 1);
    assert Covers(s, s[0].base) && Covers(s, s[0].End() - 1);
  }

  /** The address just past the first range is free of all others. */
  lemma GapUncovered(s: seq<Range>)
    requires Gapped(s) && |s| >= 2
    ensures !Covers(s, s[0].End()) && s[0].End() < s[1].base
  {
    forall j | 0 <= j < |s|
      ensures !s[j].Has(s[0].End())
    {
    }
  }
}
