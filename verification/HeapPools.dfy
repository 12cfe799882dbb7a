/**
 Where the carved blocks of a heap are. Every list of the heap is a place; a step of the heap
 moves a run of blocks from the list it reads to the front of the list it writes.
 */
module HeapPools {

  const CLASS_COUNT: nat := 19

  /** A central chunk is named by its head block, whose payload holds the chunk's links. */
  datatype Place =
    | Live
    | Hand(t: nat)
    | Taken(t: nat, k: nat)
    | Local(c: nat, k: nat)
    | Spare(c: nat, k: nat)
    | Remote(c: nat, k: nat)
    | Chunk(head: nat)

  type Pools = map<Place, seq<nat>>

  function At(pools: Pools, p: Place): seq<nat> { if p in pools then pools[p] else [] }

  ghost predicate NoRepeat(s: seq<nat>) { forall i, j :: 0 <= i < j < |s| ==> s[i] != s[j] }

  /** No block is in two places, or twice in one. */
  ghost predicate Unique(pools: Pools) {
    && (forall p, q, b :: b in At(pools, p) && b in At(pools, q) ==> p == q)
    && (forall p :: NoRepeat(At(pools, p)))
  }

  predicate Suits(carved: map<nat, nat>, p: Place, b: nat) {
    b in carved && match p
      case Taken(_, k) => carved[b] == k
      case Local(_, k) => carved[b] == k
      case Spare(_, k) => carved[b] == k
      case Remote(_, k) => carved[b] == k
      case Chunk(head) => head in carved && carved[head] == carved[b]
      case _ => true
  }

  /** Lists of a size class hold blocks of that class. */
  ghost predicate Suited(pools: Pools, carved: map<nat, nat>) {
    forall p, b :: b in At(pools, p) ==> Suits(carved, p, b)
  }

  ghost predicate Present(pools: Pools, b: nat) { exists p :: b in At(pools, p) }

  /** No carved block is lost. */
  ghost predicate Complete(pools: Pools, carved: map<nat, nat>) { forall b :: b in carved ==> Present(pools, b) }

  /** Blocks i to j of place p go to the front of place q. */
  function Splice(pools: Pools, p: Place, i: nat, j: nat, q: Place): Pools
    requires i <= j <= |At(pools, p)|
  {
    var from := At(pools, p);
    pools[p := from[..i] + from[j..]][q := from[i..j] + At(pools, q)]
  }

  ghost predicate Untouched(pools: Pools, next: Pools, p: Place, q: Place) {
    forall r :: r != p && r != q ==> At(next, r) == At(pools, r)
  }

  lemma SpliceAt(pools: Pools, p: Place, i: nat, j: nat, q: Place)
    requires i <= j <= |At(pools, p)| && p != q
    ensures var next := Splice(pools, p, i, j, q);
            && At(next, p) == At(pools, p)[..i] + At(pools, p)[j..]
            && At(next, q) == At(pools, p)[i..j] + At(pools, q)
            && Untouched(pools, next, p, q)
  {
  }

  lemma CutMembers(s: seq<nat>, i: nat, j: nat, b: nat)
    requires i <= j <= |s| && NoRepeat(s)
    ensures b in s <==> b in s[..i] + s[j..] || b in s[i..j]
    ensures !(b in s[..i] + s[j..] && b in s[i..j])
    ensures NoRepeat(s[..i] + s[j..]) && NoRepeat(s[i..j])
  {
    assert s == s[..i] + s[i..j] + s[j..];
  }

  lemma JoinNoRepeat(s: seq<nat>, t: seq<nat>)
    requires NoRepeat(s) && NoRepeat(t) && forall b :: b in s ==> b !in t
    ensures NoRepeat(s + t)
  {
    forall i, j | 0 <= i < j < |s + t|
      ensures (s + t)[i] != (s + t)[j]
    {
      if i < |s| <= j { assert s[i] in s && t[j - |s|] in t; }
    }
  }

  /** Where each block is after a splice. */
  lemma SpliceMembers(pools: Pools, p: Place, i: nat, j: nat, q: Place, r: Place, b: nat)
    requires i <= j <= |At(pools, p)| && p != q && Unique(pools)
    ensures var moved := At(pools, p)[i..j]; var next := Splice(pools, p, i, j, q);
            && (b in moved ==> (b in At(next, r) <==> r == q))
            && (b !in moved ==> (b in At(next, r) <==> b in At(pools, r)))
  {
    SpliceAt(pools, p, i, j, q);
    CutMembers(At(pools, p), i, j, b);
    if b in At(pools, p)[i..j] { assert b in At(pools, p); }
  }

  /** The blocks moved are now in q alone; every other block is where it was. */
  ghost predicate Moves(pools: Pools, next: Pools, moved: seq<nat>, q: Place) {
    && (forall r, b :: b in moved ==> (b in At(next, r) <==> r == q))
    && (forall r, b :: b !in moved ==> (b in At(next, r) <==> b in At(pools, r)))
  }

  lemma MovesKeep(pools: Pools, next: Pools, moved: seq<nat>, q: Place, carved: map<nat, nat>)
    requires Moves(pools, next, moved, q)
    requires Suited(pools, carved) && Complete(pools, carved)
    requires forall p, q, b :: b in At(pools, p) && b in At(pools, q) ==> p == q
    requires forall b :: b in moved ==> Suits(carved, q, b)
    ensures Suited(next, carved) && Complete(next, carved)
    ensures forall p, q, b :: b in At(next, p) && b in At(next, q) ==> p == q
  {
    hide Suits, At;
    forall b | b in carved
      ensures Present(next, b)
    {
      var r :| b in At(pools, r);
      if b in moved { assert b in At(next, q); } else { assert b in At(next, r); }
    }
    forall p, r, b | b in At(next, p) && b in At(next, r)
      ensures p == r
    {
      if b in moved { assert p == q && r == q; } else { assert b in At(pools, p) && b in At(pools, r); }
    }
    forall p, b | b in At(next, p)
      ensures Suits(carved, p, b)
    {
      if b in moved { assert p == q; } else { assert b in At(pools, p); }
    }
  }

  /** A splice loses, duplicates and invents nothing. */
  lemma SpliceKeeps(pools: Pools, p: Place, i: nat, j: nat, q: Place, carved: map<nat, nat>)
    requires i <= j <= |At(pools, p)| && p != q
    requires Unique(pools) && Suited(pools, carved) && Complete(pools, carved)
    requires forall b :: b in At(pools, p)[i..j] ==> Suits(carved, q, b)
    ensures var next := Splice(pools, p, i, j, q);
            && Moves(pools, next, At(pools, p)[i..j], q)
            && Unique(next) && Suited(next, carved) && Complete(next, carved)
  {
    hide Suits, Splice, At, Suited, Complete;
    var next := Splice(pools, p, i, j, q);
    var moved := At(pools, p)[i..j];
    forall r, b
      ensures (b in moved ==> (b in At(next, r) <==> r == q)) && (b !in moved ==> (b in At(next, r) <==> b in At(pools, r)))
    {
      SpliceMembers(pools, p, i, j, q, r, b);
    }
    MovesKeep(pools, next, moved, q, carved);
    SpliceAt(pools, p, i, j, q);
    forall r
      ensures NoRepeat(At(next, r))
    {
      CutMembers(At(pools, p), i, j, 0);
      if r == q {
        MovedApart(pools, p, i, j, q);
        JoinNoRepeat(moved, At(pools, q));
      }
    }
  }

  lemma MovedApart(pools: Pools, p: Place, i: nat, j: nat, q: Place)
    requires i <= j <= |At(pools, p)| && p != q && Unique(pools)
    ensures forall b :: b in At(pools, p)[i..j] ==> b !in At(pools, q)
  {
    hide At;
    forall b | b in At(pools, p)[i..j]
      ensures b !in At(pools, q)
    {
      assert b in At(pools, p);
    }
  }
}
