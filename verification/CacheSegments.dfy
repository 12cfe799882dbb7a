/**
 The two lists a thread cache keeps per size class, the hot local segment and the spare one,
 and the rules that keep them within the configured budget.
 */
module CacheSegments {

  const UINT32_MAX: nat := 0xFFFF_FFFF

  /** memx_heap_create accepts only such limits. */
  datatype Limits = Limits(batch: nat, limit: nat) {
    predicate Legal() { 1 <= batch <= UINT32_MAX && limit >= 2 }
    /** Blocks a freshly carved chunk holds at most. */
    function ChunkLimit(): nat { if batch < limit then batch else limit }
    /** The largest segment the counters and the budget allow. */
    function Cap(): nat { if limit < UINT32_MAX then limit else UINT32_MAX }
  }

  datatype Segments = Segments(local: seq<nat>, spare: seq<nat>)

  /** A trimmed pair of segments, and the segment that went back to the central bin (empty if none). */
  datatype Settled = Settled(kept: Segments, flushed: seq<nat>)

  /** The bound every attached cache respects between operations. */
  predicate AtRest(g: Limits, s: Segments) {
    |s.local| + |s.spare| <= g.limit && |s.local| < g.Cap() && |s.spare| <= UINT32_MAX
  }

  /** memx_heap_trim_cache's test. */
  predicate MustFlush(g: Limits, local: nat, spare: nat) {
    local >= g.limit / 2 || local >= UINT32_MAX || spare > g.limit - local
  }

  function Trimmed(g: Limits, s: Segments): Settled {
    if MustFlush(g, |s.local|, |s.spare|) then Settled(Segments([], s.local), s.spare) else Settled(s, [])
  }

  /** One block comes back to the hot segment. */
  function Returned(g: Limits, s: Segments, block: nat): Settled { Trimmed(g, s.(local := [block] + s.local)) }

  /** A block returned to segments at rest leaves them at rest, and what is flushed fits a central chunk. */
  lemma ReturnedAtRest(g: Limits, s: Segments, block: nat)
    requires g.Legal() && AtRest(g, s)
    ensures |s.local| + 1 <= g.limit
    ensures AtRest(g, Returned(g, s, block).kept) && |Returned(g, s, block).flushed| <= g.Cap()
  {
  }

  /** Every block is still there once. */
  lemma ReturnedKeeps(g: Limits, s: Segments, block: nat)
    ensures var r := Returned(g, s, block);
            multiset(r.kept.local) + multiset(r.kept.spare) + multiset(r.flushed)
            == multiset{block} + multiset(s.local) + multiset(s.spare)
  {
  }

  /** Taking a block out of an adopted or refilled segment restores the bound. */
  lemma TakenAtRest(g: Limits, s: Segments)
    requires g.Legal() && 0 < |s.local| <= g.Cap() && |s.local| + |s.spare| <= g.limit && |s.spare| <= UINT32_MAX
    ensures AtRest(g, s.(local := s.local[1..]))
  {
  }

  /** The order in which blocks pushed one by one end up. */
  function Reverse(s: seq<nat>): (r: seq<nat>)
    ensures |r| == |s| && forall b :: b in r <==> b in s
  {
    if s == [] then [] else Reverse(s[1..]) + [s[0]]
  }
}
