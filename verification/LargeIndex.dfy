/**
 The hash index of large allocations: chained buckets that double when full and halve when a
 quarter full. It behaves as a set of records keyed by pointer, and its rehashes relink at
 most two records per operation over any run.
 */
module LargeIndex {
  import opened Bits
  import L = HeapLists

  datatype Option<+T> = None | Some(value: T)

  /** One record; node is the address it lies at. */
  datatype Record = Record(node: nat, pointer: nat, requested: nat, alignment: nat)

  const MIN_BITS: nat := 6
  const MIN_BUCKETS: nat := 64

  type Buckets = seq<seq<Record>>

  /** All records, bucket by bucket. */
  ghost function Records(buckets: Buckets): multiset<Record> {
    if buckets == [] then multiset{} else multiset(buckets[0]) + Records(buckets[1..])
  }

  lemma {:induction false} RecordsUpdate(buckets: Buckets, i: nat, chain: seq<Record>)
    requires i < |buckets|
    ensures Records(buckets[i := chain]) + multiset(buckets[i]) == Records(buckets) + multiset(chain)
  {
    var next := buckets[i := chain];
    assert next == [next[0]] + next[1..] && buckets == [buckets[0]] + buckets[1..];
    if i == 0 {
      assert next[1..] == buckets[1..];
      Shift(Records(buckets[1..]), multiset(chain), multiset(buckets[0]));
    } else {
      assert next[1..] == buckets[1..][i - 1 := chain];
      RecordsUpdate(buckets[1..], i - 1, chain);
      Under(multiset(buckets[0]), Records(next[1..]), Records(buckets[1..]), multiset(buckets[i]), multiset(chain));
    }
  }

  lemma Shift(a: multiset<Record>, b: multiset<Record>, c: multiset<Record>)
    ensures (b + a) + c == (c + a) + b
  {
  }

  lemma Under(a: multiset<Record>, x: multiset<Record>, y: multiset<Record>, u: multiset<Record>, v: multiset<Record>)
    requires x + u == y + v
    ensures (a + x) + u == (a + y) + v
  {
    assert (a + x) + u == a + (x + u);
    assert (a + y) + v == a + (y + v);
  }

  lemma Cancel(a: multiset<Record>, b: multiset<Record>, c: multiset<Record>)
    requires a + c == b + c
    ensures a == b
  {
    forall r
      ensures a[r] == b[r]
    {
      assert (a + c)[r] == (b + c)[r];
    }
  }

  /** Adding a record to a bucket adds it to the index. */
  lemma RecordsPush(buckets: Buckets, i: nat, r: Record)
    requires i < |buckets|
    ensures Records(buckets[i := [r] + buckets[i]]) == Records(buckets) + multiset{r}
  {
    RecordsUpdate(buckets, i, [r] + buckets[i]);
    PushSum(Records(buckets), r, buckets[i]);
    Cancel(Records(buckets[i := [r] + buckets[i]]), Records(buckets) + multiset{r}, multiset(buckets[i]));
  }

  lemma PushSum(m: multiset<Record>, r: Record, chain: seq<Record>)
    ensures m + multiset([r] + chain) == (m + multiset{r}) + multiset(chain)
  {
  }

  /** Cutting a record out of a bucket takes it from the index. */
  lemma RecordsCut(buckets: Buckets, i: nat, place: nat)
    requires i < |buckets| && place < |buckets[i]|
    ensures Records(buckets[i := buckets[i][..place] + buckets[i][place + 1..]]) + multiset{buckets[i][place]} == Records(buckets)
  {
    var chain := buckets[i];
    var shorter := chain[..place] + chain[place + 1..];
    RecordsUpdate(buckets, i, shorter);
    CutSum(chain, place);
    var next := Records(buckets[i := shorter]);
    CutTotal(next, Records(buckets), multiset(shorter), multiset{chain[place]}, multiset(chain));
  }

  lemma CutSum(chain: seq<Record>, place: nat)
    requires place < |chain|
    ensures multiset(chain) == multiset(chain[..place] + chain[place + 1..]) + multiset{chain[place]}
  {
    assert chain == chain[..place] + ([chain[place]] + chain[place + 1..]);
  }

  lemma CutTotal(next: multiset<Record>, all: multiset<Record>, shorter: multiset<Record>, one: multiset<Record>, chain: multiset<Record>)
    requires next + chain == all + shorter && chain == shorter + one
    ensures next + one == all
  {
    assert next + chain == (next + one) + shorter;
    Cancel(next + one, all, shorter);
  }

  lemma {:induction false} RecordsEmpty(buckets: Buckets)
    requires forall i :: 0 <= i < |buckets| ==> buckets[i] == []
    ensures Records(buckets) == multiset{}
  {
    if buckets != [] { RecordsEmpty(buckets[1..]); }
  }

  lemma {:induction false} InBucket(buckets: Buckets, r: Record)
    ensures r in Records(buckets) <==> exists i :: 0 <= i < |buckets| && r in buckets[i]
  {
    if buckets != [] {
      InBucket(buckets[1..], r);
      if r in Records(buckets[1..]) {
        var i :| 0 <= i < |buckets[1..]| && r in buckets[1..][i];
        assert r in buckets[i + 1];
      }
      forall i | 0 <= i < |buckets| && r in buckets[i]
        ensures r in Records(buckets)
      {
        if i > 0 { assert r in buckets[1..][i - 1]; }
      }
    }
  }

  lemma {:induction false} RecordsFrom(buckets: Buckets, i: nat)
    requires i < |buckets|
    ensures Records(buckets[i..]) == multiset(buckets[i]) + Records(buckets[i + 1..])
  {
    assert buckets[i..][1..] == buckets[i + 1..];
  }

  /** Records are keyed by their pointers. */
  ghost predicate Keyed(m: multiset<Record>) {
    && (forall r :: m[r] <= 1)
    && (forall r, q :: r in m && q in m && (r.pointer == q.pointer || r.node == q.node) ==> r == q)
  }

  /** Bucket of a pointer in a table of 2^bits buckets. */
  function Slot(hash: nat -> nat, pointer: nat, bits: nat): (i: nat)
    ensures i < Pow2(bits)
  {
    AndMask(hash(pointer), bits);
    LowBound(hash(pointer), bits);
    And(hash(pointer), Pow2(bits) - 1)
  }

  lemma {:induction false} LowBound(x: nat, n: nat)
    ensures Low(x, n) < Pow2(n)
  {
    if n > 0 { LowBound(x / 2, n - 1); }
  }

  ghost predicate Hashed(hash: nat -> nat, buckets: Buckets, bits: nat) {
    forall i, r :: 0 <= i < |buckets| && r in buckets[i] ==> Slot(hash, r.pointer, bits) == i
  }

  // ----- chains of records in memory

  function Nodes(chain: seq<Record>): (nodes: seq<nat>)
    ensures |nodes| == |chain| && forall i :: 0 <= i < |chain| ==> nodes[i] == chain[i].node
  {
    seq(|chain|, i requires 0 <= i < |chain| => chain[i].node)
  }

  /** The chain starts at head, runs through the next words, and every node holds its record. */
  ghost predicate Strung(link: map<nat, nat>, memory: map<nat, Record>, head: nat, chain: seq<Record>) {
    L.Chain(link, head, Nodes(chain)) && forall i :: 0 <= i < |chain| ==> chain[i].node in memory && memory[chain[i].node] == chain[i]
  }

  ghost predicate AllStrung(link: map<nat, nat>, memory: map<nat, Record>, heads: seq<nat>, buckets: Buckets) {
    |heads| == |buckets| && forall i :: 0 <= i < |heads| ==> Strung(link, memory, heads[i], buckets[i])
  }

  /** A chain without the node is not touched by its next word. */
  lemma StrungFrame(link: map<nat, nat>, memory: map<nat, Record>, head: nat, chain: seq<Record>, node: nat, x: nat)
    requires Strung(link, memory, head, chain) && forall i :: 0 <= i < |chain| ==> chain[i].node != node
    ensures Strung(link[node := x], memory, head, chain)
  {
    hide L.Chain;
    L.ChainFrame(link, head, Nodes(chain), node, x);
  }

  lemma StrungPush(link: map<nat, nat>, memory: map<nat, Record>, head: nat, chain: seq<Record>, r: Record)
    requires Strung(link, memory, head, chain) && forall i :: 0 <= i < |chain| ==> chain[i].node != r.node
    requires r.node != 0 && r.node in memory && memory[r.node] == r
    ensures Strung(link[r.node := head], memory, r.node, [r] + chain)
  {
    hide L.Chain;
    L.ChainPush(link, head, Nodes(chain), r.node);
    assert Nodes([r] + chain) == [r.node] + Nodes(chain);
  }

  lemma StrungPop(link: map<nat, nat>, memory: map<nat, Record>, head: nat, chain: seq<Record>)
    requires Strung(link, memory, head, chain) && head != 0
    ensures chain != [] && head == chain[0].node && head in memory && memory[head] == chain[0]
    ensures Strung(link, memory, L.Link(link, head), chain[1..])
  {
    hide L.Chain;
    L.ChainPop(link, head, Nodes(chain));
    assert Nodes(chain[1..]) == Nodes(chain)[1..];
  }

  lemma StrungEnd(link: map<nat, nat>, memory: map<nat, Record>, head: nat, chain: seq<Record>)
    requires Strung(link, memory, head, chain)
    ensures head == 0 <==> chain == []
  {
    hide L.Chain;
    L.EndsOf(link, head, Nodes(chain));
  }

  /** Unlinking the node behind another. */
  lemma ChainCut(link: map<nat, nat>, head: nat, s: seq<nat>, place: nat)
    requires L.Chain(link, head, s) && 0 < place < |s| && forall i, j :: 0 <= i < j < |s| ==> s[i] != s[j]
    ensures L.Chain(link[s[place - 1] := L.Link(link, s[place])], head, s[..place] + s[place + 1..])
  {
    var next, t := link[s[place - 1] := L.Link(link, s[place])], s[..place] + s[place + 1..];
    forall i | 0 <= i < |t| - 1
      ensures L.Link(next, t[i]) == t[i + 1]
    {
      if i < place - 1 {
        assert L.Link(link, s[i]) == s[i + 1];
      } else if i == place - 1 {
        assert L.Link(link, s[place]) == s[place + 1];
      } else {
        assert L.Link(link, s[i + 1]) == s[i + 1 + 1];
      }
    }
    if place + 1 < |s| { assert L.Last(t) == s[|s| - 1]; } else { assert L.Last(t) == s[place - 1]; }
    assert forall b :: b in t ==> b in s;
  }

  lemma LinkCut(link: map<nat, nat>, head: nat, chain: seq<Record>, place: nat)
    requires L.Chain(link, head, Nodes(chain)) && place < |chain|
    requires forall i, j :: 0 <= i < j < |chain| ==> chain[i].node != chain[j].node
    ensures var nodes := Nodes(chain[..place] + chain[place + 1..]); var x := L.Link(link, chain[place].node);
            if place == 0 then L.Chain(link, x, nodes) else L.Chain(link[chain[place - 1].node := x], head, nodes)
  {
    hide L.Chain;
    assert Nodes(chain[..place] + chain[place + 1..]) == Nodes(chain)[..place] + Nodes(chain)[place + 1..];
    L.EndsOf(link, head, Nodes(chain));
    if place == 0 {
      L.ChainPop(link, head, Nodes(chain));
      assert Nodes(chain[..place] + chain[place + 1..]) == Nodes(chain)[1..];
    } else {
      ChainCut(link, head, Nodes(chain), place);
    }
  }

  /** Unlinking and freeing a node leaves the rest of its chain. */
  lemma StrungCut(link: map<nat, nat>, memory: map<nat, Record>, head: nat, chain: seq<Record>, place: nat)
    requires Strung(link, memory, head, chain) && place < |chain|
    requires forall i, j :: 0 <= i < j < |chain| ==> chain[i].node != chain[j].node
    ensures var shorter := chain[..place] + chain[place + 1..]; var x := L.Link(link, chain[place].node);
            if place == 0 then Strung(link, memory - {chain[place].node}, x, shorter)
            else Strung(link[chain[place - 1].node := x], memory - {chain[place].node}, head, shorter)
  {
    LinkCut(link, head, chain, place);
    hide L.Chain, L.Link, Nodes;
    var shorter := chain[..place] + chain[place + 1..];
    forall i | 0 <= i < |shorter|
      ensures shorter[i].node in memory - {chain[place].node} && memory[shorter[i].node] == shorter[i]
    {
      assert shorter[i] == chain[if i < place then i else i + 1];
    }
  }

  /** A chain keeps lying in memory when another node is freed, or a new one written. */
  lemma StrungMemory(link: map<nat, nat>, memory: map<nat, Record>, memory': map<nat, Record>, head: nat, chain: seq<Record>)
    requires Strung(link, memory, head, chain)
    requires forall i :: 0 <= i < |chain| ==> chain[i].node in memory' && memory'[chain[i].node] == memory[chain[i].node]
    ensures Strung(link, memory', head, chain)
  {
    hide L.Chain;
  }

  /** One record of a keyed index shares its node with no other. */
  lemma NodeApart(m: multiset<Record>, r: Record, others: multiset<Record>)
    requires Keyed(m) && m == multiset{r} + others
    ensures forall q :: q in others ==> q.node != r.node && q.pointer != r.pointer
  {
    forall q | q in others
      ensures q.node != r.node && q.pointer != r.pointer
    {
      assert m[r] == 1 + others[r] && m[q] >= others[q];
      assert r in m && q in m;
    }
  }

  /** The records of one chain and those elsewhere lie at different nodes. */
  lemma ChainApart(m: multiset<Record>, others: multiset<Record>, chain: seq<Record>, place: nat)
    requires Keyed(m) && m == others + multiset(chain) && place < |chain|
    ensures forall q :: q in others ==> q.node != chain[place].node
    ensures forall i :: 0 <= i < |chain| && i != place ==> chain[i].node != chain[place].node
  {
    var rest := chain[..place] + chain[place + 1..];
    CutSum(chain, place);
    TogetherApart(others, multiset(rest), chain[place], multiset(chain));
    NodeApart(m, chain[place], others + multiset(rest));
    forall i | 0 <= i < |chain| && i != place
      ensures chain[i].node != chain[place].node
    {
      assert rest[if i < place then i else i - 1] == chain[i];
      assert chain[i] in rest;
    }
  }

  lemma TogetherApart(others: multiset<Record>, rest: multiset<Record>, r: Record, chain: multiset<Record>)
    requires chain == rest + multiset{r}
    ensures others + chain == multiset{r} + (others + rest)
  {
  }

  /** All chains but one, and that one. */
  lemma OneBucket(buckets: Buckets, i: nat)
    requires i < |buckets|
    ensures Records(buckets) == Records(buckets[i := []]) + multiset(buckets[i])
    ensures forall j :: 0 <= j < |buckets| && j != i ==> forall r :: r in buckets[j] ==> r in Records(buckets[i := []])
  {
    hide Records;
    RecordsUpdate(buckets, i, []);
    assert Records(buckets) + multiset([]) == Records(buckets);
    forall j, r | 0 <= j < |buckets| && j != i && r in buckets[j]
      ensures r in Records(buckets[i := []])
    {
      InBucket(buckets[i := []], r);
      assert buckets[i := []][j] == buckets[j];
    }
  }

  lemma TableFrame(link: map<nat, nat>, memory: map<nat, Record>, heads: seq<nat>, buckets: Buckets, node: nat, x: nat)
    requires AllStrung(link, memory, heads, buckets) && forall r :: r in Records(buckets) ==> r.node != node
    ensures AllStrung(link[node := x], memory, heads, buckets)
  {
    hide Strung, Records;
    forall i | 0 <= i < |heads|
      ensures Strung(link[node := x], memory, heads[i], buckets[i])
    {
      forall j | 0 <= j < |buckets[i]|
        ensures buckets[i][j].node != node
      {
        InBucket(buckets, buckets[i][j]);
        assert buckets[i][j] in buckets[i];
      }
      StrungFrame(link, memory, heads[i], buckets[i], node, x);
    }
  }

  /** A record in front of its chain. */
  lemma TablePush(link: map<nat, nat>, memory: map<nat, Record>, heads: seq<nat>, buckets: Buckets, i: nat, r: Record)
    requires AllStrung(link, memory, heads, buckets) && i < |heads| && r.node != 0 && r.node in memory && memory[r.node] == r
    requires forall q :: q in Records(buckets) ==> q.node != r.node
    ensures AllStrung(link[r.node := heads[i]], memory, heads[i := r.node], buckets[i := [r] + buckets[i]])
  {
    hide Strung, Records;
    TableFrame(link, memory, heads, buckets, r.node, heads[i]);
    forall j | 0 <= j < |buckets[i]|
      ensures buckets[i][j].node != r.node
    {
      InBucket(buckets, buckets[i][j]);
      assert buckets[i][j] in buckets[i];
    }
    StrungPush(link, memory, heads[i], buckets[i], r);
  }

  /** A record unlinked from its chain and freed. */
  lemma TableCut(link: map<nat, nat>, memory: map<nat, Record>, heads: seq<nat>, buckets: Buckets, i: nat, place: nat)
    requires AllStrung(link, memory, heads, buckets) && i < |heads| && place < |buckets[i]| && Keyed(Records(buckets))
    ensures var chain := buckets[i]; var r := chain[place]; var x := L.Link(link, r.node); var memory' := memory - {r.node};
            var table := buckets[i := chain[..place] + chain[place + 1..]];
            if place == 0 then AllStrung(link, memory', heads[i := x], table)
            else AllStrung(link[chain[place - 1].node := x], memory', heads, table)
  {
    hide Strung, Records, Keyed, L.Link;
    var chain := buckets[i];
    var r := chain[place];
    var x, memory' := L.Link(link, r.node), memory - {r.node};
    OneBucket(buckets, i);
    var others := Records(buckets[i := []]);
    forall a | 0 <= a < |chain|
      ensures forall q :: q in others ==> q.node != chain[a].node
      ensures forall b :: 0 <= b < |chain| && b != a ==> chain[b].node != chain[a].node
    {
      ChainApart(Records(buckets), others, chain, a);
    }
    StrungCut(link, memory, heads[i], chain, place);
    forall j | 0 <= j < |heads| && j != i
      ensures Strung(link, memory', heads[j], buckets[j])
      ensures place > 0 ==> Strung(link[chain[place - 1].node := x], memory', heads[j], buckets[j])
    {
      OtherChain(link, memory, heads[j], buckets[j], others, r.node);
      if place > 0 { OtherFrame(link, memory', heads[j], buckets[j], others, chain[place - 1].node, x); }
    }
  }

  lemma OtherChain(link: map<nat, nat>, memory: map<nat, Record>, head: nat, chain: seq<Record>, others: multiset<Record>, node: nat)
    requires Strung(link, memory, head, chain) && (forall r :: r in chain ==> r in others) && forall r :: r in others ==> r.node != node
    ensures Strung(link, memory - {node}, head, chain)
  {
    hide L.Chain;
    forall i | 0 <= i < |chain|
      ensures chain[i].node != node
    {
      assert chain[i] in chain;
    }
    StrungMemory(link, memory, memory - {node}, head, chain);
  }

  lemma OtherFrame(link: map<nat, nat>, memory: map<nat, Record>, head: nat, chain: seq<Record>, others: multiset<Record>, node: nat, x: nat)
    requires Strung(link, memory, head, chain) && (forall r :: r in chain ==> r in others) && forall r :: r in others ==> r.node != node
    ensures Strung(link[node := x], memory, head, chain)
  {
    hide Strung;
    forall i | 0 <= i < |chain|
      ensures chain[i].node != node
    {
      assert chain[i] in chain;
    }
    StrungFrame(link, memory, head, chain, node, x);
  }

  /** Memory holds the records of the index and nothing else. */
  ghost predicate OnlyRecords(memory: map<nat, Record>, m: multiset<Record>) {
    && (forall r :: r in m ==> r.node != 0 && r.node in memory && memory[r.node] == r)
    && (forall n :: n in memory ==> memory[n] in m && memory[n].node == n)
  }

  // ----- the cost of rehashing

  /** Relinks the past operations have paid for but not used. */
  function Potential(buckets: nat, count: nat): nat {
    if buckets > MIN_BUCKETS then
      if 2 * count >= buckets then 2 * count - buckets
      else if count <= buckets / 2 then buckets / 2 - count else 0
    else if 2 * count >= buckets then 2 * count - buckets else 0
  }

  /** A table more than three quarters empty is halved, down to the smallest size. */
  predicate MustShrink(buckets: nat, count: nat) { buckets > MIN_BUCKETS && count <= buckets / 4 }

  lemma InsertPays(buckets: nat, count: nat)
    requires count < buckets
    ensures Potential(buckets, count + 1) <= Potential(buckets, count) + 2
  {
  }

  lemma GrowPays(buckets: nat, count: nat)
    requires count == buckets >= MIN_BUCKETS
    ensures count + Potential(2 * buckets, count) <= Potential(buckets, count)
  {
  }

  lemma RemovePays(buckets: nat, count: nat)
    requires 0 < count <= buckets && buckets % 2 == 0
    ensures Potential(buckets, count - 1) <= Potential(buckets, count) + 2
  {
  }

  lemma ShrinkPays(buckets: nat, count: nat)
    requires buckets > MIN_BUCKETS && buckets % 4 == 0 && count <= buckets / 4 && buckets / 2 >= MIN_BUCKETS
    ensures count + Potential(buckets / 2, count) <= Potential(buckets, count)
  {
  }

  lemma TableSizes(bits: nat)
    requires bits >= MIN_BITS
    ensures Pow2(bits) >= MIN_BUCKETS && Pow2(bits) % 2 == 0 && (bits == MIN_BITS <==> Pow2(bits) == MIN_BUCKETS)
    ensures bits > MIN_BITS ==> Pow2(bits) % 4 == 0 && Pow2(bits) / 2 == Pow2(bits - 1) && Pow2(bits - 1) >= MIN_BUCKETS
    ensures Pow2(bits + 1) == 2 * Pow2(bits)
  {
    assert Pow2(6) == 64;
    Pow2Mono(MIN_BITS, bits);
    if bits > MIN_BITS {
      Pow2Mono(MIN_BITS, bits - 1);
      assert Pow2(bits) == 2 * Pow2(bits - 1) && Pow2(bits - 1) == 2 * Pow2(bits - 2);
    }
  }

  // ----- the index

  class Index {
    const hash: nat -> nat
    const sizeMax: nat
    var heads: seq<nat>
    var link: map<nat, nat>
    var memory: map<nat, Record>
    var bucketCount: nat
    var count: nat
    ghost var buckets: Buckets
    ghost var bits: nat
    ghost var relinked: nat
    ghost var operations: nat

    constructor (hash: nat -> nat, sizeMax: nat)
      ensures Valid() && Contents() == multiset{} && relinked == 0 && operations == 0
      ensures this.hash == hash && this.sizeMax == sizeMax
    {
      this.hash, this.sizeMax := hash, sizeMax;
      heads, link, memory, bucketCount, count := [], map[], map[], 0, 0;
      buckets := [];
      bits, relinked, operations := 0, 0, 0;
    }

    ghost function Contents(): multiset<Record> reads this { Records(buckets) }

    ghost predicate Table() reads this {
      && bucketCount == |buckets| && (bucketCount == 0 || (bits >= MIN_BITS && bucketCount == Pow2(bits)))
      && Hashed(hash, buckets, bits) && Keyed(Records(buckets)) && count == |Records(buckets)|
      && AllStrung(link, memory, heads, buckets) && OnlyRecords(memory, Records(buckets))
    }

    /** At most one record per bucket on average, and at most two relinks per operation so far. */
    ghost predicate Valid() reads this {
      Table() && count <= bucketCount && relinked + Potential(bucketCount, count) <= 2 * operations
    }

    /** memx_heap_large_rehash_locked: the allocation of the new table may fail. */
    method Rehash(newCount: nat, ghost newBits: nat, granted: bool) returns (ok: bool)
      requires Table() && newBits >= MIN_BITS && newCount == Pow2(newBits)
      modifies this`heads, this`link, this`buckets, this`bucketCount, this`bits, this`relinked
      ensures Table() && Contents() == old(Contents())
      ensures ok <==> granted
      ensures ok ==> bucketCount == newCount && bits == newBits && relinked == old(relinked) + count
      ensures !ok ==> buckets == old(buckets) && bucketCount == old(bucketCount) && bits == old(bits) && relinked == old(relinked)
    {
      hide Pow2, Slot, Records, Strung, Keyed, OnlyRecords;
      if !granted { return false; }
      var larger: seq<nat> := seq(newCount, _ => 0);
      ghost var table: Buckets := seq(newCount, _ => []);
      RecordsEmpty(table);
      EmptyStrung(link, memory, larger, table);
      var index: nat := 0;
      assert buckets[0..] == buckets && heads[0..] == heads;
      while index < bucketCount
        invariant heads == old(heads) && buckets == old(buckets) && bucketCount == old(bucketCount) && bits == old(bits)
        invariant index <= bucketCount && |table| == newCount && Hashed(hash, table, newBits)
        invariant AllStrung(link, memory, larger, table) && AllStrung(link, memory, heads[index..], buckets[index..])
        invariant Records(table) + Records(buckets[index..]) == Records(buckets)
        invariant relinked == old(relinked) + |Records(table)|
      {
        RecordsFrom(buckets, index);
        FirstStrung(link, memory, heads, buckets, index);
        ghost var before := table;
        MoveSum(Records(before), multiset(buckets[index]), Records(buckets[index + 1..]));
        larger, table := MoveChain(larger, newCount, newBits, heads[index], table, buckets[index], heads[index + 1..], buckets[index + 1..]);
        index := index + 1;
      }
      NoneLeft(buckets, index, Records(table));
      heads, buckets, bucketCount, bits := larger, table, newCount, newBits;
      return true;
    }

    /** The inner loop of a rehash: every record of one chain goes to the front of its new bucket. */
    method MoveChain(heads: seq<nat>, newCount: nat, ghost newBits: nat, head: nat, ghost table: Buckets, ghost chain: seq<Record>,
                     ghost laterHeads: seq<nat>, ghost later: Buckets)
      returns (nextHeads: seq<nat>, ghost next: Buckets)
      requires newCount == Pow2(newBits) && |table| == newCount && Hashed(hash, table, newBits)
      requires AllStrung(link, memory, heads, table) && Strung(link, memory, head, chain) && AllStrung(link, memory, laterHeads, later)
      requires Keyed((Records(table) + multiset(chain)) + Records(later)) && OnlyRecords(memory, (Records(table) + multiset(chain)) + Records(later))
      modifies this`link, this`relinked
      ensures |next| == newCount && Hashed(hash, next, newBits)
      ensures AllStrung(link, memory, nextHeads, next) && AllStrung(link, memory, laterHeads, later)
      ensures Records(next) == Records(table) + multiset(chain)
      ensures relinked == old(relinked) + |chain|
    {
      hide Pow2, Slot, Records, Strung, Keyed, OnlyRecords;
      nextHeads, next := heads, table;
      var node := head;
      ghost var rest := chain;
      ghost var all := (Records(table) + multiset(chain)) + Records(later);
      while node != 0
        invariant |next| == newCount && Hashed(hash, next, newBits)
        invariant AllStrung(link, memory, nextHeads, next) && Strung(link, memory, node, rest) && AllStrung(link, memory, laterHeads, later)
        invariant Records(next) + multiset(rest) == Records(table) + multiset(chain)
        invariant relinked + |rest| == old(relinked) + |chain|
        decreases |rest|
      {
        StrungPop(link, memory, node, rest);
        var r := memory[node];
        var after := L.Link(link, node);
        var i := SlotOf(r.pointer, newCount, newBits);
        MovedApart(all, Records(next), rest, Records(later));
        RecordInMemory(memory, all, r);
        RecordsPush(next, i, r);
        PushSum(Records(next), r, rest[1..]);
        assert rest == [r] + rest[1..];
        TablePush(link, memory, nextHeads, next, i, r);
        RestFrame(link, memory, after, rest, node, nextHeads[i]);
        TableFrame(link, memory, laterHeads, later, node, nextHeads[i]);
        link := link[node := nextHeads[i]];
        nextHeads, next := nextHeads[i := node], next[i := [r] + next[i]];
        relinked := relinked + 1;
        rest := rest[1..];
        node := after;
      }
      StrungEnd(link, memory, node, rest);
    }

    /** memx_heap_large_bucket with an arbitrary mixer. */
    function SlotOf(pointer: nat, n: nat, ghost b: nat): (i: nat)
      requires n == Pow2(b)
      ensures i == Slot(hash, pointer, b) && i < n
    {
      Pow2Mono(0, b);
      And(hash(pointer), n - 1)
    }

    /** memx_heap_large_reserve_locked. */
    method Reserve(granted: bool) returns (ok: bool)
      requires Table() && count <= bucketCount
      requires relinked + Potential(bucketCount, count) <= 2 * operations
      modifies this`heads, this`link, this`buckets, this`bucketCount, this`bits, this`relinked
      ensures Table() && Contents() == old(Contents()) && count <= bucketCount
      ensures relinked + Potential(bucketCount, count) <= 2 * operations
      ensures ok ==> count < bucketCount
      ensures ok <==> old(count < bucketCount) || (granted && old(bucketCount) <= sizeMax / 2)
      ensures old(count < bucketCount) || !ok ==> buckets == old(buckets) && bucketCount == old(bucketCount)
      ensures ok && old(count >= bucketCount) ==> bucketCount == if old(bucketCount) == 0 then MIN_BUCKETS else 2 * old(bucketCount)
    {
      hide Pow2, Hashed, Keyed, Records;
      if count < bucketCount { return true; }
      if bucketCount > sizeMax / 2 { return false; }
      if bucketCount != 0 { TableSizes(bits); GrowPays(bucketCount, count); }
      SmallestTable();
      ok := Rehash(if bucketCount == 0 then MIN_BUCKETS else bucketCount * 2, if bucketCount == 0 then MIN_BITS else bits + 1, granted);
    }

    /** memx_heap_large_shrink_locked: a failed shrink leaves the table as it is. */
    method Shrink(granted: bool)
      requires Table() && count <= bucketCount
      requires relinked + Potential(bucketCount, count) <= 2 * operations
      modifies this`heads, this`link, this`buckets, this`bucketCount, this`bits, this`relinked
      ensures Table() && Contents() == old(Contents()) && count <= bucketCount
      ensures relinked + Potential(bucketCount, count) <= 2 * operations
      ensures count == 0 ==> bucketCount == 0
      ensures count > 0 ==> bucketCount == if granted && MustShrink(old(bucketCount), count) then old(bucketCount) / 2 else old(bucketCount)
    {
      hide Pow2, Keyed;
      if count == 0 {
        assert Records(buckets) == multiset{};
        heads, buckets, bucketCount := [], [], 0;
      } else {
        ShrinkLoaded(granted);
      }
    }

    method ShrinkLoaded(granted: bool)
      requires Table() && 0 < count <= bucketCount
      requires relinked + Potential(bucketCount, count) <= 2 * operations
      modifies this`heads, this`link, this`buckets, this`bucketCount, this`bits, this`relinked
      ensures Table() && Contents() == old(Contents()) && count <= bucketCount
      ensures relinked + Potential(bucketCount, count) <= 2 * operations
      ensures bucketCount == if granted && MustShrink(old(bucketCount), count) then old(bucketCount) / 2 else old(bucketCount)
    {
      hide Pow2, Hashed, Keyed, Records;
      TableSizes(bits);
      if bucketCount > MIN_BUCKETS && count <= bucketCount / 4 {
        ShrinkPays(bucketCount, count);
        var ok := Rehash(bucketCount / 2, bits - 1, granted);
      }
    }

    /** The index half of memx_heap_allocate_large; neither the node nor the pointer of a new mapping is in use. */
    method Insert(r: Record, granted: bool) returns (ok: bool)
      requires Valid() && r.node != 0 && forall q :: q in Contents() ==> q.pointer != r.pointer && q.node != r.node
      modifies this
      ensures Valid() && operations == old(operations) + 1
      ensures Contents() == old(Contents()) + if ok then multiset{r} else multiset{}
      ensures ok <==> old(count < bucketCount) || (granted && old(bucketCount) <= sizeMax / 2)
    {
      hide Pow2, Records, Keyed, Hashed, OnlyRecords, AllStrung;
      ok := Reserve(granted);
      operations := operations + 1;
      if !ok { return false; }
      InsertPays(bucketCount, count);
      Enter(r);
    }

    /** The record goes in front of its chain. */
    method Enter(r: Record)
      requires Table() && bucketCount > 0 && r.node != 0 && forall q :: q in Contents() ==> q.pointer != r.pointer && q.node != r.node
      modifies this`heads, this`link, this`memory, this`buckets, this`count
      ensures Table() && Contents() == old(Contents()) + multiset{r} && count == old(count) + 1
    {
      hide Pow2, Slot, Records, Keyed, Hashed, Strung, OnlyRecords, AllStrung;
      var i := SlotOf(r.pointer, bucketCount, bits);
      RecordAdded(hash, buckets, bits, i, r);
      StrungCount(link, memory, heads, buckets);
      MemoryGrows(link, memory, heads, buckets, r);
      TablePush(link, memory[r.node := r], heads, buckets, i, r);
      memory := memory[r.node := r];
      link := link[r.node := heads[i]];
      heads := heads[i := r.node];
      buckets := buckets[i := [r] + buckets[i]];
      count := count + 1;
    }

    /** memx_heap_find_large_locked: the record of a pointer, and the node whose next word leads to it (0 for the bucket itself). */
    method Find(pointer: nat) returns (found: Option<Record>, bucket: nat, previous: nat, ghost place: nat)
      requires Table()
      ensures found.Some? ==>
                && bucket < |buckets| && place < |buckets[bucket]| && buckets[bucket][place] == found.value
                && previous == if place == 0 then 0 else buckets[bucket][place - 1].node
      ensures found.Some? ==> found.value in Contents() && found.value.pointer == pointer && found.value.node != 0
      ensures found.Some? && place > 0 ==> previous != 0
      ensures found.None? ==> forall r :: r in Contents() ==> r.pointer != pointer
    {
      hide Pow2, Keyed, Slot, Strung, OnlyRecords, Records;
      if bucketCount == 0 {
        NoBuckets(buckets);
        return None, 0, 0, 0;
      }
      bucket := SlotOf(pointer, bucketCount, bits);
      place, previous := 0, 0;
      var node := heads[bucket];
      ghost var chain := buckets[bucket];
      assert chain[0..] == chain;
      while node != 0
        invariant place <= |chain| && Strung(link, memory, node, chain[place..])
        invariant previous == if place == 0 then 0 else chain[place - 1].node
        invariant forall j :: 0 <= j < place ==> chain[j].pointer != pointer
        decreases |chain| - place
      {
        StrungPop(link, memory, node, chain[place..]);
        var r := memory[node];
        if r.pointer == pointer {
          InBucket(buckets, r);
          assert r in chain;
          RecordInMemory(memory, Records(buckets), r);
          if place > 0 { PreviousNode(memory, buckets, bucket, place - 1); }
          return Some(r), bucket, previous, place;
        }
        previous, node, place := node, L.Link(link, node), place + 1;
      }
      StrungEnd(link, memory, node, chain[place..]);
      found := None;
      NotInBucket(hash, buckets, bits, bucket, pointer);
    }

    /** The index half of memx_heap_free on a large pointer. */
    method Remove(pointer: nat, granted: bool) returns (found: Option<Record>)
      requires Valid()
      modifies this
      ensures Valid() && operations == old(operations) + 1
      ensures found.Some? ==>
                found.value.pointer == pointer && found.value in old(Contents()) && Contents() == old(Contents()) - multiset{found.value}
      ensures found.None? ==> buckets == old(buckets) && forall r :: r in Contents() ==> r.pointer != pointer
    {
      hide Pow2, Records, Hashed, Keyed, OnlyRecords, AllStrung;
      operations := operations + 1;
      var bucket, previous;
      ghost var place;
      found, bucket, previous, place := Find(pointer);
      if found.None? { return; }
      TableSizes(bits);
      Unlink(found.value, bucket, previous, place);
      RemovePays(bucketCount, count + 1);
      Shrink(granted);
    }

    /** The next word that leads to the record passes it by, and its node is freed. */
    method Unlink(r: Record, bucket: nat, previous: nat, ghost place: nat)
      requires Table() && bucket < |buckets| && place < |buckets[bucket]| && buckets[bucket][place] == r
      requires previous == (if place == 0 then 0 else buckets[bucket][place - 1].node) && (place > 0 ==> previous != 0)
      modifies this`heads, this`link, this`memory, this`buckets, this`count
      ensures Table() && r in old(Contents()) && Contents() == old(Contents()) - multiset{r} && count + 1 == old(count)
    {
      hide Pow2, Slot, Records, Hashed, Keyed, Strung, OnlyRecords, AllStrung;
      ghost var chain := buckets[bucket];
      RecordRemoved(hash, buckets, bits, bucket, place);
      StrungCount(link, memory, heads, buckets);
      TableCut(link, memory, heads, buckets, bucket, place);
      MemoryShrinks(memory, Records(buckets), r);
      var after := L.Link(link, r.node);
      if previous == 0 { heads := heads[bucket := after]; } else { link := link[previous := after]; }
      memory := memory - {r.node};
      buckets := buckets[bucket := chain[..place] + chain[place + 1..]];
      count := count - 1;
    }
  }

  lemma EmptyStrung(link: map<nat, nat>, memory: map<nat, Record>, heads: seq<nat>, buckets: Buckets)
    requires |heads| == |buckets| && (forall i :: 0 <= i < |heads| ==> heads[i] == 0) && forall i :: 0 <= i < |buckets| ==> buckets[i] == []
    ensures AllStrung(link, memory, heads, buckets)
  {
    L.EmptyChain(link);
    assert Nodes([]) == [];
  }

  lemma FirstStrung(link: map<nat, nat>, memory: map<nat, Record>, heads: seq<nat>, buckets: Buckets, index: nat)
    requires index < |heads| == |buckets| && AllStrung(link, memory, heads[index..], buckets[index..])
    ensures Strung(link, memory, heads[index], buckets[index]) && AllStrung(link, memory, heads[index + 1..], buckets[index + 1..])
  {
    hide Strung;
    var h, b, h', b' := heads[index..], buckets[index..], heads[index + 1..], buckets[index + 1..];
    assert Strung(link, memory, h[0], b[0]);
    forall i | 0 <= i < |h'|
      ensures Strung(link, memory, h'[i], b'[i])
    {
      assert Strung(link, memory, h[i + 1], b[i + 1]);
    }
  }

  /** The first record of the rest lies apart from all others. */
  lemma MovedApart(all: multiset<Record>, moved: multiset<Record>, rest: seq<Record>, later: multiset<Record>)
    requires Keyed(all) && rest != [] && all == (moved + multiset(rest)) + later
    ensures rest[0] in all
    ensures forall q :: q in moved || q in later ==> q.node != rest[0].node
    ensures forall i :: 1 <= i < |rest| ==> rest[i].node != rest[0].node
  {
    assert rest == [rest[0]] + rest[1..];
    Regrouped(moved, rest[0], multiset(rest[1..]), multiset(rest), later);
    NodeApart(all, rest[0], moved + multiset(rest[1..]) + later);
    forall i | 1 <= i < |rest|
      ensures rest[i].node != rest[0].node
    {
      assert rest[1..][i - 1] == rest[i];
      assert rest[i] in rest[1..];
    }
  }

  lemma Regrouped(moved: multiset<Record>, r: Record, tail: multiset<Record>, rest: multiset<Record>, later: multiset<Record>)
    requires rest == multiset{r} + tail
    ensures (moved + rest) + later == multiset{r} + (moved + tail + later)
  {
  }

  lemma RestFrame(link: map<nat, nat>, memory: map<nat, Record>, after: nat, rest: seq<Record>, node: nat, x: nat)
    requires rest != [] && node == rest[0].node && Strung(link, memory, after, rest[1..])
    requires forall i :: 1 <= i < |rest| ==> rest[i].node != rest[0].node
    ensures Strung(link[node := x], memory, after, rest[1..])
  {
    hide Strung;
    StrungFrame(link, memory, after, rest[1..], node, x);
  }

  lemma RecordInMemory(memory: map<nat, Record>, m: multiset<Record>, r: Record)
    requires OnlyRecords(memory, m) && r in m
    ensures r.node != 0 && r.node in memory && memory[r.node] == r
  {
  }

  lemma PreviousNode(memory: map<nat, Record>, buckets: Buckets, i: nat, place: nat)
    requires i < |buckets| && place < |buckets[i]| && OnlyRecords(memory, Records(buckets))
    ensures buckets[i][place].node != 0
  {
    InBucket(buckets, buckets[i][place]);
    assert buckets[i][place] in buckets[i];
  }

  lemma StrungCount(link: map<nat, nat>, memory: map<nat, Record>, heads: seq<nat>, buckets: Buckets)
    requires AllStrung(link, memory, heads, buckets)
    ensures |heads| == |buckets|
  {
  }

  lemma NoBuckets(buckets: Buckets)
    requires buckets == []
    ensures Records(buckets) == multiset{}
  {
  }

  /** A pointer that is not in its bucket is nowhere. */
  lemma NotInBucket(hash: nat -> nat, buckets: Buckets, bits: nat, bucket: nat, pointer: nat)
    requires Hashed(hash, buckets, bits) && bucket < |buckets| && bucket == Slot(hash, pointer, bits)
    requires forall j :: 0 <= j < |buckets[bucket]| ==> buckets[bucket][j].pointer != pointer
    ensures forall r :: r in Records(buckets) ==> r.pointer != pointer
  {
    hide Records, Slot;
    forall r | r in Records(buckets)
      ensures r.pointer != pointer
    {
      InBucket(buckets, r);
      var i :| 0 <= i < |buckets| && r in buckets[i];
    }
  }

  lemma MemoryGrows(link: map<nat, nat>, memory: map<nat, Record>, heads: seq<nat>, buckets: Buckets, r: Record)
    requires AllStrung(link, memory, heads, buckets) && OnlyRecords(memory, Records(buckets)) && r.node != 0
    requires forall q :: q in Records(buckets) ==> q.node != r.node
    ensures AllStrung(link, memory[r.node := r], heads, buckets)
    ensures OnlyRecords(memory[r.node := r], Records(buckets) + multiset{r})
  {
    hide Strung, Records;
    forall i | 0 <= i < |heads|
      ensures Strung(link, memory[r.node := r], heads[i], buckets[i])
    {
      forall j | 0 <= j < |buckets[i]|
        ensures buckets[i][j].node in memory && memory[buckets[i][j].node] == buckets[i][j] && buckets[i][j].node != r.node
      {
        InBucket(buckets, buckets[i][j]);
        assert buckets[i][j] in buckets[i];
      }
      StrungMemory(link, memory, memory[r.node := r], heads[i], buckets[i]);
    }
  }

  lemma MemoryShrinks(memory: map<nat, Record>, m: multiset<Record>, r: Record)
    requires OnlyRecords(memory, m) && Keyed(m) && r in m
    ensures OnlyRecords(memory - {r.node}, m - multiset{r})
  {
    forall q | q in m - multiset{r}
      ensures q.node != 0 && q.node in memory - {r.node} && memory[q.node] == q
    {
      assert q in m && (q == r ==> m[r] >= 2);
    }
  }

  lemma SmallestTable()
    ensures Pow2(MIN_BITS) == MIN_BUCKETS
  {
    assert Pow2(6) == 64;
  }

  lemma MoveSum(a: multiset<Record>, b: multiset<Record>, c: multiset<Record>)
    ensures (a + b) + c == a + (b + c)
    ensures |a + b| == |a| + |b|
  {
  }

  lemma NoneLeft(buckets: Buckets, index: nat, moved: multiset<Record>)
    requires index == |buckets|
    ensures moved + Records(buckets[index..]) == moved
  {
  }

  lemma RecordAdded(hash: nat -> nat, buckets: Buckets, bits: nat, i: nat, r: Record)
    requires i < |buckets| && Hashed(hash, buckets, bits) && Keyed(Records(buckets)) && Slot(hash, r.pointer, bits) == i
    requires forall q :: q in Records(buckets) ==> q.pointer != r.pointer && q.node != r.node
    ensures var next := buckets[i := [r] + buckets[i]];
            && Records(next) == Records(buckets) + multiset{r} && |Records(next)| == |Records(buckets)| + 1
            && Keyed(Records(next)) && Hashed(hash, next, bits)
  {
    hide Slot, Records;
    RecordsPush(buckets, i, r);
    KeyedPlus(Records(buckets), r);
  }

  lemma KeyedPlus(m: multiset<Record>, r: Record)
    requires Keyed(m) && forall q :: q in m ==> q.pointer != r.pointer && q.node != r.node
    ensures Keyed(m + multiset{r}) && |m + multiset{r}| == |m| + 1
  {
    assert r in m ==> r.pointer != r.pointer;
    assert m[r] == 0;
  }

  lemma KeyedMinus(next: multiset<Record>, r: Record, m: multiset<Record>)
    requires Keyed(m) && next + multiset{r} == m
    ensures Keyed(next) && next == m - multiset{r} && |next| == |m| - 1 && r in m
  {
    forall q
      ensures next[q] <= m[q]
    {
      assert m[q] == next[q] + multiset{r}[q];
    }
  }

  lemma RecordRemoved(hash: nat -> nat, buckets: Buckets, bits: nat, i: nat, place: nat)
    requires i < |buckets| && place < |buckets[i]| && Hashed(hash, buckets, bits) && Keyed(Records(buckets))
    ensures var next := buckets[i := buckets[i][..place] + buckets[i][place + 1..]]; var r := buckets[i][place];
            && r in Records(buckets) && Records(next) == Records(buckets) - multiset{r} && |Records(next)| == |Records(buckets)| - 1
            && Keyed(Records(next)) && Hashed(hash, next, bits)
  {
    hide Slot, Records;
    RecordsCut(buckets, i, place);
    KeyedMinus(Records(buckets[i := buckets[i][..place] + buckets[i][place + 1..]]), buckets[i][place], Records(buckets));
  }

  // ----- whole runs

  datatype Operation = Allocate(record: Record, granted: bool) | Release(pointer: nat, granted: bool)

  /** Nodes and pointers of new mappings are not in use. */
  ghost predicate Usable(m: multiset<Record>, op: Operation) {
    op.Allocate? ==> op.record.node != 0 && forall q :: q in m ==> q.pointer != op.record.pointer && q.node != op.record.node
  }

  /** What one operation does to the records: a mapping is entered unless a full table could not grow, and a pointer in use is freed. */
  ghost predicate Effect(before: multiset<Record>, op: Operation, ok: bool, after: multiset<Record>) {
    match op
    case Allocate(record, _) => after == if ok then before + multiset{record} else before
    case Release(pointer, _) => (ok <==> exists r :: r in before && r.pointer == pointer) && Released(before, pointer, ok, after)
  }

  ghost predicate Released(before: multiset<Record>, pointer: nat, ok: bool, after: multiset<Record>) {
    if ok then exists r :: r in before && r.pointer == pointer && after == before - multiset{r} else after == before
  }

  /** One operation: it may be charged for at most two relinks. */
  method Perform(index: Index, op: Operation) returns (ok: bool)
    requires index.Valid() && Usable(index.Contents(), op)
    modifies index
    ensures index.Valid() && index.operations == old(index.operations) + 1
    ensures index.relinked <= 2 * index.operations
    ensures Effect(old(index.Contents()), op, ok, index.Contents())
  {
    hide Records, Index.Table, Potential;
    match op
    case Allocate(record, granted) => ok := index.Insert(record, granted);
    case Release(pointer, granted) =>
      var found := index.Remove(pointer, granted);
      ok := found.Some?;
  }

  /** The effect of one operation; mappings are placed where none is in use. */
  ghost predicate Stepped(before: multiset<Record>, op: Operation, ok: bool, after: multiset<Record>) {
    if Usable(before, op) then Effect(before, op, ok, after) else !ok && after == before
  }

  /** The records before and after every operation of a run. */
  ghost predicate Explained(ops: seq<Operation>, oks: seq<bool>, states: seq<multiset<Record>>) {
    && |oks| == |ops| && |states| == |ops| + 1 && states[0] == multiset{}
    && forall i :: 0 <= i < |ops| ==> Stepped(states[i], ops[i], oks[i], states[i + 1])
  }

  /**
   Any run of allocations and frees from an empty index, whatever table allocations fail,
   relinks at most two records per operation. An allocation at a pointer or a node in use
   cannot happen, and is passed over.
   */
  method PerformAll(hash: nat -> nat, sizeMax: nat, ops: seq<Operation>)
    returns (index: Index, oks: seq<bool>, ghost states: seq<multiset<Record>>)
    ensures index.Valid() && Explained(ops, oks, states) && index.Contents() == states[|ops|]
    ensures index.relinked <= 2 * |ops|
  {
    hide Records, Potential, Effect, Explained, OnlyRecords, AllStrung, Hashed, Keyed;
    index := new Index(hash, sizeMax);
    oks, states := [], [index.Contents()];
    ExplainedStart(ops);
    var i := 0;
    while i < |ops|
      invariant i <= |ops| && index.Valid() && fresh(index) && index.operations <= i
      invariant Explained(ops[..i], oks, states) && |states| == i + 1 && |oks| == i && states[i] == index.Contents()
    {
      var ok, usable := false, true;
      if ops[i].Allocate? {
        var found, bucket, previous, place := index.Find(ops[i].record.pointer);
        usable := found.None? && ops[i].record.node != 0 && ops[i].record.node !in index.memory;
        NodeInUse(index.memory, index.Contents(), ops[i].record.node);
      }
      if usable { ok := Perform(index, ops[i]); }
      ExplainedGrows(ops, i, oks, states, ok, index.Contents());
      oks, states := oks + [ok], states + [index.Contents()];
      i := i + 1;
    }
    assert ops[..i] == ops;
  }

  lemma NodeInUse(memory: map<nat, Record>, m: multiset<Record>, node: nat)
    requires OnlyRecords(memory, m)
    ensures node in memory <==> exists r :: r in m && r.node == node
  {
  }

  lemma ExplainedStart(ops: seq<Operation>)
    ensures Explained(ops[..0], [], [multiset{}])
  {
  }

  lemma ExplainedGrows(ops: seq<Operation>, i: nat, oks: seq<bool>, states: seq<multiset<Record>>, ok: bool, m: multiset<Record>)
    requires i < |ops| && Explained(ops[..i], oks, states)
    requires Stepped(states[i], ops[i], ok, m)
    ensures Explained(ops[..i + 1], oks + [ok], states + [m])
  {
    hide Stepped;
    var longer, more := oks + [ok], states + [m];
    forall j | 0 <= j < i + 1
      ensures Stepped(more[j], ops[..i + 1][j], longer[j], more[j + 1])
    {
      if j < i {
        assert Stepped(states[j], ops[..i][j], oks[j], states[j + 1]);
      }
    }
  }
}
