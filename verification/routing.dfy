/**
 From keys to nodes and batches to groups: src/cluster/partition.rs, get_node and get_random_node of
 src/cluster/mod.rs, and get_batch_nodes of src/batch/batch_executor.rs.
 */
module Routing {
  import opened Options
  import opened Bytes
  import opened CommandBuffer
  import opened RoundRobin
  import opened Partitions

  /** The bitwise and of two numbers. */
  function And(a: nat, b: nat): (c: nat)
  {
    if a == 0 || b == 0 then 0 else 2 * And(a / 2, b / 2) + (a % 2) * (b % 2)
  }

  function Pow2(k: nat): (p: nat)
    ensures p > 0
  {
    if k == 0 then 1 else 2 * Pow2(k - 1)
  }

  lemma HalfRemainder(a: nat, p: nat)
    requires p > 0
    ensures a % (2 * p) == 2 * ((a / 2) % p) + a % 2
  {
    var h := a / 2;
    var q, r := h / p, h % p;
    assert h == q * p + r;
    assert q * (2 * p) == 2 * (q * p);
    Remainder(a, q, 2 * p, 2 * r + a % 2);
  }

  /** Masking with 2^k - 1 is taking the remainder. */
  lemma {:induction false} MaskIsRemainder(a: nat, k: nat)
    ensures And(a, Pow2(k) - 1) == a % Pow2(k)
  {
    if k > 0 {
      var p := Pow2(k - 1);
      MaskIsRemainder(a / 2, k - 1);
      HalfRemainder(a, p);
      assert (2 * p - 1) / 2 == p - 1 && (2 * p - 1) % 2 == 1;
    }
  }

  function LittleEndian32(d: bytes): nat
    requires |d| >= 4
  {
    var b: seq<int> := d[..4];
    b[0] + 0x100 * b[1] + 0x1_0000 * b[2] + 0x100_0000 * b[3]
  }

  /** new_by_key */
  function PartitionId(digest: bytes): nat
    requires |digest| >= 4
  {
    And(LittleEndian32(digest), PARTITIONS - 1)
  }

  /** The partition of a key: the low twelve bits of its digest, read as little-endian. */
  lemma PartitionIdInRange(digest: bytes)
    requires |digest| >= 4
    ensures PartitionId(digest) == LittleEndian32(digest) % PARTITIONS
    ensures PartitionId(digest) < PARTITIONS
    ensures var low: int, high: int := digest[0], digest[1]; PartitionId(digest) == low + 256 * (high % 16)
  {
    hide And;
    assert Pow2(4) == 16;
    assert Pow2(8) == 256;
    assert Pow2(12) == PARTITIONS;
    MaskIsRemainder(LittleEndian32(digest), 12);
    LowTwelveBits(digest[0], digest[1], digest[2], digest[3]);
  }

  lemma LowTwelveBits(a: int, b: int, c: int, d: int)
    requires 0 <= a < 256 && 0 <= b < 256
    ensures (a + 0x100 * b + 0x1_0000 * c + 0x100_0000 * d) % 4096 == a + 256 * (b % 16)
  {
    var high, low := b / 16, b % 16;
    Remainder(a + 0x100 * b + 0x1_0000 * c + 0x100_0000 * d, high + 16 * c + 4096 * d, 4096, a + 256 * low);
  }

  const MAX_COUNTER := 0x7fff_ffff_ffff_ffff

  /** The first `n` attempts of a search meet inactive nodes. */
  ghost predicate InactiveFor(active: seq<bool>, counter: int, n: nat)
    requires |active| > 0
  {
    forall k: nat :: k < n ==> !active[SignedSpot(counter, k, |active|)]
  }

  /** How many attempts there are until the sum of the counter and one overflows, if that happens at all. */
  function Attempts(counter: int, n: nat): nat
    requires counter <= MAX_COUNTER
  {
    if counter + n > MAX_COUNTER then MAX_COUNTER - counter else n
  }

  /** The cluster's nodes with their activity, and the counter of get_random_node. */
  class Cluster {
    var partitions: PartitionMap
    var nodes: seq<Node>
    var active: seq<bool>
    var nodeIndex: int

    ghost predicate Valid()
      reads this
    {
      |nodes| == |active| && WellFormed(partitions) && -MAX_COUNTER - 1 <= nodeIndex <= MAX_COUNTER
    }

    /**
     Tries as many nodes as there are, each behind the one before.  It fails exactly if all attempts meet inactive
     nodes, and panics exactly if all meet inactive nodes until the counter cannot be increased.
     */
    method GetRandomNode() returns (r: Outcome<Node>)
      requires Valid()
      modifies `nodeIndex
      ensures Valid()
      ensures nodes == [] ==> r.Err? && nodeIndex == old(nodeIndex)
      ensures nodes != [] && old(nodeIndex) + |nodes| <= MAX_COUNTER ==>
                (r.Err? <==> InactiveFor(active, old(nodeIndex), |nodes|)) && !r.Panic?
      ensures nodes != [] && old(nodeIndex) + |nodes| > MAX_COUNTER ==>
                (r.Panic? <==> InactiveFor(active, old(nodeIndex), Attempts(old(nodeIndex), |nodes|))) && !r.Err?
      ensures r.Ok? ==> exists k: nat :: k < |nodes| && FirstActive(active, old(nodeIndex), k)
                                       && r.value == nodes[SignedSpot(old(nodeIndex), k, |nodes|)]
                                       && nodeIndex == old(nodeIndex) + k + 1
    {
      hide SignedSpot;
      ghost var start := nodeIndex;
      var length := |nodes|;
      for n := 0 to length
        invariant nodeIndex == start + n <= MAX_COUNTER
        invariant length > 0 ==> InactiveFor(active, start, n)
      {
        var was := nodeIndex;
        nodeIndex := if was == MAX_COUNTER then -MAX_COUNTER - 1 else was + 1;
        if was == MAX_COUNTER {
          return Panic;  // was + 1 overflows
        }
        SpotIs(was, start, n, length);
        var index := Abs(TruncRem(was + 1, length));
        if active[index] {
          assert FirstActive(active, start, n);
          return Ok(nodes[index]);
        }
      }
      return Err;
    }

    /** A key of a known namespace always goes to the owner of its partition; the others go to any active node. */
    method GetNode(namespace: string, digest: bytes) returns (r: Outcome<Node>)
      requires Valid() && |digest| >= 4
      modifies `nodeIndex
      ensures Valid()
      ensures namespace in partitions ==>
                var low: int, high: int := digest[0], digest[1];
                r == Ok(partitions[namespace][low + 256 * (high % 16)]) && nodeIndex == old(nodeIndex)
      ensures namespace !in partitions && nodes != [] && old(nodeIndex) + |nodes| <= MAX_COUNTER ==>
                (r.Err? <==> InactiveFor(active, old(nodeIndex), |nodes|)) && !r.Panic?
      ensures namespace !in partitions && nodes == [] ==> r.Err?
      ensures namespace !in partitions && nodes != [] && old(nodeIndex) + |nodes| > MAX_COUNTER ==>
                (r.Panic? <==> InactiveFor(active, old(nodeIndex), Attempts(old(nodeIndex), |nodes|))) && !r.Err?
      ensures namespace !in partitions && r.Ok? ==> exists i :: 0 <= i < |nodes| && active[i] && r.value == nodes[i]
    {
      PartitionIdInRange(digest);
      var id := PartitionId(digest);
      if namespace in partitions {
        var entries := partitions[namespace];
        if id < |entries| {
          return Ok(entries[id]);
        }
      }
      r := GetRandomNode();
    }

    /**
     update_partitions, once the node has replied: the map is read, the reply is folded into it, and the result
     replaces it; a reply that is refused changes nothing.
     */
    method UpdatePartitions(parts: seq<Part>, node: Node) returns (r: Outcome<()>)
      requires Valid()
      requires forall k :: 0 <= k < |parts| && parts[k].decoded.Some? ==> |parts[k].decoded.value| == PARTITIONS / 8
      modifies `partitions
      ensures Valid() && !r.Panic?
      ensures r.Ok? <==> Paired(parts)
      ensures r.Ok? ==> AllFull(UpdatesOf(parts, node)) && partitions == Fold(old(partitions), UpdatesOf(parts, node))
      ensures r.Ok? ==> TookOver(old(partitions), parts, node, partitions)
      ensures !r.Ok? ==> partitions == old(partitions)
    {
      hide TookOver;
      ReplyIsFolded(partitions, parts, node);
      var folded :- UpdatePartition(partitions, parts, node);
      partitions := folded;
      return Ok(());
    }
  }

  ghost predicate FirstActive(active: seq<bool>, counter: int, k: nat)
    requires |active| > 0
  {
    active[SignedSpot(counter, k, |active|)] && InactiveFor(active, counter, k)
  }

  lemma SpotIs(was: int, counter: int, k: nat, n: nat)
    requires n > 0 && was == counter + k
    ensures Abs(TruncRem(was + 1, n)) == SignedSpot(counter, k, n)
  {
  }

  ghost predicate FailsThoughActive(active: seq<bool>, counter: int)
    requires |active| > 0
  {
    InactiveFor(active, counter, |active|) && exists i :: 0 <= i < |active| && active[i]
  }

  /** Some cluster has an active node that the search misses, exactly if the counter goes through zero on the way. */
  lemma RandomNodeMissesExactly(counter: int, n: nat)
    requires n > 0
    ensures (exists active: seq<bool> :: |active| == n && FailsThoughActive(active, counter)) <==>
            counter + 1 < 0 < counter + n
  {
    hide SignedSpot;
    SignedCoversExactly(counter, n);
    if counter + 1 < 0 < counter + n {
      var i: nat :| i < n && !SignedVisits(counter, n, i);
      var active := seq(n, j => j == i);
      assert active[i];
      forall k: nat | k < n ensures !active[SignedSpot(counter, k, n)] {
        assert SignedSpot(counter, k, n) != i;
      }
      assert FailsThoughActive(active, counter);
    } else {
      forall active: seq<bool> | |active| == n && InactiveFor(active, counter, n) ensures !FailsThoughActive(active, counter) {
        forall i: nat | i < n ensures !active[i] {
          assert SignedVisits(counter, n, i);
        }
      }
    }
  }

  /**
   After any replies to an empty map, a key of a namespace that was named goes to the node of the last update that
   claims its partition, or, if none does, to the node of the first update of the namespace.
   */
  lemma KeyGoesToOwner(us: seq<Update>, namespace: string, digest: bytes)
    requires AllFull(us) && |digest| >= 4
    requires exists k :: 0 <= k < |us| && us[k].namespace == namespace
    ensures var low: int, high: int := digest[0], digest[1];
      var i := low + 256 * (high % 16);
      var m := Fold(map[], us);
      && PartitionId(digest) == i && namespace in m
      && (forall k :: 0 <= k < |us| && LastClaim(us, k, namespace, i) ==> m[namespace][PartitionId(digest)] == us[k].node)
      && (forall k :: 0 <= k < |us| && FirstNamed(us, k, namespace) && Unclaimed(us, namespace, i)
            ==> m[namespace][PartitionId(digest)] == us[k].node)
  {
    hide LastClaim, FirstNamed, Unclaimed, Fold;
    PartitionIdInRange(digest);
    LastClaimOwns(us, namespace, PartitionId(digest));
  }

  // ---------------------------------------------------------------------------------------------
  // Batches

  /** The indices that go to a node. */
  function Group(route: seq<Node>, node: Node): seq<nat>
  {
    PartitionsOf(route, node)
  }

  function Groups(route: seq<Node>): (m: map<Node, seq<nat>>)
  {
    map node | node in route :: Group(route, node)
  }

  function Found(route: seq<Option<Node>>): (nodes: seq<Node>)
    requires None !in route
    ensures |nodes| == |route|
  {
    seq(|route|, i requires 0 <= i < |route| => assert route[i] in route; route[i].value)
  }

  /** `route` is what node_for_key answers for each key; an error ends the loop. */
  method GetBatchNodes(route: seq<Option<Node>>) returns (r: Option<map<Node, seq<nat>>>)
    ensures r.None? <==> None in route
    ensures r.Some? ==> r.value == Groups(Found(route))
  {
    var m: map<Node, seq<nat>> := map[];
    ghost var nodes: seq<Node> := [];
    for idx := 0 to |route|
      invariant |nodes| == idx && forall i :: 0 <= i < idx ==> route[i] == Some(nodes[i])
      invariant m == Groups(nodes)
    {
      if route[idx].None? {
        return None;
      }
      var node := route[idx].value;
      GroupsGrow(nodes, node);
      if node !in m {
        m := m[node := []];
      }
      m := m[node := m[node] + [idx]];
      nodes := nodes + [node];
    }
    assert nodes == Found(route);
    return Some(m);
  }

  lemma {:induction false} NotInRoute(route: seq<Node>, node: Node)
    requires node !in route
    ensures Group(route, node) == []
  {
    if route != [] {
      NotInRoute(route[..|route| - 1], node);
    }
  }

  lemma GroupGrows(route: seq<Node>, node: Node, n: Node)
    ensures Group(route + [node], n) == Group(route, n) + if n == node then [|route|] else []
  {
    assert (route + [node])[..|route|] == route;
  }

  lemma GroupsGrow(route: seq<Node>, node: Node)
    ensures Groups(route + [node])
         == Groups(route)[node := (if node in Groups(route) then Groups(route)[node] else []) + [|route|]]
  {
    hide Group;
    if node !in route {
      NotInRoute(route, node);
    }
    var before, after := Groups(route), Groups(route + [node]);
    var grown := before[node := (if node in before then before[node] else []) + [|route|]];
    assert after.Keys == grown.Keys;
    forall n | n in after ensures after[n] == grown[n] {
      GroupGrows(route, node, n);
    }
  }

  /** The groups are ascending, and every index is in exactly one of them: the one of its node. */
  lemma GroupsPartition(route: seq<Node>, i: nat)
    requires i < |route|
    ensures route[i] in Groups(route)
    ensures forall node :: node in Groups(route) ==>
      && Increasing(Groups(route)[node]) && Groups(route)[node] != []
      && (forall k :: 0 <= k < |Groups(route)[node]| ==> Groups(route)[node][k] < |route|)
      && multiset(Groups(route)[node])[i] == if node == route[i] then 1 else 0
  {
    forall node | node in route
      ensures Increasing(Group(route, node)) && Group(route, node) != []
      ensures multiset(Group(route, node))[i] == if node == route[i] then 1 else 0
    {
      ListIsIncreasing(route, node);
      ListCounts(route, node, i);
      var j :| 0 <= j < |route| && route[j] == node;
      ListCounts(route, node, j);
    }
  }
}
