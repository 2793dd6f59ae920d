/**
 Who owns which partition: the map that the replies of the nodes are folded into
 (src/cluster/partition_tokenizer.rs) and its readers (src/cluster/mod.rs, src/cluster/partition.rs).
 */
module Partitions {
  import opened Options
  import opened Bytes
  import opened CommandBuffer

  const PARTITIONS := 4096

  /** A node is equal to another exactly if their names are. */
  type Node = string

  type PartitionMap = map<string, seq<Node>>

  /** Every namespace has an owner for each partition. */
  predicate WellFormed(m: PartitionMap)
  {
    forall ns :: ns in m ==> |m[ns]| == PARTITIONS
  }

  function Mask(bit: nat): bv8
    requires bit < 8
  {
    0x80 >> (bit as bv4)
  }

  /** The test of the program: a mask moved to the bit. */
  predicate BitIsSet(b: byte, bit: nat)
    requires bit < 8
  {
    (b as bv8) & Mask(bit) != 0
  }

  /** What the mask picks, as arithmetic: bit 0 is the most significant one. */
  lemma BitMeaning(b: byte, bit: nat)
    requires bit < 8
    ensures BitIsSet(b, bit) <==> (b / [128, 64, 32, 16, 8, 4, 2, 1][bit]) % 2 == 1
  {
    if bit == 0 {
    } else if bit == 1 {
    } else if bit == 2 {
    } else if bit == 3 {
    } else if bit == 4 {
    } else if bit == 5 {
    } else if bit == 6 {
    } else {
    }
  }

  /** A bitmap sets bit `i`, counted from the most significant bit of its first byte. */
  predicate Sets(bitmap: bytes, i: nat)
    requires i / 8 < |bitmap|
  {
    (bitmap[i / 8] / [128, 64, 32, 16, 8, 4, 2, 1][i % 8]) % 2 == 1
  }

  // ---------------------------------------------------------------------------------------------
  // One reply

  /** A part of a reply between colons and semicolons, with what base64 makes of it. */
  datatype Part = Part(text: string, decoded: Option<bytes>)

  /** What one namespace of a reply says. */
  datatype Update = Update(namespace: string, bitmap: bytes, node: Node)

  /** A new namespace is all the node's; in a known one the node takes over the bits that are set. */
  function Entries(m: PartitionMap, u: Update): (e: seq<Node>)
    requires u.namespace in m ==> 8 * |u.bitmap| >= |m[u.namespace]|
    ensures |e| == if u.namespace in m then |m[u.namespace]| else PARTITIONS
  {
    if u.namespace !in m then seq(PARTITIONS, _ => u.node) else TakenOver(m[u.namespace], u.bitmap, u.node)
  }

  function TakenOver(entries: seq<Node>, bitmap: bytes, node: Node): (e: seq<Node>)
    requires 8 * |bitmap| >= |entries|
    ensures |e| == |entries|
  {
    seq(|entries|, i requires 0 <= i < |entries| => if Sets(bitmap, i) then node else entries[i])
  }

  function Updated(m: PartitionMap, u: Update): PartitionMap
    requires u.namespace in m ==> 8 * |u.bitmap| >= |m[u.namespace]|
  {
    m[u.namespace := Entries(m, u)]
  }

  /**
   update_partition: pairs of a namespace and a bitmap.  A reply with an odd number of parts or a part
   that does not decode is an error; a bitmap that is too short for a known namespace panics.
   */
  function Tokens(m: PartitionMap, parts: seq<Part>, node: Node): Outcome<PartitionMap>
    decreases |parts|
  {
    if parts == [] then Ok(m)
    else if |parts| == 1 || parts[1].decoded.None? then Err
    else
      var u := Update(parts[0].text, parts[1].decoded.value, node);
      if u.namespace in m && 8 * |u.bitmap| < |m[u.namespace]| then Panic
      else Tokens(Updated(m, u), parts[2..], node)
  }

  method TakeOver(entries: seq<Node>, bitmap: bytes, node: Node) returns (r: Outcome<seq<Node>>)
    ensures r == if 8 * |bitmap| < |entries| then Panic else Ok(TakenOver(entries, bitmap, node))
    ensures r.Panic? <==> 8 * |bitmap| < |entries|
    ensures r.Ok? ==> |r.value| == |entries| && forall i :: 0 <= i < |entries| ==>
              r.value[i] == if (bitmap[i / 8] / [128, 64, 32, 16, 8, 4, 2, 1][i % 8]) % 2 == 1 then node else entries[i]
  {
    hide BitIsSet;
    var items := entries;
    for idx := 0 to |entries|
      invariant |items| == |entries| && 8 * |bitmap| >= idx
      invariant forall i :: 0 <= i < idx ==> items[i] == if Sets(bitmap, i) then node else entries[i]
      invariant forall i :: idx <= i < |entries| ==> items[i] == entries[i]
    {
      if idx / 8 >= |bitmap| {
        return Panic;
      }
      BitMeaning(bitmap[idx / 8], idx % 8);
      if BitIsSet(bitmap[idx / 8], idx % 8) {
        items := items[idx := node];
      }
    }
    assert items == TakenOver(entries, bitmap, node);
    return Ok(items);
  }

  /** Every namespace has its bitmap, and every bitmap decodes. */
  predicate Paired(parts: seq<Part>)
  {
    |parts| % 2 == 0 && forall k :: 0 <= k < |parts| && k % 2 == 1 ==> parts[k].decoded.Some?
  }

  /** The name of a namespace is every other part of a reply. */
  predicate Named(parts: seq<Part>, namespace: string)
  {
    exists k :: 0 <= k < |parts| && k % 2 == 0 && parts[k].text == namespace
  }

  /** Parts `k` and `k + 1` are the namespace and a bitmap in which bit `i % 8`, from the top, of byte `i / 8` is set. */
  predicate PairClaims(parts: seq<Part>, k: int, namespace: string, i: nat)
    requires 0 <= k < |parts| - 1
  {
    && k % 2 == 0 && parts[k].text == namespace
    && parts[k + 1].decoded.Some? && i / 8 < |parts[k + 1].decoded.value|
    && (parts[k + 1].decoded.value[i / 8] / [128, 64, 32, 16, 8, 4, 2, 1][i % 8]) % 2 == 1
  }

  predicate ClaimedIn(parts: seq<Part>, namespace: string, i: nat)
  {
    exists k :: 0 <= k < |parts| - 1 && PairClaims(parts, k, namespace, i)
  }

  /**
   What a reply that is accepted does to the map: in a namespace that was known, the node takes over the partitions
   whose bits are set and no other entry changes; a new namespace is all the node's; the others stay.
   */
  ghost predicate TookOver(m: PartitionMap, parts: seq<Part>, node: Node, r: PartitionMap)
  {
    && (forall ns :: ns in r <==> ns in m || Named(parts, ns))
    && (forall ns :: ns in m ==> |r[ns]| == |m[ns]| && forall i: nat :: i < |m[ns]| ==>
          r[ns][i] == if ClaimedIn(parts, ns, i) then node else m[ns][i])
    && (forall ns :: ns in r && ns !in m ==> |r[ns]| == 4096 && forall i :: 0 <= i < 4096 ==> r[ns][i] == node)
  }

  lemma NamedTail(parts: seq<Part>, namespace: string)
    requires |parts| >= 2
    ensures Named(parts, namespace) <==> parts[0].text == namespace || Named(parts[2..], namespace)
  {
    if Named(parts[2..], namespace) {
      var k :| 0 <= k < |parts[2..]| && k % 2 == 0 && parts[2..][k].text == namespace;
      assert parts[k + 2].text == namespace;
    }
    if Named(parts, namespace) && parts[0].text != namespace {
      var k :| 0 <= k < |parts| && k % 2 == 0 && parts[k].text == namespace;
      assert parts[2..][k - 2].text == namespace;
    }
  }

  lemma ClaimedTail(parts: seq<Part>, namespace: string, i: nat)
    requires |parts| >= 2
    ensures ClaimedIn(parts, namespace, i) <==> PairClaims(parts, 0, namespace, i) || ClaimedIn(parts[2..], namespace, i)
  {
    hide PairClaims;
    forall k | 2 <= k < |parts| - 1
      ensures PairClaims(parts, k, namespace, i) <==> PairClaims(parts[2..], k - 2, namespace, i)
    {
      PairBehind(parts, k, namespace, i);
    }
    if ClaimedIn(parts[2..], namespace, i) {
      var k :| 0 <= k < |parts[2..]| - 1 && PairClaims(parts[2..], k, namespace, i);
      assert PairClaims(parts, k + 2, namespace, i);
    }
    if ClaimedIn(parts, namespace, i) {
      var k :| 0 <= k < |parts| - 1 && PairClaims(parts, k, namespace, i);
      OddClaimsNothing(parts, k, namespace, i);
    }
  }

  lemma PairBehind(parts: seq<Part>, k: nat, namespace: string, i: nat)
    requires 2 <= k < |parts| - 1
    ensures PairClaims(parts, k, namespace, i) <==> PairClaims(parts[2..], k - 2, namespace, i)
  {
    assert parts[2..][k - 2] == parts[k] && parts[2..][k - 1] == parts[k + 1];
  }

  lemma OddClaimsNothing(parts: seq<Part>, k: nat, namespace: string, i: nat)
    requires k < |parts| - 1 && PairClaims(parts, k, namespace, i)
    ensures k != 1
  {
  }

  lemma FirstPairClaims(parts: seq<Part>, namespace: string, i: nat)
    requires |parts| >= 2 && parts[1].decoded.Some? && i / 8 < |parts[1].decoded.value|
    ensures PairClaims(parts, 0, namespace, i) <==> parts[0].text == namespace && Sets(parts[1].decoded.value, i)
  {
  }

  lemma {:induction false} ReplyTakesOver(m: PartitionMap, parts: seq<Part>, node: Node)
    requires Tokens(m, parts, node).Ok?
    ensures Paired(parts) && TookOver(m, parts, node, Tokens(m, parts, node).value)
    decreases |parts|
  {
    hide Sets, ClaimedIn, Named, Paired;
    if parts == [] {
      NothingNamed();
    } else {
      var u := Update(parts[0].text, parts[1].decoded.value, node);
      ReplyTakesOver(Updated(m, u), parts[2..], node);
      PairedTail(parts);
      TakesOverStep(m, parts, node, Tokens(m, parts, node).value);
    }
  }

  lemma NothingNamed()
    ensures Paired([]) && forall ns :: !Named([], ns)
    ensures forall ns, i :: !ClaimedIn([], ns, i)
  {
  }

  /** The first pair of a reply and the rest of it. */
  lemma TakesOverStep(m: PartitionMap, parts: seq<Part>, node: Node, r: PartitionMap)
    requires |parts| >= 2 && parts[1].decoded.Some?
    requires parts[0].text in m ==> 8 * |parts[1].decoded.value| >= |m[parts[0].text]|
    requires TookOver(Updated(m, Update(parts[0].text, parts[1].decoded.value, node)), parts[2..], node, r)
    ensures TookOver(m, parts, node, r)
  {
    hide Sets, ClaimedIn, Named, PairClaims;
    var u := Update(parts[0].text, parts[1].decoded.value, node);
    var n := Updated(m, u);
    forall ns ensures ns in r <==> ns in m || Named(parts, ns) {
      NamedTail(parts, ns);
    }
    forall ns | ns in m
      ensures |r[ns]| == |m[ns]|
      ensures forall i: nat :: i < |m[ns]| ==> r[ns][i] == if ClaimedIn(parts, ns, i) then node else m[ns][i]
    {
      assert ns in n && |n[ns]| == |m[ns]|;
      forall i: nat | i < |m[ns]| ensures r[ns][i] == if ClaimedIn(parts, ns, i) then node else m[ns][i] {
        ClaimedTail(parts, ns, i);
        if ns == u.namespace {
          FirstPairClaims(parts, ns, i);
          assert n[ns][i] == if Sets(u.bitmap, i) then node else m[ns][i];
        } else {
          OtherPair(parts, ns, i);
        }
      }
    }
    forall ns | ns in r && ns !in m ensures |r[ns]| == 4096 && forall i :: 0 <= i < 4096 ==> r[ns][i] == node {
      NamedTail(parts, ns);
      if ns == u.namespace {
        assert ns in n && |n[ns]| == 4096 && forall i :: 0 <= i < 4096 ==> n[ns][i] == node;
      } else {
        assert ns !in n;
      }
    }
  }

  lemma OtherPair(parts: seq<Part>, namespace: string, i: nat)
    requires |parts| >= 2 && parts[0].text != namespace
    ensures !PairClaims(parts, 0, namespace, i)
  {
  }

  method UpdatePartition(m: PartitionMap, parts: seq<Part>, node: Node) returns (r: Outcome<PartitionMap>)
    ensures r == Tokens(m, parts, node)
    ensures r.Ok? ==> Paired(parts) && TookOver(m, parts, node, r.value)
  {
    hide BitIsSet, ClaimedIn, TookOver;
    if Tokens(m, parts, node).Ok? {
      ReplyTakesOver(m, parts, node);
    }
    var amap := m;
    var k := 0;
    while k < |parts|
      invariant k <= |parts| && Tokens(m, parts, node) == Tokens(amap, parts[k..], node)
      decreases |parts| - k
    {
      if k + 1 == |parts| {
        return Err;
      }
      var ns, part := parts[k].text, parts[k + 1];
      assert parts[k..][0] == parts[k] && parts[k..][1] == parts[k + 1] && parts[k..][2..] == parts[k + 2..];
      if part.decoded.None? {
        return Err;
      }
      if ns !in amap {
        amap := amap[ns := seq(PARTITIONS, _ => node)];
      } else {
        var items :- TakeOver(amap[ns], part.decoded.value, node);
        amap := amap[ns := items];
      }
      k := k + 2;
    }
    return Ok(amap);
  }

  // ---------------------------------------------------------------------------------------------
  // Many replies, in any order

  /** The updates of a reply that is accepted. */
  function UpdatesOf(parts: seq<Part>, node: Node): seq<Update>
    requires Paired(parts)
    decreases |parts|
  {
    if parts == [] then []
    else [Update(parts[0].text, parts[1].decoded.value, node)] + UpdatesOf(parts[2..], node)
  }

  /** Bitmaps have a bit for each partition. */
  predicate AllFull(us: seq<Update>)
  {
    forall k :: 0 <= k < |us| ==> |us[k].bitmap| == PARTITIONS / 8
  }

  function Fold(m: PartitionMap, us: seq<Update>): (r: PartitionMap)
    requires WellFormed(m) && AllFull(us)
    ensures WellFormed(r)
    decreases |us|
  {
    if us == [] then m else Updated(Fold(m, us[..|us| - 1]), us[|us| - 1])
  }

  lemma {:induction false} FoldFront(m: PartitionMap, us: seq<Update>)
    requires us != [] && WellFormed(m) && AllFull(us)
    ensures WellFormed(Updated(m, us[0])) && Fold(m, us) == Fold(Updated(m, us[0]), us[1..])
  {
    hide Entries;
    var n := |us| - 1;
    if n > 0 {
      FoldFront(m, us[..n]);
      assert us[..n][1..] == us[1..][..n - 1] && us[1..][n - 1] == us[n];
    }
  }

  /**
   A reply with a bitmap for every partition is folded in, or it is an error: exactly if its parts do
   not pair up, or a bitmap does not decode.
   */
  lemma {:induction false} ReplyIsFolded(m: PartitionMap, parts: seq<Part>, node: Node)
    requires WellFormed(m)
    requires forall k :: 0 <= k < |parts| && parts[k].decoded.Some? ==> |parts[k].decoded.value| == PARTITIONS / 8
    ensures Tokens(m, parts, node).Err? <==> !Paired(parts)
    ensures !Tokens(m, parts, node).Err? ==>
      var us := UpdatesOf(parts, node);
      AllFull(us) && Tokens(m, parts, node) == Ok(Fold(m, us))
    decreases |parts|
  {
    hide Entries;
    if |parts| >= 2 && parts[1].decoded.Some? {
      var u := Update(parts[0].text, parts[1].decoded.value, node);
      ReplyIsFolded(Updated(m, u), parts[2..], node);
      PairedTail(parts);
      if !Tokens(m, parts, node).Err? {
        var us := UpdatesOf(parts, node);
        assert us[1..] == UpdatesOf(parts[2..], node);
        FoldFront(m, us);
      }
    }
  }

  lemma PairedTail(parts: seq<Part>)
    requires |parts| >= 2 && parts[1].decoded.Some?
    ensures Paired(parts) <==> Paired(parts[2..])
  {
    if Paired(parts[2..]) {
      forall k | 0 <= k < |parts| && k % 2 == 1 ensures parts[k].decoded.Some? {
        assert k >= 2 ==> parts[k] == parts[2..][k - 2];
      }
    }
  }

  /** The last update of the namespace whose bitmap sets bit `i`, or the first update of the namespace. */
  function OwnerBy(us: seq<Update>, namespace: string, i: nat): Option<Node>
    requires i < PARTITIONS && AllFull(us)
  {
    if SetBy(us, namespace, i).Some? then SetBy(us, namespace, i) else FirstOf(us, namespace)
  }

  function SetBy(us: seq<Update>, namespace: string, i: nat): Option<Node>
    requires i < PARTITIONS && AllFull(us)
  {
    if us == [] then None
    else
      var u := us[|us| - 1];
      if u.namespace == namespace && Sets(u.bitmap, i) then Some(u.node) else SetBy(us[..|us| - 1], namespace, i)
  }

  function FirstOf(us: seq<Update>, namespace: string): Option<Node>
  {
    if us == [] then None
    else if FirstOf(us[..|us| - 1], namespace).Some? then FirstOf(us[..|us| - 1], namespace)
    else if us[|us| - 1].namespace == namespace then Some(us[|us| - 1].node)
    else None
  }

  /** An update that sets a bit is an update of the namespace. */
  lemma {:induction false} SetterIsUpdate(us: seq<Update>, namespace: string, i: nat)
    requires i < PARTITIONS && AllFull(us)
    ensures SetBy(us, namespace, i).Some? ==> FirstOf(us, namespace).Some?
  {
    hide Sets;
    if us != [] {
      SetterIsUpdate(us[..|us| - 1], namespace, i);
    }
  }

  /**
   After any sequence of updates, partition `i` of a namespace is owned by the last node whose bitmap
   set bit `i`, or by the first node that mentioned the namespace.
   */
  lemma {:induction false} LastSetterOwns(us: seq<Update>, namespace: string, i: nat)
    requires i < PARTITIONS && AllFull(us)
    ensures namespace in Fold(map[], us) <==> OwnerBy(us, namespace, i).Some?
    ensures namespace in Fold(map[], us) ==> Fold(map[], us)[namespace][i] == OwnerBy(us, namespace, i).value
  {
    hide Sets;
    if us != [] {
      LastSetterOwns(us[..|us| - 1], namespace, i);
      SetterIsUpdate(us[..|us| - 1], namespace, i);
    }
  }

  /** Update `k` is one of the namespace and the bit of partition `i`, from the top of its byte, is set in it. */
  predicate Claims(us: seq<Update>, k: int, namespace: string, i: nat)
    requires i < 4096 && AllFull(us) && 0 <= k < |us|
  {
    us[k].namespace == namespace && (us[k].bitmap[i / 8] / [128, 64, 32, 16, 8, 4, 2, 1][i % 8]) % 2 == 1
  }

  predicate LastClaim(us: seq<Update>, k: int, namespace: string, i: nat)
    requires i < 4096 && AllFull(us) && 0 <= k < |us|
  {
    Claims(us, k, namespace, i) && forall j :: k < j < |us| ==> !Claims(us, j, namespace, i)
  }

  predicate Unclaimed(us: seq<Update>, namespace: string, i: nat)
    requires i < 4096 && AllFull(us)
  {
    forall j :: 0 <= j < |us| ==> !Claims(us, j, namespace, i)
  }

  predicate FirstNamed(us: seq<Update>, k: int, namespace: string)
    requires 0 <= k < |us|
  {
    us[k].namespace == namespace && forall j :: 0 <= j < k ==> us[j].namespace != namespace
  }

  /**
   The same in terms of the updates alone: the entry is the node of the last update that claims the partition, or,
   if none does, of the first update of the namespace; and only namespaces with an update are in the map.
   */
  lemma {:induction false} LastClaimOwns(us: seq<Update>, namespace: string, i: nat)
    requires i < 4096 && AllFull(us)
    ensures var m := Fold(map[], us);
      && (namespace in m <==> exists k :: 0 <= k < |us| && us[k].namespace == namespace)
      && (forall k :: 0 <= k < |us| && LastClaim(us, k, namespace, i) ==> m[namespace][i] == us[k].node)
      && (forall k :: 0 <= k < |us| && FirstNamed(us, k, namespace) && Unclaimed(us, namespace, i)
            ==> m[namespace][i] == us[k].node)
  {
    hide Sets, Claims, Fold, LastClaim, FirstNamed, Unclaimed;
    assert Fold(map[], []) == map[] by {
      EmptyFold();
    }
    if us != [] {
      var n := |us| - 1;
      var front := us[..n];
      LastClaimOwns(front, namespace, i);
      FoldStep(us, namespace, i);
      var m := Fold(map[], us);
      assert namespace in m <==> exists k :: 0 <= k < |us| && us[k].namespace == namespace by {
        forall k | 0 <= k < n ensures front[k] == us[k] {
        }
      }
      assert namespace in m ==> |m[namespace]| == 4096;
      forall k | 0 <= k < |us| ensures LastClaim(us, k, namespace, i) || FirstNamed(us, k, namespace) ==> namespace in m {
        Mentions(us, k, namespace, i);
      }
      forall k | 0 <= k < |us| && LastClaim(us, k, namespace, i) ensures m[namespace][i] == us[k].node {
        LastInFront(us, k, namespace, i);
      }
      forall k | 0 <= k < |us| && FirstNamed(us, k, namespace) && Unclaimed(us, namespace, i)
        ensures m[namespace][i] == us[k].node
      {
        FirstInFront(us, k, namespace, i);
      }
    }
  }

  lemma Mentions(us: seq<Update>, k: nat, namespace: string, i: nat)
    requires i < 4096 && AllFull(us) && k < |us|
    ensures LastClaim(us, k, namespace, i) || FirstNamed(us, k, namespace) ==> us[k].namespace == namespace
  {
  }

  lemma LastInFront(us: seq<Update>, k: nat, namespace: string, i: nat)
    requires i < 4096 && AllFull(us) && k < |us| && LastClaim(us, k, namespace, i)
    ensures var n := |us| - 1;
      if k == n then Claims(us, n, namespace, i)
      else !Claims(us, n, namespace, i) && us[..n][k] == us[k] && us[k].namespace == namespace
           && LastClaim(us[..n], k, namespace, i)
  {
    hide Claims;
    SameClaims(us, namespace, i);
    assert Claims(us, k, namespace, i) ==> us[k].namespace == namespace by {
      ClaimsOfNamespace(us, k, namespace, i);
    }
  }

  lemma SameClaims(us: seq<Update>, namespace: string, i: nat)
    requires i < 4096 && AllFull(us) && us != []
    ensures var n := |us| - 1;
      forall k :: 0 <= k < n ==> us[..n][k] == us[k] && (Claims(us[..n], k, namespace, i) <==> Claims(us, k, namespace, i))
  {
    hide Sets;
    var n := |us| - 1;
    forall k | 0 <= k < n
      ensures us[..n][k] == us[k] && (Claims(us[..n], k, namespace, i) <==> Claims(us, k, namespace, i))
    {
      SameClaim(us[..n], us, k, namespace, i);
    }
  }

  lemma SameClaim(us: seq<Update>, vs: seq<Update>, k: nat, namespace: string, i: nat)
    requires i < 4096 && AllFull(us) && AllFull(vs) && k < |us| && k < |vs| && us[k] == vs[k]
    ensures Claims(us, k, namespace, i) <==> Claims(vs, k, namespace, i)
  {
  }

  lemma FirstInFront(us: seq<Update>, k: nat, namespace: string, i: nat)
    requires i < 4096 && AllFull(us) && k < |us| && FirstNamed(us, k, namespace) && Unclaimed(us, namespace, i)
    ensures var n := |us| - 1;
      && !Claims(us, n, namespace, i) && Unclaimed(us[..n], namespace, i)
      && if k == n then us[n].namespace == namespace && forall j :: 0 <= j < n ==> us[..n][j].namespace != namespace
         else us[..n][k] == us[k] && FirstNamed(us[..n], k, namespace) && us[..n][k].namespace == namespace
  {
    hide Claims;
    SameClaims(us, namespace, i);
  }

  lemma EmptyFold()
    ensures Fold(map[], []) == map[]
  {
  }

  /** What the last update does to one entry. */
  lemma FoldStep(us: seq<Update>, namespace: string, i: nat)
    requires i < 4096 && AllFull(us) && us != []
    ensures var n := |us| - 1; var m, was := Fold(map[], us), Fold(map[], us[..n]);
      && (namespace in m <==> namespace in was || us[n].namespace == namespace)
      && (Claims(us, n, namespace, i) ==> us[n].namespace == namespace && m[namespace][i] == us[n].node)
      && (!Claims(us, n, namespace, i) && namespace in was ==> m[namespace][i] == was[namespace][i])
      && (us[n].namespace == namespace && namespace !in was ==> m[namespace][i] == us[n].node)
  {
    hide Claims, Sets, Updated;
    var u, was := us[|us| - 1], Fold(map[], us[..|us| - 1]);
    ClaimsOfNamespace(us, |us| - 1, namespace, i);
    UpdatedEntry(was, u, namespace, i);
  }

  lemma ClaimsOfNamespace(us: seq<Update>, k: nat, namespace: string, i: nat)
    requires i < 4096 && AllFull(us) && k < |us|
    ensures Claims(us, k, namespace, i) <==> us[k].namespace == namespace && Sets(us[k].bitmap, i)
  {
  }

  lemma UpdatedEntry(m: PartitionMap, u: Update, namespace: string, i: nat)
    requires i < 4096 && WellFormed(m) && |u.bitmap| == 512
    ensures var r := Updated(m, u);
      && (namespace in r <==> namespace in m || u.namespace == namespace)
      && (namespace in r ==> |r[namespace]| == 4096)
      && (namespace in m ==>
            r[namespace][i] == if u.namespace == namespace && Sets(u.bitmap, i) then u.node else m[namespace][i])
      && (namespace !in m && u.namespace == namespace ==> r[namespace][i] == u.node)
  {
    hide Sets;
  }

  // ---------------------------------------------------------------------------------------------
  // The truth

  /** Nodes only set the bits of partitions that are theirs. */
  ghost predicate Truthful(us: seq<Update>, namespace: string, truth: seq<Node>)
    requires |truth| == PARTITIONS && AllFull(us)
  {
    forall k, i :: 0 <= k < |us| && us[k].namespace == namespace && 0 <= i < PARTITIONS && Sets(us[k].bitmap, i)
      ==> truth[i] == us[k].node
  }

  ghost predicate Claimed(us: seq<Update>, namespace: string, i: nat)
    requires i < PARTITIONS && AllFull(us)
  {
    exists k :: 0 <= k < |us| && us[k].namespace == namespace && Sets(us[k].bitmap, i)
  }

  lemma {:induction false} SetByClaimed(us: seq<Update>, namespace: string, i: nat)
    requires i < PARTITIONS && AllFull(us)
    ensures SetBy(us, namespace, i).Some? <==> Claimed(us, namespace, i)
    ensures SetBy(us, namespace, i).Some? ==>
      exists k :: 0 <= k < |us| && us[k].namespace == namespace && Sets(us[k].bitmap, i)
                  && us[k].node == SetBy(us, namespace, i).value
  {
    hide Sets;
    if us != [] {
      var front, u := us[..|us| - 1], us[|us| - 1];
      SetByClaimed(front, namespace, i);
      if u.namespace == namespace && Sets(u.bitmap, i) {
        assert us[|us| - 1].namespace == namespace;
      } else if Claimed(us, namespace, i) {
        var k :| 0 <= k < |us| && us[k].namespace == namespace && Sets(us[k].bitmap, i);
        assert front[k] == us[k];
      }
    }
  }

  /**
   If nodes claim only what is theirs, then whatever the order of their replies, the map has the true owner
   of a partition exactly if some reply claimed it, or its owner happened to reply first.  So bitmaps
   that cover all partitions give all the true owners.
   */
  lemma TrueOwners(us: seq<Update>, namespace: string, truth: seq<Node>, i: nat)
    requires i < PARTITIONS == |truth| && AllFull(us)
    requires Truthful(us, namespace, truth) && namespace in Fold(map[], us)
    ensures Fold(map[], us)[namespace][i] == truth[i]
       <==> Claimed(us, namespace, i) || FirstOf(us, namespace) == Some(truth[i])
  {
    hide Sets, Fold, SetBy, FirstOf;
    LastSetterOwns(us, namespace, i);
    SetByClaimed(us, namespace, i);
  }

  // ---------------------------------------------------------------------------------------------
  // Readers of the map

  /** node_partitions */
  function PartitionsOf(entries: seq<Node>, node: Node): (s: seq<nat>)
    ensures forall j :: 0 <= j < |s| ==> s[j] < |entries|
  {
    if entries == [] then []
    else PartitionsOf(entries[..|entries| - 1], node)
         + if entries[|entries| - 1] == node then [|entries| - 1] else []
  }

  method NodePartitions(m: PartitionMap, node: Node, namespace: string) returns (res: seq<nat>)
    ensures res == if namespace in m then PartitionsOf(m[namespace], node) else []
  {
    res := [];
    if namespace in m {
      var entries := m[namespace];
      for i := 0 to |entries|
        invariant res == PartitionsOf(entries[..i], node)
      {
        assert entries[..i + 1][..i] == entries[..i];
        if node == entries[i] {
          res := res + [i];
        }
      }
      assert entries[..|entries|] == entries;
    }
  }

  predicate Increasing(s: seq<nat>)
  {
    forall j, k :: 0 <= j < k < |s| ==> s[j] < s[k]
  }

  lemma {:induction false} ListIsIncreasing(entries: seq<Node>, node: Node)
    ensures Increasing(PartitionsOf(entries, node))
  {
    if entries != [] {
      ListIsIncreasing(entries[..|entries| - 1], node);
    }
  }

  /** It holds exactly the partitions of the node. */
  lemma {:induction false} ListCounts(entries: seq<Node>, node: Node, i: nat)
    ensures multiset(PartitionsOf(entries, node))[i] == if i < |entries| && entries[i] == node then 1 else 0
  {
    if entries != [] {
      ListCounts(entries[..|entries| - 1], node, i);
    }
  }

  /** The lists that the nodes of a scan get, one after the other. */
  function Assigned(entries: seq<Node>, nodes: seq<Node>): seq<nat>
  {
    if nodes == [] then [] else PartitionsOf(entries, nodes[0]) + Assigned(entries, nodes[1..])
  }

  lemma {:induction false} AssignedCounts(entries: seq<Node>, nodes: seq<Node>, i: nat)
    requires i < |entries| && forall j, k :: 0 <= j < k < |nodes| ==> nodes[j] != nodes[k]
    ensures multiset(Assigned(entries, nodes))[i] == if entries[i] in nodes then 1 else 0
  {
    hide PartitionsOf;
    if nodes != [] {
      ListCounts(entries, nodes[0], i);
      AssignedCounts(entries, nodes[1..], i);
      assert nodes == [nodes[0]] + nodes[1..];
    }
  }

  /** A scan of distinct nodes reads each partition at most once, and exactly once if its owner is among them. */
  lemma ScanCovers(entries: seq<Node>, nodes: seq<Node>)
    requires forall j, k :: 0 <= j < k < |nodes| ==> nodes[j] != nodes[k]
    ensures (forall i: nat :: i < |entries| ==> multiset(Assigned(entries, nodes))[i] == 1)
       <==> (forall i: nat :: i < |entries| ==> entries[i] in nodes)
    ensures forall i: nat :: i < |entries| ==> multiset(Assigned(entries, nodes))[i] <= 1
  {
    hide Assigned;
    var counts := multiset(Assigned(entries, nodes));
    forall i: nat | i < |entries| ensures counts[i] <= 1 && (counts[i] == 1 <==> entries[i] in nodes) {
      AssignedCounts(entries, nodes, i);
    }
    if forall i: nat :: i < |entries| ==> counts[i] == 1 {
      forall i: nat | i < |entries| ensures entries[i] in nodes {
        assert counts[i] == 1;
      }
    }
    if forall i: nat :: i < |entries| ==> entries[i] in nodes {
      forall i: nat | i < |entries| ensures counts[i] == 1 {
        assert entries[i] in nodes;
      }
    }
  }
}
