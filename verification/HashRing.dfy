/** The consistent-hash ring. The hash is any function: nothing here depends on which, nor on the absence
    of collisions. */
module HashRing {
  import opened Model
  import opened Decimal

  type Hash = string -> nat

  const REPLICAS := 32

  // ---------------------------------------------------------------------------------------------
  // Successors on the ring
  // ---------------------------------------------------------------------------------------------

  /** `p` is the first point at or after `h`, going around past the largest point. */
  ghost predicate IsSuccessor(points: set<nat>, h: nat, p: nat) {
    && p in points
    && if p >= h then forall q :: q in points && q >= h ==> p <= q
       else forall q :: q in points ==> q < h && p <= q
  }

  ghost function Successor(points: set<nat>, h: nat): (p: nat)
    requires points != {}
    ensures IsSuccessor(points, h, p)
  {
    var ahead := set q | q in points && q >= h;
    assert forall q :: q in points && q >= h ==> q in ahead;
    if ahead != {} then Least(ahead) else Least(points)
  }

  /** Removing other points never changes a point's being the successor. */
  lemma SuccessorInSubset(points: set<nat>, fewer: set<nat>, h: nat)
    requires fewer <= points && points != {} && Successor(points, h) in fewer
    ensures Successor(fewer, h) == Successor(points, h)
  {
  }

  // ---------------------------------------------------------------------------------------------
  // The ring object
  // ---------------------------------------------------------------------------------------------

  /** The points a key's first `n` replicas hash to. */
  function Points(hash: Hash, n: nat, key: string): set<nat> {
    if n == 0 then {} else Points(hash, n - 1, key) + {hash(Itoa(n - 1) + key)}
  }

  /** Adding a key claims all its points, those of earlier keys included. */
  function AddKey(hash: Hash, replicas: nat, ring: map<nat, string>, key: string): map<nat, string> {
    ring + map p | p in Points(hash, replicas, key) :: key
  }

  function AddKeys(hash: Hash, replicas: nat, ring: map<nat, string>, keys: seq<string>): map<nat, string> {
    if |keys| == 0 then ring
    else AddKey(hash, replicas, AddKeys(hash, replicas, ring, keys[..|keys| - 1]), keys[|keys| - 1])
  }

  ghost function Lookup(ring: map<nat, string>, h: nat): string {
    if ring == map[] then "" else ring[Successor(ring.Keys, h)]
  }

  predicate Sorted(s: seq<nat>) {
    forall i, j :: 0 <= i < j < |s| ==> s[i] <= s[j]
  }

  function Elements(s: seq<nat>): set<nat> {
    set x | x in s
  }

  lemma InsertSorted(r: seq<nat>, k: nat, x: nat)
    requires Sorted(r) && k <= |r|
    requires (forall j :: 0 <= j < k ==> r[j] < x) && (k < |r| ==> x <= r[k])
    ensures Sorted(r[..k] + [x] + r[k..])
    ensures multiset(r[..k] + [x] + r[k..]) == multiset(r) + multiset{x}
  {
    assert r == r[..k] + r[k..];
  }

  /** Sorting by insertion. */
  method Sort(s: seq<nat>) returns (r: seq<nat>)
    ensures Sorted(r) && multiset(r) == multiset(s)
  {
    r := [];
    for i := 0 to |s|
      invariant Sorted(r) && multiset(r) == multiset(s[..i])
    {
      hide Sorted;
      var k := 0;
      while k < |r| && r[k] < s[i]
        invariant k <= |r|
        invariant forall j :: 0 <= j < k ==> r[j] < s[i]
      {
        k := k + 1;
      }
      assert s[..i + 1] == s[..i] + [s[i]];
      InsertSorted(r, k, s[i]);
      r := r[..k] + [s[i]] + r[k..];
    }
    assert s[..|s|] == s;
  }

  lemma SameMultisetSameElements(a: seq<nat>, b: seq<nat>)
    requires multiset(a) == multiset(b)
    ensures Elements(a) == Elements(b)
  {
    forall x ensures x in a <==> x in b {
      assert x in multiset(a) <==> x in multiset(b);
    }
  }

  lemma AddOneReplica(hash: Hash, i: nat, ring: map<nat, string>, key: string)
    ensures AddKey(hash, i + 1, ring, key) == AddKey(hash, i, ring, key)[hash(Itoa(i) + key) := key]
  {
  }

  lemma ElementsSnoc(s: seq<nat>, x: nat)
    ensures Elements(s + [x]) == Elements(s) + {x}
  {
  }

  lemma SuccessorIsUnique(points: set<nat>, h: nat, p: nat)
    requires IsSuccessor(points, h, p)
    ensures points != {} && p == Successor(points, h)
  {
  }

  /** Where a sorted list passes from below `h` to at or above it, there or at its start is the successor. */
  lemma SplitIsSuccessor(keys: seq<nat>, h: nat, split: nat)
    requires |keys| > 0 && Sorted(keys) && split <= |keys|
    requires forall j :: 0 <= j < split ==> keys[j] < h
    requires forall j :: split <= j < |keys| ==> keys[j] >= h
    ensures Elements(keys) != {} && keys[split % |keys|] == Successor(Elements(keys), h)
  {
    var k := if split == |keys| then 0 else split;
    assert split % |keys| == k;
    assert keys[k] in Elements(keys);
    forall q | q in Elements(keys) ensures q >= h || k == 0 ==> keys[k] <= q {
      var j :| 0 <= j < |keys| && keys[j] == q;
    }
    SuccessorIsUnique(Elements(keys), h, keys[k]);
  }

  class ConsistentHash {
    const hash: Hash
    const replicas: nat
    var keys: seq<nat>
    var hashMap: map<nat, string>

    ghost predicate Valid()
      reads this
    {
      Sorted(keys) && Elements(keys) == hashMap.Keys
    }

    constructor (replicas: nat, hash: Hash)
      ensures Valid() && hashMap == map[] && this.hash == hash && this.replicas == replicas
    {
      this.replicas := replicas;
      this.hash := hash;
      keys := [];
      hashMap := map[];
    }

    /** The inner loop of `Add`: claims the points of one key, leaving `keys` unsorted. */
    method AddReplicas(key: string)
      requires Elements(keys) == hashMap.Keys
      modifies this
      ensures Elements(keys) == hashMap.Keys && hashMap == AddKey(hash, replicas, old(hashMap), key)
    {
      for i := 0 to replicas
        invariant Elements(keys) == hashMap.Keys
        invariant hashMap == AddKey(hash, i, old(hashMap), key)
      {
        var h := hash(Itoa(i) + key);
        AddOneReplica(hash, i, old(hashMap), key);
        ElementsSnoc(keys, h);
        keys := keys + [h];
        hashMap := hashMap[h := key];
      }
    }

    method Add(newKeys: seq<string>)
      requires Valid()
      modifies this
      ensures Valid() && hashMap == AddKeys(hash, replicas, old(hashMap), newKeys)
    {
      for k := 0 to |newKeys|
        invariant Elements(keys) == hashMap.Keys
        invariant hashMap == AddKeys(hash, replicas, old(hashMap), newKeys[..k])
      {
        AddReplicas(newKeys[k]);
        assert newKeys[..k + 1][..k] == newKeys[..k];
      }
      assert newKeys[..|newKeys|] == newKeys;
      var sorted := Sort(keys);
      SameMultisetSameElements(keys, sorted);
      keys := sorted;
    }

    /** Binary search for the first key at or after the hash, wrapping to the first key of all. */
    method Get(key: string) returns (owner: string)
      requires Valid()
      ensures owner == Lookup(hashMap, hash(key))
    {
      if |keys| == 0 {
        assert hashMap.Keys == {};
        return "";
      }
      var h := hash(key);
      var lo, hi := 0, |keys|;
      while lo < hi
        invariant 0 <= lo <= hi <= |keys|
        invariant forall j :: 0 <= j < lo ==> keys[j] < h
        invariant forall j :: hi <= j < |keys| ==> keys[j] >= h
      {
        var mid := (lo + hi) / 2;
        if keys[mid] < h { lo := mid + 1; } else { hi := mid; }
      }
      SplitIsSuccessor(keys, h, lo);
      owner := hashMap[keys[lo % |keys|]];
    }
  }

  // ---------------------------------------------------------------------------------------------
  // Where a shard belongs
  // ---------------------------------------------------------------------------------------------

  /** Who owns each point once the nodes have been added in this order. */
  function RingOf(hash: Hash, nodes: seq<int>): map<nat, int> {
    if |nodes| == 0 then map[]
    else
      var last := nodes[|nodes| - 1];
      RingOf(hash, nodes[..|nodes| - 1]) + map p | p in Points(hash, REPLICAS, Itoa(last)) :: last
  }

  /** One of the node's 32 replicas, a replica number and the node's number written together, hashes to the point. */
  ghost predicate HasPoint(hash: Hash, node: int, p: nat) {
    exists i: nat :: i < 32 && p == hash(Itoa(i) + Itoa(node))
  }

  lemma {:induction false} PointsAre(hash: Hash, n: nat, key: string)
    ensures forall p: nat :: p in Points(hash, n, key) <==> exists i: nat :: i < n && p == hash(Itoa(i) + key)
  {
    if n > 0 {
      PointsAre(hash, n - 1, key);
    }
  }

  ghost predicate LastWithPoint(hash: Hash, nodes: seq<int>, k: nat, p: nat) {
    k < |nodes| && HasPoint(hash, nodes[k], p) && forall j :: k < j < |nodes| ==> !HasPoint(hash, nodes[j], p)
  }

  lemma RingStep(hash: Hash, front: seq<int>, last: int, p: nat)
    ensures var ring := RingOf(hash, front + [last]);
            && (p in ring <==> p in RingOf(hash, front) || HasPoint(hash, last, p))
            && (p in ring ==> ring[p] == if HasPoint(hash, last, p) then last else RingOf(hash, front)[p])
  {
    assert (front + [last])[..|front|] == front;
    PointsAre(hash, REPLICAS, Itoa(last));
    assert p in Points(hash, REPLICAS, Itoa(last)) <==> HasPoint(hash, last, p);
    hide HasPoint, Points;
  }

  lemma WithoutItsPoint(hash: Hash, front: seq<int>, last: int, k: nat, p: nat)
    requires !HasPoint(hash, last, p)
    ensures LastWithPoint(hash, front + [last], k, p) <==> LastWithPoint(hash, front, k, p)
  {
    hide HasPoint;
    var nodes := front + [last];
    if LastWithPoint(hash, nodes, k, p) {
      forall j | k < j < |front| ensures !HasPoint(hash, front[j], p) {
        assert nodes[j] == front[j];
      }
    }
  }

  /** A ring has the points of its nodes' replicas and no others, and a point belongs to the last node that has it. */
  lemma {:induction false} RingPoints(hash: Hash, nodes: seq<int>, p: nat)
    ensures p in RingOf(hash, nodes) <==> exists k: nat :: LastWithPoint(hash, nodes, k, p)
    ensures forall k: nat :: LastWithPoint(hash, nodes, k, p) ==> RingOf(hash, nodes)[p] == nodes[k]
  {
    if |nodes| > 0 {
      var front, last := nodes[..|nodes| - 1], nodes[|nodes| - 1];
      RingPoints(hash, front, p);
      RingStep(hash, front, last, p);
      assert nodes == front + [last];
      hide HasPoint, RingOf;
      if HasPoint(hash, last, p) {
        assert LastWithPoint(hash, nodes, |front|, p);
      } else {
        forall k: nat ensures LastWithPoint(hash, nodes, k, p) <==> LastWithPoint(hash, front, k, p) {
          WithoutItsPoint(hash, front, last, k, p);
        }
        hide LastWithPoint;
      }
    }
  }

  lemma PointsNonEmpty(hash: Hash, key: string)
    ensures hash(Itoa(REPLICAS - 1) + key) in Points(hash, REPLICAS, key)
  {
  }

  lemma RingNonEmpty(hash: Hash, nodes: seq<int>)
    requires |nodes| > 0
    ensures RingOf(hash, nodes).Keys != {}
  {
    PointsNonEmpty(hash, Itoa(nodes[|nodes| - 1]));
    assert hash(Itoa(REPLICAS - 1) + Itoa(nodes[|nodes| - 1])) in RingOf(hash, nodes);
  }

  /** The node whose point follows the shard's hash. */
  ghost function Target(hash: Hash, nodes: seq<int>, shardId: int): int
    requires |nodes| > 0
  {
    RingNonEmpty(hash, nodes);
    RingOf(hash, nodes)[Successor(RingOf(hash, nodes).Keys, hash(Itoa(shardId)))]
  }

  lemma {:induction false} OwnersAreNodes(hash: Hash, nodes: seq<int>)
    ensures forall p :: p in RingOf(hash, nodes) ==> RingOf(hash, nodes)[p] in nodes
  {
    if |nodes| > 0 {
      OwnersAreNodes(hash, nodes[..|nodes| - 1]);
    }
  }

  lemma TargetIsANode(hash: Hash, nodes: seq<int>, shardId: int)
    requires |nodes| > 0
    ensures Target(hash, nodes, shardId) in nodes
  {
    OwnersAreNodes(hash, nodes);
  }

  predicate Positive(nodes: seq<int>) {
    forall i :: 0 <= i < |nodes| ==> nodes[i] > 0
  }

  function Without(nodes: seq<int>, node: int): (kept: seq<int>)
    ensures Positive(nodes) ==> Positive(kept)
  {
    if |nodes| == 0 then []
    else
      var front := Without(nodes[..|nodes| - 1], node);
      if nodes[|nodes| - 1] == node then front else front + [nodes[|nodes| - 1]]
  }

  lemma {:induction false} WithoutMembers(nodes: seq<int>, node: int)
    ensures forall other :: other in Without(nodes, node) <==> other in nodes && other != node
  {
    if |nodes| > 0 {
      WithoutMembers(nodes[..|nodes| - 1], node);
      assert nodes == nodes[..|nodes| - 1] + [nodes[|nodes| - 1]];
    }
  }

  /** Dropping a node frees only points, and only points that were its own change hands. */
  lemma {:induction false} RingWithout(hash: Hash, nodes: seq<int>, node: int)
    ensures RingOf(hash, Without(nodes, node)).Keys <= RingOf(hash, nodes).Keys
    ensures forall p :: p in RingOf(hash, nodes) && RingOf(hash, nodes)[p] != node ==>
                          p in RingOf(hash, Without(nodes, node))
                          && RingOf(hash, Without(nodes, node))[p] == RingOf(hash, nodes)[p]
  {
    if |nodes| > 0 {
      var last := nodes[|nodes| - 1];
      var rest := Without(nodes[..|nodes| - 1], node);
      RingWithout(hash, nodes[..|nodes| - 1], node);
      if last != node {
        assert (rest + [last])[..|rest + [last]| - 1] == rest;
      }
    }
  }

  /** Minimal movement. Dropping a node moves exactly the shards that were its own; read from right to left,
      adding a node moves shards only to it. Collisions between nodes' points do not matter. */
  lemma MinimalMovement(hash: Hash, nodes: seq<int>, node: int, shardId: int)
    requires |nodes| > 0 && |Without(nodes, node)| > 0
    ensures Target(hash, Without(nodes, node), shardId) == Target(hash, nodes, shardId) <==>
            Target(hash, nodes, shardId) != node
  {
    var all := RingOf(hash, nodes);
    var fewer := RingOf(hash, Without(nodes, node));
    RingNonEmpty(hash, nodes);
    RingNonEmpty(hash, Without(nodes, node));
    RingWithout(hash, nodes, node);
    WithoutMembers(nodes, node);
    TargetIsANode(hash, Without(nodes, node), shardId);
    if Target(hash, nodes, shardId) != node {
      SuccessorInSubset(all.Keys, fewer.Keys, hash(Itoa(shardId)));
    }
  }

  // ---------------------------------------------------------------------------------------------
  // The two routines that consult a ring
  // ---------------------------------------------------------------------------------------------

  /** The text on the ring is the node's number. */
  ghost predicate Spells(texts: map<nat, string>, ring: map<nat, int>) {
    texts.Keys == ring.Keys && forall p :: p in ring ==> texts[p] == Itoa(ring[p])
  }

  lemma SpellsStep(hash: Hash, texts: map<nat, string>, nodes: seq<int>, node: int)
    requires Spells(texts, RingOf(hash, nodes))
    ensures Spells(AddKeys(hash, REPLICAS, texts, [Itoa(node)]), RingOf(hash, nodes + [node]))
  {
    assert (nodes + [node])[..|nodes|] == nodes;
    assert [Itoa(node)][..0] == [];
    assert AddKeys(hash, REPLICAS, texts, [Itoa(node)]) == AddKey(hash, REPLICAS, texts, Itoa(node));
  }

  lemma LookupSpells(hash: Hash, texts: map<nat, string>, nodes: seq<int>, shardId: int)
    requires |nodes| > 0 && Spells(texts, RingOf(hash, nodes))
    ensures Atoi(Lookup(texts, hash(Itoa(shardId)))) == Some(Target(hash, nodes, shardId))
  {
    RingNonEmpty(hash, nodes);
    TargetIsANode(hash, nodes, shardId);
    AtoiInvertsItoa(Target(hash, nodes, shardId));
  }

  method BuildRing(hash: Hash, nodes: seq<int>) returns (ring: ConsistentHash)
    ensures fresh(ring) && ring.Valid() && ring.hash == hash && Spells(ring.hashMap, RingOf(hash, nodes))
  {
    ring := new ConsistentHash(REPLICAS, hash);
    for i := 0 to |nodes|
      invariant fresh(ring) && ring.Valid() && ring.hash == hash && ring.replicas == REPLICAS
      invariant Spells(ring.hashMap, RingOf(hash, nodes[..i]))
    {
      SpellsStep(hash, ring.hashMap, nodes[..i], nodes[i]);
      ring.Add([Itoa(nodes[i])]);
      assert nodes[..i + 1] == nodes[..i] + [nodes[i]];
    }
    assert nodes[..|nodes|] == nodes;
  }

  method TargetNodeID(hash: Hash, nodeIDs: seq<int>, shardID: int) returns (r: Result<int>)
    ensures r.Ok? <==> |nodeIDs| > 0 && shardID >= 0 && Positive(nodeIDs) && Distinct(nodeIDs)
    ensures r.Ok? ==> r.value == Target(hash, nodeIDs, shardID)
  {
    if |nodeIDs| == 0 { return Err(NoNodes); }
    if shardID < 0 { return Err(InvalidShardId); }
    for i := 0 to |nodeIDs|
      invariant Positive(nodeIDs[..i]) && Distinct(nodeIDs[..i])
    {
      if nodeIDs[i] <= 0 { return Err(InvalidNodeId); }
      if nodeIDs[i] in nodeIDs[..i] { return Err(DuplicateNode); }
    }
    assert nodeIDs[..|nodeIDs|] == nodeIDs;
    var ring := BuildRing(hash, nodeIDs);
    LookupSpells(hash, ring.hashMap, nodeIDs, shardID);
    var owner := ring.Get(Itoa(shardID));
    r := Ok(Atoi(owner).value);
  }

  /** As `TargetNodeID`, without its checks on the node list. */
  method ChooseFailoverTarget(hash: Hash, aliveNodes: seq<int>, shardID: int) returns (r: Result<int>)
    ensures r.Ok? <==> |aliveNodes| > 0
    ensures r.Ok? ==> r.value == Target(hash, aliveNodes, shardID)
  {
    if |aliveNodes| == 0 { return Err(NoNodes); }
    var ring := BuildRing(hash, aliveNodes);
    LookupSpells(hash, ring.hashMap, aliveNodes, shardID);
    var owner := ring.Get(Itoa(shardID));
    r := Ok(Atoi(owner).value);
  }
}
