/** The controller's sweep: first assignment, failover of dead owners, one rebalancing move. */
module Controller {
  import opened Model
  import opened HashRing

  datatype Entry = Entry(nodeId: nat, epoch: nat)

  type Table = map<nat, Entry>

  /** An ownership as the store lists it. */
  datatype Row = Row(shardId: nat, nodeId: nat, epoch: nat)

  // ---------------------------------------------------------------------------------------------
  // What the three stages do to a table, shard by shard
  // ---------------------------------------------------------------------------------------------

  ghost function TargetOf(hash: Hash, alive: seq<int>, shardId: nat): nat
    requires |alive| > 0 && Positive(alive)
  {
    TargetIsANode(hash, alive, shardId);
    Target(hash, alive, shardId)
  }

  /** Where every shard belongs while the alive nodes stay as they are. */
  ghost function Targets(hash: Hash, alive: seq<int>): nat -> nat
    requires |alive| > 0 && Positive(alive)
  {
    s => TargetOf(hash, alive, s)
  }

  lemma TargetsAt(hash: Hash, alive: seq<int>, shardId: nat)
    requires |alive| > 0 && Positive(alive)
    ensures Targets(hash, alive)(shardId) == Target(hash, alive, shardId) > 0
  {
    TargetIsANode(hash, alive, shardId);
  }

  function Reassign(t: Table, shardId: nat, nodeId: nat): Table {
    t[shardId := Entry(nodeId, (if shardId in t then t[shardId].epoch else 0) + 1)]
  }

  function Shards(count: nat): (shards: set<nat>)
    ensures forall s :: s in shards <==> 0 <= s < count
  {
    if count == 0 then {} else Shards(count - 1) + {count - 1}
  }

  ghost function Ensured(t: Table, target: nat -> nat, count: nat): Table {
    map s | s in t.Keys + Shards(count) :: if s in t then t[s] else Entry(target(s), 1)
  }

  ghost function FailedOver(t: Table, target: nat -> nat, alive: seq<int>): Table {
    map s | s in t :: if t[s].nodeId in alive then t[s] else Entry(target(s), t[s].epoch + 1)
  }

  ghost function Misplaced(t: Table, target: nat -> nat): set<nat> {
    set s | s in t && t[s].nodeId != target(s)
  }

  ghost function Rebalanced(t: Table, target: nat -> nat): Table {
    if Misplaced(t, target) == {} then t
    else Reassign(t, Least(Misplaced(t, target)), target(Least(Misplaced(t, target))))
  }

  ghost function Swept(t: Table, target: nat -> nat, alive: seq<int>, count: nat): Table {
    Rebalanced(FailedOver(Ensured(t, target, count), target, alive), target)
  }

  /** `t` after the shards of the `dead` nodes have been given to their targets. */
  ghost function MovedFrom(t: Table, target: nat -> nat, dead: set<nat>): Table {
    map s | s in t :: if t[s].nodeId in dead then Entry(target(s), t[s].epoch + 1) else t[s]
  }

  // ---------------------------------------------------------------------------------------------
  // Listings
  // ---------------------------------------------------------------------------------------------

  ghost predicate ValidTable(t: Table) {
    forall s :: s in t ==> t[s].nodeId > 0 && t[s].epoch >= 1
  }

  /** What the membership store returns: positive node ids without repetition. */
  ghost predicate ValidAlive(alive: seq<int>) {
    Positive(alive) && Distinct(alive)
  }

  ghost predicate Ascending(s: seq<nat>) {
    forall i, j :: 0 <= i < j < |s| ==> s[i] < s[j]
  }

  lemma LeastExists(s: set<nat>)
    requires s != {}
    ensures exists x :: x in s && forall y :: y in s ==> x <= y
  {
    assert IsLeast(s, Least(s));
  }

  lemma AscendingOneMore(r: seq<nat>, x: nat)
    requires Ascending(r) && forall y :: y in r ==> y < x
    ensures Ascending(r + [x])
  {
    forall i, j | 0 <= i < j < |r + [x]| ensures (r + [x])[i] < (r + [x])[j] {
      if j == |r| { assert r[i] in r; }
    }
  }

  /** `r` lists the elements of `s` that are below every element of `rest`, which are the others. */
  ghost predicate Splits(s: set<nat>, r: seq<nat>, rest: set<nat>) {
    && Ascending(r)
    && (forall x :: x in s <==> x in r || x in rest)
    && (forall x, y :: x in r && y in rest ==> x < y)
  }

  lemma SplitsOneOn(s: set<nat>, r: seq<nat>, rest: set<nat>, x: nat)
    requires Splits(s, r, rest) && IsLeast(rest, x)
    ensures Splits(s, r + [x], rest - {x})
  {
    AscendingOneMore(r, x);
    hide Ascending;
  }

  method PickLeast(s: set<nat>) returns (x: nat)
    requires s != {}
    ensures x in s && IsLeast(s, x)
  {
    LeastExists(s);
    x :| x in s && forall y :: y in s ==> x <= y;
  }

  lemma SplitsAll(s: set<nat>, r: seq<nat>)
    requires Splits(s, r, {})
    ensures Ascending(r) && (forall x :: x in r <==> x in s)
  {
  }

  method SortedElements(s: set<nat>) returns (r: seq<nat>)
    ensures Ascending(r) && (forall x :: x in r <==> x in s)
  {
    r := [];
    var rest := s;
    assert Splits(s, r, rest);
    hide Splits, IsLeast;
    while rest != {}
      invariant Splits(s, r, rest)
      decreases |rest|
    {
      var x := PickLeast(rest);
      SplitsOneOn(s, r, rest, x);
      r := r + [x];
      rest := rest - {x};
    }
    SplitsAll(s, r);
  }

  /** The rows of the `chosen` shards, in shard order. */
  ghost predicate IsListing(list: seq<Row>, t: Table, chosen: set<nat>)
    requires chosen <= t.Keys
  {
    && (forall i, j :: 0 <= i < j < |list| ==> list[i].shardId < list[j].shardId)
    && (forall i :: 0 <= i < |list| ==>
                      && list[i].shardId in chosen
                      && t[list[i].shardId] == Entry(list[i].nodeId, list[i].epoch))
    && (forall s :: s in chosen ==> Row(s, t[s].nodeId, t[s].epoch) in list)
  }

  function RowsOf(t: Table, nodeId: nat): set<nat> {
    set s | s in t && t[s].nodeId == nodeId
  }

  method ListRows(t: Table, chosen: set<nat>) returns (list: seq<Row>)
    requires chosen <= t.Keys
    ensures IsListing(list, t, chosen)
  {
    var shards := SortedElements(chosen);
    assert forall i :: 0 <= i < |shards| ==> shards[i] in shards;
    list := seq(|shards|, i requires 0 <= i < |shards| => Row(shards[i], t[shards[i]].nodeId, t[shards[i]].epoch));
    forall s | s in chosen ensures Row(s, t[s].nodeId, t[s].epoch) in list {
      var i :| 0 <= i < |shards| && shards[i] == s;
      assert list[i] == Row(s, t[s].nodeId, t[s].epoch);
    }
  }

  method RemoveNodeID(nodes: seq<int>, removed: int) returns (kept: seq<int>)
    ensures kept == Without(nodes, removed)
  {
    kept := [];
    for i := 0 to |nodes|
      invariant kept == Without(nodes[..i], removed)
    {
      assert nodes[..i + 1][..i] == nodes[..i];
      if nodes[i] != removed { kept := kept + [nodes[i]]; }
    }
    assert nodes[..|nodes|] == nodes;
  }

  lemma {:induction false} WithoutAbsent(nodes: seq<int>, node: int)
    requires node !in nodes
    ensures Without(nodes, node) == nodes
  {
    if |nodes| > 0 {
      WithoutAbsent(nodes[..|nodes| - 1], node);
    }
  }

  // ---------------------------------------------------------------------------------------------
  // The store
  // ---------------------------------------------------------------------------------------------

  class Store {
    var entries: Table

    constructor (entries: Table)
      ensures this.entries == entries
    {
      this.entries := entries;
    }

    /** Uncontended: the compare-and-swap succeeds at once. */
    method Assign(shardId: int, nodeId: int) returns (failure: Option<Error>)
      modifies this
      ensures failure.None? <==> shardId >= 0 && nodeId > 0
      ensures entries == if failure.None? then Reassign(old(entries), shardId, nodeId) else old(entries)
    {
      if shardId < 0 { return Some(InvalidShardId); }
      if nodeId <= 0 { return Some(InvalidNodeId); }
      var epoch := 1;
      if shardId in entries { epoch := entries[shardId].epoch + 1; }
      entries := entries[shardId := Entry(nodeId, epoch)];
      return None;
    }

    method AllOwnerships() returns (list: seq<Row>)
      ensures IsListing(list, entries, entries.Keys)
    {
      list := ListRows(entries, entries.Keys);
    }

    method ShardsForNode(nodeId: nat) returns (list: seq<Row>)
      ensures IsListing(list, entries, RowsOf(entries, nodeId))
    {
      list := ListRows(entries, RowsOf(entries, nodeId));
    }
  }

  // ---------------------------------------------------------------------------------------------
  // First assignment
  // ---------------------------------------------------------------------------------------------

  lemma EnsuredStep(t: Table, target: nat -> nat, shardId: nat)
    ensures Ensured(t, target, 0) == t
    ensures Ensured(t, target, shardId + 1) ==
            if shardId in t then Ensured(t, target, shardId)
            else Reassign(Ensured(t, target, shardId), shardId, target(shardId))
  {
  }

  method EnsureInitialOwnership(store: Store, hash: Hash, alive: seq<int>, shardCount: int)
    returns (failure: Option<Error>)
    requires ValidAlive(alive)
    modifies store
    ensures failure.None? <==> shardCount > 0
    ensures failure.None? && |alive| > 0 ==>
              store.entries == Ensured(old(store.entries), Targets(hash, alive), shardCount)
    ensures failure.Some? || |alive| == 0 ==> store.entries == old(store.entries)
  {
    if shardCount <= 0 { return Some(InvalidShardCount); }
    if |alive| == 0 { return None; }
    var owned := store.entries.Keys;
    ghost var before := store.entries;
    ghost var target := Targets(hash, alive);
    EnsuredStep(before, target, 0);
    for shardId := 0 to shardCount
      invariant store.entries == Ensured(before, target, shardId)
      invariant owned == before.Keys
    {
      EnsuredStep(before, target, shardId);
      if shardId in owned { continue; }
      var nodeId := TargetNodeID(hash, alive, shardId);
      TargetIsANode(hash, alive, shardId);
      failure := store.Assign(shardId, nodeId.value);
    }
    return None;
  }

  // ---------------------------------------------------------------------------------------------
  // Failover
  // ---------------------------------------------------------------------------------------------

  predicate AllIn(list: seq<Row>, t: Table) {
    forall i :: 0 <= i < |list| ==> list[i].shardId in t
  }

  /** `t` after the first `n` rows of a node's listing have been moved. */
  ghost function PartlyMoved(t: Table, target: nat -> nat, list: seq<Row>, n: nat): Table
    requires n <= |list|
    requires AllIn(list, t)
  {
    if n == 0 then t
    else Reassign(PartlyMoved(t, target, list, n - 1), list[n - 1].shardId, target(list[n - 1].shardId))
  }

  ghost predicate ListedBefore(list: seq<Row>, n: nat, shardId: nat)
    requires n <= |list|
  {
    exists i :: 0 <= i < n && list[i].shardId == shardId
  }

  lemma {:induction false} PartlyMovedAt(t: Table, target: nat -> nat, list: seq<Row>, n: nat, s: nat)
    requires n <= |list| && AllIn(list, t) && s in t
    requires forall i, j :: 0 <= i < j < |list| ==> list[i].shardId != list[j].shardId
    ensures PartlyMoved(t, target, list, n).Keys == t.Keys
    ensures PartlyMoved(t, target, list, n)[s] ==
            if ListedBefore(list, n, s) then Entry(target(s), t[s].epoch + 1) else t[s]
  {
    if n > 0 {
      PartlyMovedAt(t, target, list, n - 1, s);
      assert list[n - 1].shardId in t;
      assert ListedBefore(list, n, s) <==> ListedBefore(list, n - 1, s) || list[n - 1].shardId == s;
      assert list[n - 1].shardId == s ==> !ListedBefore(list, n - 1, s);
      hide ListedBefore;
    }
  }

  lemma ListedRows(t: Table, nodeId: nat, list: seq<Row>, s: nat)
    requires IsListing(list, t, RowsOf(t, nodeId)) && s in t
    ensures ListedBefore(list, |list|, s) <==> t[s].nodeId == nodeId
  {
    if t[s].nodeId == nodeId {
      var i :| 0 <= i < |list| && list[i] == Row(s, t[s].nodeId, t[s].epoch);
      assert list[i].shardId == s;
    }
  }

  lemma AllMoved(t: Table, target: nat -> nat, nodeId: nat, list: seq<Row>)
    requires IsListing(list, t, RowsOf(t, nodeId))
    ensures PartlyMoved(t, target, list, |list|) == MovedFrom(t, target, {nodeId})
  {
    var moved := PartlyMoved(t, target, list, |list|);
    if |list| > 0 {
      PartlyMovedAt(t, target, list, |list|, list[0].shardId);
    }
    forall s | s in t ensures moved[s] == MovedFrom(t, target, {nodeId})[s] {
      PartlyMovedAt(t, target, list, |list|, s);
      ListedRows(t, nodeId, list, s);
    }
    hide PartlyMoved, IsListing;
  }

  method MoveOne(store: Store, hash: Hash, alive: seq<int>, shardId: nat)
    requires Positive(alive) && |alive| > 0 && Target(hash, alive, shardId) > 0
    modifies store
    ensures store.entries == Reassign(old(store.entries), shardId, Target(hash, alive, shardId))
  {
    var nodeId := ChooseFailoverTarget(hash, alive, shardId);
    var failure := store.Assign(shardId, nodeId.value);
  }

  lemma NextMoved(hash: Hash, alive: seq<int>, t: Table, list: seq<Row>, i: nat)
    requires Positive(alive) && |alive| > 0 && i < |list|
    requires AllIn(list, t)
    ensures Target(hash, alive, list[i].shardId) > 0
    ensures PartlyMoved(t, Targets(hash, alive), list, i + 1) ==
            Reassign(PartlyMoved(t, Targets(hash, alive), list, i),
                     list[i].shardId, Target(hash, alive, list[i].shardId))
  {
    TargetsAt(hash, alive, list[i].shardId);
  }

  /** Assigns every listed shard to its ring target. */
  method MoveListed(store: Store, hash: Hash, alive: seq<int>, list: seq<Row>)
    requires Positive(alive) && |alive| > 0
    requires AllIn(list, store.entries)
    modifies store
    ensures store.entries == PartlyMoved(old(store.entries), Targets(hash, alive), list, |list|)
  {
    ghost var before := store.entries;
    assert PartlyMoved(before, Targets(hash, alive), list, 0) == before;
    hide Targets, Target, Reassign, PartlyMoved, Positive, AllIn;
    for i := 0 to |list|
      invariant store.entries == PartlyMoved(before, Targets(hash, alive), list, i)
    {
      NextMoved(hash, alive, before, list, i);
      MoveOne(store, hash, alive, list[i].shardId);
    }
  }

  method FailoverDeadNode(store: Store, hash: Hash, alive: seq<int>, dead: int) returns (failure: Option<Error>)
    requires ValidAlive(alive)
    modifies store
    ensures failure.None? <==> dead > 0 && (RowsOf(old(store.entries), dead) == {} || |Without(alive, dead)| > 0)
    ensures failure.None? && |Without(alive, dead)| > 0 ==>
              store.entries == MovedFrom(old(store.entries), Targets(hash, Without(alive, dead)), {dead})
    ensures failure.Some? || |Without(alive, dead)| == 0 ==> store.entries == old(store.entries)
  {
    if dead <= 0 { return Some(InvalidNodeId); }
    var list := store.ShardsForNode(dead);
    ghost var before := store.entries;
    if |list| == 0 {
      assert RowsOf(before, dead) == {};
      return None;
    }
    assert list[0].shardId in RowsOf(before, dead);
    var targets := RemoveNodeID(alive, dead);
    if |targets| == 0 { return Some(NoNodes); }
    MoveListed(store, hash, targets, list);
    AllMoved(before, Targets(hash, targets), dead, list);
    return None;
  }

  function OwnersIn(list: seq<Row>): set<nat> {
    set i | 0 <= i < |list| :: list[i].nodeId
  }

  function Members(s: seq<nat>): set<nat> {
    set x | x in s
  }

  /** A node moved away from earlier is not given anything back, as it is not alive. */
  lemma MovedFromTwice(t: Table, target: nat -> nat, alive: seq<int>, dead: set<nat>, next: nat)
    requires next !in alive && forall s: nat :: target(s) in alive
    ensures MovedFrom(MovedFrom(t, target, dead), target, {next}) == MovedFrom(t, target, dead + {next})
  {
  }

  lemma MovedFromAllDead(t: Table, target: nat -> nat, alive: seq<int>, dead: set<nat>)
    requires forall s :: s in t ==> (t[s].nodeId in dead <==> t[s].nodeId !in alive)
    ensures MovedFrom(t, target, dead) == FailedOver(t, target, alive)
  {
  }

  lemma TargetsAreAlive(hash: Hash, alive: seq<int>)
    requires |alive| > 0 && Positive(alive)
    ensures forall s: nat :: Targets(hash, alive)(s) in alive
  {
    forall s: nat ensures Targets(hash, alive)(s) in alive {
      TargetIsANode(hash, alive, s);
    }
  }

  lemma ValidAfterMove(t: Table, target: nat -> nat, alive: seq<int>, dead: set<nat>)
    requires ValidTable(t) && Positive(alive) && forall s: nat :: target(s) in alive
    ensures ValidTable(MovedFrom(t, target, dead))
  {
  }

  lemma OwnersAreListed(list: seq<Row>, t: Table)
    requires IsListing(list, t, t.Keys) && ValidTable(t)
    ensures forall s :: s in t ==> t[s].nodeId in OwnersIn(list)
    ensures forall n :: n in OwnersIn(list) ==> n > 0
  {
    forall s | s in t ensures t[s].nodeId in OwnersIn(list) {
      var i :| 0 <= i < |list| && list[i] == Row(s, t[s].nodeId, t[s].epoch);
    }
  }

  /** Moving the next dead node's shards, after those of the nodes before it. */
  lemma MoveNext(t: Table, target: nat -> nat, alive: seq<int>, dead: seq<nat>, i: nat)
    requires ValidTable(t) && Positive(alive) && forall s: nat :: target(s) in alive
    requires i < |dead| && dead[i] !in alive
    ensures MovedFrom(MovedFrom(t, target, Members(dead[..i])), target, {dead[i]}) ==
            MovedFrom(t, target, Members(dead[..i + 1]))
    ensures ValidTable(MovedFrom(t, target, Members(dead[..i + 1])))
  {
    assert Members(dead[..i + 1]) == Members(dead[..i]) + {dead[i]};
    MovedFromTwice(t, target, alive, Members(dead[..i]), dead[i]);
    ValidAfterMove(t, target, alive, Members(dead[..i + 1]));
  }

  lemma MovedFromNone(t: Table, target: nat -> nat, dead: seq<nat>)
    ensures MovedFrom(t, target, Members(dead[..0])) == t
  {
  }

  lemma SomebodyOwns(list: seq<Row>, t: Table, nodeId: nat)
    requires IsListing(list, t, t.Keys) && nodeId in OwnersIn(list)
    ensures RowsOf(t, nodeId) != {}
  {
    var i :| 0 <= i < |list| && list[i].nodeId == nodeId;
    assert list[i].shardId in RowsOf(t, nodeId);
  }

  /** The dead owners' shards move, one owner after the other. */
  method FailoverAll(store: Store, hash: Hash, alive: seq<int>, list: seq<Row>, dead: seq<nat>)
    requires ValidAlive(alive) && |alive| > 0 && ValidTable(store.entries)
    requires IsListing(list, store.entries, store.entries.Keys)
    requires forall n :: n in dead <==> n in OwnersIn(list) && n !in alive
    modifies store
    ensures store.entries == FailedOver(old(store.entries), Targets(hash, alive), alive)
  {
    ghost var before := store.entries;
    ghost var target := Targets(hash, alive);
    OwnersAreListed(list, before);
    TargetsAreAlive(hash, alive);
    MovedFromNone(before, target, dead);
    for i := 0 to |dead|
      invariant ValidTable(store.entries)
      invariant store.entries == MovedFrom(before, target, Members(dead[..i]))
    {
      assert dead[i] in dead;
      WithoutAbsent(alive, dead[i]);
      var failure := FailoverDeadNode(store, hash, alive, dead[i]);
      MoveNext(before, target, alive, dead, i);
    }
    assert dead[..|dead|] == dead;
    MovedFromAllDead(before, target, alive, Members(dead));
  }

  /** The owners that are not alive, in ascending order. */
  method DeadNodes(list: seq<Row>, alive: seq<int>) returns (dead: seq<nat>)
    ensures forall n :: n in dead <==> n in OwnersIn(list) && n !in alive
  {
    var deadSet := set n | n in OwnersIn(list) && n !in alive;
    dead := SortedElements(deadSet);
  }

  /** With nobody alive to take over, the first dead owner is an error. */
  method FailoverMissingOwners(store: Store, hash: Hash, alive: seq<int>) returns (failure: Option<Error>)
    requires ValidAlive(alive) && ValidTable(store.entries)
    modifies store
    ensures failure.None? <==> |alive| > 0 || old(store.entries) == map[]
    ensures |alive| > 0 ==> store.entries == FailedOver(old(store.entries), Targets(hash, alive), alive)
    ensures |alive| == 0 ==> store.entries == old(store.entries)
  {
    var list := store.AllOwnerships();
    OwnersAreListed(list, store.entries);
    if |list| == 0 {
      assert store.entries == map[];
      return None;
    }
    assert list[0].shardId in store.entries;
    var dead := DeadNodes(list, alive);
    if |alive| == 0 {
      assert store.entries[list[0].shardId].nodeId in dead;
      assert dead[0] in dead;
      SomebodyOwns(list, store.entries, dead[0]);
      failure := FailoverDeadNode(store, hash, alive, dead[0]);
    } else {
      FailoverAll(store, hash, alive, list, dead);
      failure := None;
    }
  }

  // ---------------------------------------------------------------------------------------------
  // One rebalancing move
  // ---------------------------------------------------------------------------------------------

  datatype Move = Move(shardId: nat, fromNodeId: nat, toNodeId: nat)

  lemma FirstMisplacedRow(t: Table, target: nat -> nat, list: seq<Row>, i: nat)
    requires IsListing(list, t, t.Keys) && i < |list|
    requires forall j :: 0 <= j < i ==> list[j].nodeId == target(list[j].shardId)
    requires list[i].nodeId != target(list[i].shardId)
    ensures IsLeast(Misplaced(t, target), list[i].shardId)
  {
    forall s | s in Misplaced(t, target) ensures list[i].shardId <= s {
      var k :| 0 <= k < |list| && list[k] == Row(s, t[s].nodeId, t[s].epoch);
    }
  }

  lemma NoMisplacedRow(t: Table, target: nat -> nat, list: seq<Row>)
    requires IsListing(list, t, t.Keys)
    requires forall j :: 0 <= j < |list| ==> list[j].nodeId == target(list[j].shardId)
    ensures Misplaced(t, target) == {}
  {
    forall s | s in t ensures t[s].nodeId == target(s) {
      var k :| 0 <= k < |list| && list[k] == Row(s, t[s].nodeId, t[s].epoch);
    }
  }

  lemma TargetOfIs(hash: Hash, alive: seq<int>, shardId: nat)
    requires |alive| > 0 && Positive(alive)
    ensures TargetOf(hash, alive, shardId) == Target(hash, alive, shardId)
  {
  }

  /** Scans the rows up to the first that is not at its target. */
  method ScanRows(hash: Hash, alive: seq<int>, list: seq<Row>) returns (i: nat, nodeId: nat)
    requires ValidAlive(alive) && |alive| > 0
    ensures i <= |list| && forall j :: 0 <= j < i ==> list[j].nodeId == TargetOf(hash, alive, list[j].shardId)
    ensures i < |list| ==> nodeId == TargetOf(hash, alive, list[i].shardId) != list[i].nodeId
  {
    hide TargetOf, Target;
    i, nodeId := 0, 0;
    while i < |list|
      invariant i <= |list| && forall j :: 0 <= j < i ==> list[j].nodeId == TargetOf(hash, alive, list[j].shardId)
    {
      var wanted := TargetNodeID(hash, alive, list[i].shardId);
      TargetOfIs(hash, alive, list[i].shardId);
      nodeId := wanted.value;
      if list[i].nodeId != nodeId { return; }
      i := i + 1;
    }
  }

  /** The first row, in shard order, that is not at its target. A node list no ring can be built from is an error
      as soon as there is a row to look at. */
  method Plan(hash: Hash, alive: seq<int>, list: seq<Row>, ghost t: Table) returns (move: Result<Option<Move>>)
    requires IsListing(list, t, t.Keys)
    ensures move.Err? <==> t != map[] && !(|alive| > 0 && ValidAlive(alive))
    ensures t == map[] ==> move == Ok(None)
    ensures move.Ok? && t != map[] ==>
              var misplaced := Misplaced(t, Targets(hash, alive));
              match move.value
              case None => misplaced == {}
              case Some(m) =>
                && IsLeast(misplaced, m.shardId)
                && m.fromNodeId == t[m.shardId].nodeId
                && m.toNodeId == Targets(hash, alive)(m.shardId)
  {
    if |list| == 0 {
      assert t == map[];
      return Ok(None);
    }
    assert list[0].shardId in t;
    var wanted := TargetNodeID(hash, alive, list[0].shardId);
    if wanted.Err? { return Err(wanted.error); }
    var i, nodeId := ScanRows(hash, alive, list);
    ghost var target := Targets(hash, alive);
    hide TargetOf;
    if i == |list| {
      NoMisplacedRow(t, target, list);
      return Ok(None);
    }
    FirstMisplacedRow(t, target, list, i);
    return Ok(Some(Move(list[i].shardId, list[i].nodeId, nodeId)));
  }

  method ValidateMove(move: Move, alive: seq<int>, list: seq<Row>) returns (valid: bool)
    ensures valid <==>
            && move.shardId >= 0 && move.fromNodeId > 0 && move.toNodeId > 0 && move.fromNodeId != move.toNodeId
            && move.fromNodeId in alive && move.toNodeId in alive
            && exists i :: 0 <= i < |list| && list[i].shardId == move.shardId && list[i].nodeId == move.fromNodeId
                           && forall j :: 0 <= j < i ==> list[j].shardId != move.shardId
  {
    if move.shardId < 0 || move.fromNodeId <= 0 || move.toNodeId <= 0 { return false; }
    if move.fromNodeId == move.toNodeId { return false; }
    if move.fromNodeId !in alive || move.toNodeId !in alive { return false; }
    for i := 0 to |list|
      invariant forall j :: 0 <= j < i ==> list[j].shardId != move.shardId
    {
      if list[i].shardId == move.shardId {
        return list[i].nodeId == move.fromNodeId;
      }
    }
    return false;
  }

  lemma LeastIsUnique(s: set<nat>, x: nat)
    requires IsLeast(s, x)
    ensures s != {} && Least(s) == x
  {
    assert IsLeast(s, Least(s));
  }

  lemma RowIsListed(list: seq<Row>, t: Table, shardId: nat)
    requires IsListing(list, t, t.Keys) && shardId in t
    ensures exists i :: 0 <= i < |list| && list[i].shardId == shardId && list[i].nodeId == t[shardId].nodeId
                        && forall j :: 0 <= j < i ==> list[j].shardId != shardId
  {
    var i :| 0 <= i < |list| && list[i] == Row(shardId, t[shardId].nodeId, t[shardId].epoch);
    assert forall j :: 0 <= j < i ==> list[j].shardId < list[i].shardId;
  }

  /** One move at most, and none away from a node that is not alive: such a move is refused. */
  method RebalanceOnce(store: Store, hash: Hash, alive: seq<int>) returns (failure: Option<Error>)
    requires ValidAlive(alive) && ValidTable(store.entries)
    modifies store
    ensures |alive| == 0 ==> failure.None? && store.entries == old(store.entries)
    ensures |alive| > 0 ==>
              var misplaced := Misplaced(old(store.entries), Targets(hash, alive));
              && (failure.None? <==> misplaced == {} || old(store.entries)[Least(misplaced)].nodeId in alive)
              && store.entries == if failure.None? then Rebalanced(old(store.entries), Targets(hash, alive))
                                       else old(store.entries)
  {
    if |alive| == 0 { return None; }
    var list := store.AllOwnerships();
    ghost var t := store.entries;
    if |list| == 0 {
      assert t == map[];
      return None;
    }
    var planned := Plan(hash, alive, list, t);
    if planned.value.None? { return None; }
    var move := planned.value.value;
    LeastIsUnique(Misplaced(t, Targets(hash, alive)), move.shardId);
    TargetIsANode(hash, alive, move.shardId);
    RowIsListed(list, t, move.shardId);
    var valid := ValidateMove(move, alive, list);
    if !valid { return Some(InvalidMove); }
    failure := store.Assign(move.shardId, move.toNodeId);
  }

  // ---------------------------------------------------------------------------------------------
  // The sweep
  // ---------------------------------------------------------------------------------------------

  lemma StagesKeepTableValid(t: Table, target: nat -> nat, alive: seq<int>, count: nat)
    requires ValidTable(t) && Positive(alive) && forall s: nat :: target(s) in alive
    ensures ValidTable(Ensured(t, target, count))
    ensures var f := FailedOver(Ensured(t, target, count), target, alive);
            ValidTable(f) && forall s :: s in f ==> f[s].nodeId in alive
  {
  }

  lemma FirstIsAlive(t: Table, target: nat -> nat, alive: seq<int>)
    requires forall s :: s in t ==> t[s].nodeId in alive
    ensures Misplaced(t, target) != {} ==> t[Least(Misplaced(t, target))].nodeId in alive
  {
  }

  /** The stages in order; without live nodes nothing changes, and it is an error if there is anything to fail over. */
  method Sweep(store: Store, hash: Hash, alive: seq<int>, shardCount: int) returns (failure: Option<Error>)
    requires ValidAlive(alive) && ValidTable(store.entries)
    modifies store
    ensures failure.None? <==> shardCount > 0 && (|alive| > 0 || old(store.entries) == map[])
    ensures shardCount > 0 && |alive| > 0 ==>
              store.entries == Swept(old(store.entries), Targets(hash, alive), alive, shardCount)
    ensures shardCount <= 0 || |alive| == 0 ==> store.entries == old(store.entries)
  {
    if shardCount > 0 && |alive| > 0 {
      TargetsAreAlive(hash, alive);
      StagesKeepTableValid(store.entries, Targets(hash, alive), alive, shardCount);
    }
    failure := EnsureInitialOwnership(store, hash, alive, shardCount);
    if failure.Some? { return; }
    failure := FailoverMissingOwners(store, hash, alive);
    if failure.Some? { return; }
    if |alive| > 0 {
      FirstIsAlive(store.entries, Targets(hash, alive), alive);
    }
    failure := RebalanceOnce(store, hash, alive);
  }

  // ---------------------------------------------------------------------------------------------
  // Convergence
  // ---------------------------------------------------------------------------------------------

  /** Shards with a live owner that is not their target: what is left for rebalancing. */
  ghost function Waiting(t: Table, target: nat -> nat, alive: seq<int>): set<nat> {
    set s | s in t && t[s].nodeId in alive && t[s].nodeId != target(s)
  }

  /** Every row at its target and every shard of the range present. */
  ghost predicate Settled(t: Table, target: nat -> nat, count: nat) {
    && Shards(count) <= t.Keys
    && forall s :: s in t ==> t[s].nodeId == target(s)
  }

  /** The table the sweeps aim for: a row at its target keeps its epoch, any other is reassigned once. */
  ghost function Final(t: Table, target: nat -> nat, count: nat): Table {
    map s | s in t.Keys + Shards(count) ::
      if s !in t then Entry(target(s), 1)
      else if t[s].nodeId == target(s) then t[s]
      else Entry(target(s), t[s].epoch + 1)
  }

  lemma FinalIsSettled(t: Table, target: nat -> nat, count: nat)
    ensures Settled(Final(t, target, count), target, count)
  {
  }

  function Less(a: nat, b: nat): nat {
    if a < b then 0 else a - b
  }

  ghost predicate AllOwnedAlive(t: Table, alive: seq<int>) {
    forall s :: s in t ==> t[s].nodeId in alive
  }

  /** `after` is where `n` sweeps lead: every row untouched or final, the waiting list `n` shorter. */
  ghost predicate Toward(t: Table, after: Table, target: nat -> nat, alive: seq<int>, count: nat, n: nat) {
    && t.Keys <= after.Keys <= t.Keys + Shards(count)
    && (forall s :: s in after ==> after[s] == Final(t, target, count)[s] || (s in t && after[s] == t[s]))
    && Final(after, target, count) == Final(t, target, count)
    && |Waiting(after, target, alive)| == Less(|Waiting(t, target, alive)|, n)
    && (n > 0 ==> AllOwnedAlive(after, alive) && Shards(count) <= after.Keys)
  }

  lemma TowardSelf(t: Table, target: nat -> nat, alive: seq<int>, count: nat)
    ensures Toward(t, t, target, alive, count, 0)
  {
  }

  lemma TowardCompose(a: Table, b: Table, c: Table, target: nat -> nat, alive: seq<int>, count: nat, n: nat)
    requires Toward(a, b, target, alive, count, n) && Toward(b, c, target, alive, count, 1)
    ensures Toward(a, c, target, alive, count, n + 1)
  {
    hide Waiting, AllOwnedAlive;
  }

  lemma BeforeRebalanceRows(t: Table, target: nat -> nat, alive: seq<int>, count: nat)
    requires forall s: nat :: target(s) in alive
    ensures var f := FailedOver(Ensured(t, target, count), target, alive);
            && f.Keys == t.Keys + Shards(count)
            && AllOwnedAlive(f, alive)
            && (forall s :: s in f ==>
                  if s in t && t[s].nodeId in alive then f[s] == t[s] else f[s] == Final(t, target, count)[s])
            && Misplaced(f, target) == Waiting(t, target, alive)
  {
  }

  lemma FinalAgrees(t: Table, f: Table, target: nat -> nat, count: nat)
    requires f.Keys == t.Keys + Shards(count)
    requires forall s :: s in f ==> f[s] == Final(t, target, count)[s] || (s in t && f[s] == t[s])
    ensures Final(f, target, count) == Final(t, target, count)
  {
  }

  /** First assignment and failover finish everything but the waiting shards. */
  lemma BeforeRebalance(t: Table, target: nat -> nat, alive: seq<int>, count: nat)
    requires forall s: nat :: target(s) in alive
    ensures var f := FailedOver(Ensured(t, target, count), target, alive);
            && f.Keys == t.Keys + Shards(count)
            && AllOwnedAlive(f, alive)
            && (forall s :: s in f ==> f[s] == Final(t, target, count)[s] || (s in t && f[s] == t[s]))
            && Final(f, target, count) == Final(t, target, count)
            && Misplaced(f, target) == Waiting(t, target, alive)
  {
    var f := FailedOver(Ensured(t, target, count), target, alive);
    BeforeRebalanceRows(t, target, alive, count);
    hide FailedOver, Ensured, AllOwnedAlive;
    FinalAgrees(t, f, target, count);
  }

  lemma AllAliveAllWaiting(t: Table, target: nat -> nat, alive: seq<int>)
    requires AllOwnedAlive(t, alive)
    ensures Waiting(t, target, alive) == Misplaced(t, target)
  {
  }

  /** The move makes the first misplaced row final. */
  lemma RebalanceProgress(f: Table, target: nat -> nat, alive: seq<int>, count: nat)
    requires AllOwnedAlive(f, alive) && forall s: nat :: target(s) in alive
    ensures var after := Rebalanced(f, target);
            && after.Keys == f.Keys
            && AllOwnedAlive(after, alive)
            && (forall s :: s in f ==> after[s] == Final(f, target, count)[s] || after[s] == f[s])
            && Final(after, target, count) == Final(f, target, count)
            && |Misplaced(after, target)| == Less(|Misplaced(f, target)|, 1)
  {
    if Misplaced(f, target) != {} {
      var x := Least(Misplaced(f, target));
      var after := Reassign(f, x, target(x));
      assert Misplaced(after, target) == Misplaced(f, target) - {x};
      assert Final(after, target, count) == Final(f, target, count);
    }
  }

  lemma SweepProgress(t: Table, target: nat -> nat, alive: seq<int>, count: nat)
    requires forall s: nat :: target(s) in alive
    ensures Toward(t, Swept(t, target, alive, count), target, alive, count, 1)
  {
    var f := FailedOver(Ensured(t, target, count), target, alive);
    BeforeRebalance(t, target, alive, count);
    RebalanceProgress(f, target, alive, count);
    AllAliveAllWaiting(Rebalanced(f, target), target, alive);
  }

  lemma EnsuredIsFixed(t: Table, target: nat -> nat, count: nat)
    requires Shards(count) <= t.Keys
    ensures Ensured(t, target, count) == t
  {
  }

  /** When every row with a live owner is at its target, failover alone settles the table. */
  lemma FailoverSettles(t: Table, target: nat -> nat, alive: seq<int>, count: nat)
    requires Shards(count) <= t.Keys && Waiting(t, target, alive) == {} && forall s: nat :: target(s) in alive
    ensures var after := Swept(t, target, alive, count);
            && after == FailedOver(t, target, alive)
            && Settled(after, target, count)
  {
    EnsuredIsFixed(t, target, count);
    BeforeRebalance(t, target, alive, count);
    var after := FailedOver(t, target, alive);
    forall s | s in after ensures after[s].nodeId == target(s) {
      assert s !in Misplaced(after, target);
    }
  }

  lemma SettledIsFixed(t: Table, target: nat -> nat, alive: seq<int>, count: nat)
    requires Settled(t, target, count) && forall s: nat :: target(s) in alive
    ensures Swept(t, target, alive, count) == t && Final(t, target, count) == t
  {
    assert Waiting(t, target, alive) == {};
    FailoverSettles(t, target, alive, count);
    assert FailedOver(t, target, alive) == t;
  }

  ghost function Sweeps(t: Table, target: nat -> nat, alive: seq<int>, count: nat, n: nat): Table {
    if n == 0 then t else Swept(Sweeps(t, target, alive, count, n - 1), target, alive, count)
  }

  /** After any number of sweeps each row is untouched or final, so no shard is ever reassigned twice, and
      exactly one shard per sweep has left the waiting list. */
  lemma {:induction false} SweepsProgress(t: Table, target: nat -> nat, alive: seq<int>, count: nat, n: nat)
    requires forall s: nat :: target(s) in alive
    ensures Toward(t, Sweeps(t, target, alive, count, n), target, alive, count, n)
  {
    hide Toward, Swept;
    if n == 0 {
      TowardSelf(t, target, alive, count);
    } else {
      var before := Sweeps(t, target, alive, count, n - 1);
      SweepsProgress(t, target, alive, count, n - 1);
      SweepProgress(before, target, alive, count);
      TowardCompose(t, before, Swept(before, target, alive, count), target, alive, count, n - 1);
    }
  }

  lemma NothingWaitingIsSettled(t: Table, target: nat -> nat, alive: seq<int>, count: nat)
    requires AllOwnedAlive(t, alive) && Shards(count) <= t.Keys && |Waiting(t, target, alive)| == 0
    ensures Settled(t, target, count)
  {
    forall s | s in t ensures t[s].nodeId == target(s) {
      assert s !in Waiting(t, target, alive);
    }
  }

  /** Convergence. While the alive nodes stay the same, sweeping any table at least once, and once per waiting
      shard, ends in the final table, which no later sweep changes. Before that, some shard is still waiting. */
  lemma SweepsConverge(t: Table, hash: Hash, alive: seq<int>, count: nat, n: nat)
    requires |alive| > 0 && Positive(alive)
    ensures var target := Targets(hash, alive);
            && Settled(Final(t, target, count), target, count)
            && (n > 0 && n >= |Waiting(t, target, alive)| ==>
                  && Sweeps(t, target, alive, count, n) == Final(t, target, count)
                  && Sweeps(t, target, alive, count, n + 1) == Final(t, target, count))
            && (n < |Waiting(t, target, alive)| ==> !Settled(Sweeps(t, target, alive, count, n), target, count))
  {
    var target := Targets(hash, alive);
    TargetsAreAlive(hash, alive);
    FinalIsSettled(t, target, count);
    SweepsProgress(t, target, alive, count, n);
    var after := Sweeps(t, target, alive, count, n);
    if n > 0 && n >= |Waiting(t, target, alive)| {
      NothingWaitingIsSettled(after, target, alive, count);
      SettledIsFixed(after, target, alive, count);
    } else if n < |Waiting(t, target, alive)| {
      assert Waiting(after, target, alive) != {};
      var s :| s in Waiting(after, target, alive);
    }
  }

  lemma LossLeavesNothingWaiting(t: Table, hash: Hash, alive: seq<int>, lost: int, count: nat)
    requires |alive| > 0 && Positive(alive) && |Without(alive, lost)| > 0 && Settled(t, Targets(hash, alive), count)
    ensures Waiting(t, Targets(hash, Without(alive, lost)), Without(alive, lost)) == {}
    ensures forall s :: s in t ==> (t[s].nodeId in Without(alive, lost) <==> t[s].nodeId != lost)
  {
    WithoutMembers(alive, lost);
    forall s | s in t
      ensures t[s].nodeId in Without(alive, lost) <==> t[s].nodeId != lost
      ensures t[s].nodeId != lost ==> TargetOf(hash, Without(alive, lost), s) == t[s].nodeId
    {
      MinimalMovement(hash, alive, lost, s);
      TargetIsANode(hash, alive, s);
    }
  }

  /** Losing one node of a balanced table: a single sweep moves exactly the shards that node held, each to its
      new target, and rebalancing finds nothing left to do. */
  lemma NodeLossMovesOnlyItsShards(t: Table, hash: Hash, alive: seq<int>, lost: int, count: nat)
    requires |alive| > 0 && Positive(alive) && |Without(alive, lost)| > 0 && Settled(t, Targets(hash, alive), count)
    ensures var rest := Without(alive, lost);
            var target := Targets(hash, rest);
            var after := Swept(t, target, rest, count);
            && after.Keys == t.Keys
            && (forall s :: s in t ==>
                  after[s] == if t[s].nodeId == lost then Entry(target(s), t[s].epoch + 1) else t[s])
            && Settled(after, target, count)
            && after == FailedOver(t, target, rest)
  {
    LossLeavesNothingWaiting(t, hash, alive, lost, count);
    TargetsAreAlive(hash, Without(alive, lost));
    FailoverSettles(t, Targets(hash, Without(alive, lost)), Without(alive, lost), count);
  }

  // ---------------------------------------------------------------------------------------------
  // A node joins
  // ---------------------------------------------------------------------------------------------

  /** The shards whose ring target is the node. */
  ghost function Claims(t: Table, target: nat -> nat, nodeId: int): set<nat> {
    set s | s in t && target(s) == nodeId
  }

  ghost function Changed(t: Table, after: Table): set<nat>
    requires t.Keys <= after.Keys
  {
    set s | s in t && after[s] != t[s]
  }

  lemma JoinerWaits(t: Table, hash: Hash, alive: seq<int>, joined: int, count: nat)
    requires |alive| > 0 && Positive(alive) && joined in alive && |Without(alive, joined)| > 0
    requires Settled(t, Targets(hash, Without(alive, joined)), count)
    ensures Waiting(t, Targets(hash, alive), alive) == Claims(t, Targets(hash, alive), joined)
  {
    WithoutMembers(alive, joined);
    forall s | s in t
      ensures t[s].nodeId in alive && (t[s].nodeId != TargetOf(hash, alive, s) <==> TargetOf(hash, alive, s) == joined)
    {
      MinimalMovement(hash, alive, joined, s);
      TargetIsANode(hash, Without(alive, joined), s);
    }
  }

  /** On the way to the final table the rows changed so far are those no longer waiting. */
  lemma ChangedIsDone(t: Table, after: Table, target: nat -> nat, alive: seq<int>, count: nat, n: nat)
    requires Shards(count) <= t.Keys && AllOwnedAlive(t, alive) && Toward(t, after, target, alive, count, n)
    ensures Changed(t, after) == Waiting(t, target, alive) - Waiting(after, target, alive)
    ensures Waiting(after, target, alive) <= Waiting(t, target, alive)
  {
  }

  lemma SubsetSizes(a: set<nat>, b: set<nat>)
    requires b <= a
    ensures |a - b| == |a| - |b|
  {
    assert (a - b) + b == a;
  }

  lemma OwnersStayAlive(t: Table, hash: Hash, alive: seq<int>, joined: int, count: nat)
    requires |alive| > 0 && Positive(alive) && |Without(alive, joined)| > 0
    requires Settled(t, Targets(hash, Without(alive, joined)), count)
    ensures AllOwnedAlive(t, alive)
  {
    WithoutMembers(alive, joined);
    forall s | s in t ensures t[s].nodeId in alive {
      TargetIsANode(hash, Without(alive, joined), s);
    }
  }

  lemma JoinProgress(t: Table, after: Table, target: nat -> nat, alive: seq<int>, count: nat, n: nat,
                     claims: set<nat>)
    requires Shards(count) <= t.Keys && AllOwnedAlive(t, alive) && forall s: nat :: target(s) in alive
    requires Toward(t, after, target, alive, count, n) && Waiting(t, target, alive) == claims
    ensures after.Keys == t.Keys && Changed(t, after) <= claims
    ensures |Changed(t, after)| == if n < |claims| then n else |claims|
    ensures forall s :: s in Changed(t, after) ==> after[s] == Entry(target(s), t[s].epoch + 1)
    ensures n >= |claims| ==> Changed(t, after) == claims && Settled(after, target, count)
  {
    ChangedIsDone(t, after, target, alive, count, n);
    SubsetSizes(claims, Waiting(after, target, alive));
    assert after.Keys == t.Keys;
    assert forall s :: s in after ==> after[s] == t[s] || after[s] == Entry(target(s), t[s].epoch + 1);
    assert AllOwnedAlive(after, alive);
    hide Toward, Final, Waiting;
    if n >= |claims| {
      NothingWaitingIsSettled(after, target, alive, count);
    }
  }

  /** A node joining a balanced table: each sweep moves one shard, every shard moved is one that targets the node and
      goes to it one epoch up, and when all of those have moved the table is settled. */
  lemma NodeJoinMovesOnlyToIt(t: Table, hash: Hash, alive: seq<int>, joined: int, count: nat, n: nat)
    requires |alive| > 0 && Positive(alive) && joined in alive && |Without(alive, joined)| > 0
    requires Settled(t, Targets(hash, Without(alive, joined)), count)
    ensures var target := Targets(hash, alive);
            var after := Sweeps(t, target, alive, count, n);
            var claims := Claims(t, target, joined);
            && after.Keys == t.Keys
            && Changed(t, after) <= claims
            && |Changed(t, after)| == (if n < |claims| then n else |claims|)
            && (forall s :: s in Changed(t, after) ==> after[s] == Entry(target(s), t[s].epoch + 1))
            && (n >= |claims| ==> Changed(t, after) == claims && Settled(after, target, count))
  {
    var target := Targets(hash, alive);
    var after := Sweeps(t, target, alive, count, n);
    var claims := Claims(t, target, joined);
    JoinerWaits(t, hash, alive, joined, count);
    OwnersStayAlive(t, hash, alive, joined, count);
    TargetsAreAlive(hash, alive);
    SweepsProgress(t, target, alive, count, n);
    hide *;
    JoinProgress(t, after, target, alive, count, n, claims);
  }
}
