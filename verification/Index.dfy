/** The sharded candidate index: one grid per shard over rider objects the index shares with its grids. */
module CandidateIndex {
  import opened Model
  import opened ShardLayout
  import opened Grid
  import opened TopK
  import opened Stages

  type Shards = map<Int64, int>

  /** One row of the plain rider table the index stands for. */
  datatype Known = Known(shard: int, x: int, y: int, count: int)

  type KnownRiders = map<Int64, Known>

  datatype RiderEvent = Online(uid: Int64, x: int, y: int) | Move(uid: Int64, x: int, y: int) | Offline(uid: Int64)

  /** What an event does to the plain table: the count survives, an unknown rider starts at zero, and a move of
      an unknown rider is ignored. */
  function Applied(layout: Layout, table: KnownRiders, event: RiderEvent): KnownRiders
    requires ShardLayout.Valid(layout)
  {
    match event
    case Online(u, x, y) =>
      table[u := Known(ShardID(layout, x, y), x, y, if u in table then table[u].count else 0)]
    case Move(u, x, y) =>
      if u in table then table[u := Known(ShardID(layout, x, y), x, y, table[u].count)] else table
    case Offline(u) => table - {u}
  }

  /** The riders of one shard. */
  function Owned(riders: Riders, shards: Shards, k: int): (owned: Riders)
    requires shards.Keys == riders.Keys
    ensures owned.Values <= riders.Values
  {
    map u | u in riders && shards[u] == k :: riders[u]
  }

  /** The plain table behind the two maps. */
  function TableOf(riders: Riders, shards: Shards): KnownRiders
    requires shards.Keys == riders.Keys
    reads riders.Values`x, riders.Values`y, riders.Values`count
  {
    map u | u in riders :: Known(shards[u], riders[u].x, riders[u].y, riders[u].count)
  }

  lemma TableReads(riders: Riders, shards: Shards, table: KnownRiders)
    requires shards.Keys == riders.Keys
    ensures TableOf(riders, shards) == table <==>
            && riders.Keys == table.Keys
            && forall u :: u in riders ==> table[u] == Known(shards[u], riders[u].x, riders[u].y, riders[u].count)
  {
  }

  predicate KeyedByUid(riders: Riders) {
    forall u :: u in riders ==> riders[u].uid == u
  }

  /** The grid holds exactly these riders, as the same objects. */
  ghost predicate HoldsShard(grid: GridIndex, cellSize: int, owned: Riders)
    reads grid, owned.Values
  {
    grid.cellSize == cellSize && grid.riders == owned && grid.Valid()
  }

  lemma OwnedElsewhere(riders: Riders, shards: Shards, u: Int64, k: int)
    requires shards.Keys == riders.Keys && KeyedByUid(riders) && u in riders && shards[u] != k
    ensures riders[u] !in Owned(riders, shards, k).Values
  {
  }

  lemma OwnedWithout(riders: Riders, shards: Shards, u: Int64, k: int)
    requires shards.Keys == riders.Keys
    ensures Owned(riders - {u}, shards - {u}, k) == Owned(riders, shards, k) - {u}
  {
  }

  lemma NotOwnedElsewhere(riders: Riders, shards: Shards, rider: Rider, k: int, j: int)
    requires shards.Keys == riders.Keys && KeyedByUid(riders) && j != k
    requires rider.uid in riders ==> riders[rider.uid] == rider && shards[rider.uid] == k
    ensures rider !in Owned(riders, shards, j).Values
  {
  }

  lemma OwnedPlaced(riders: Riders, shards: Shards, rider: Rider, k: int, j: int)
    requires shards.Keys == riders.Keys
    requires rider.uid in riders ==> riders[rider.uid] == rider && shards[rider.uid] == k
    ensures Owned(riders[rider.uid := rider], shards[rider.uid := k], j) ==
            if j == k then Owned(riders, shards, j)[rider.uid := rider] else Owned(riders, shards, j)
  {
  }

  method MovedBehindItsBack(grid: GridIndex, rider: Rider, x: int, y: int)
    requires grid.Valid() && (rider.uid in grid.riders ==> grid.riders[rider.uid] == rider)
    modifies rider`x, rider`y
    ensures grid.ValidExcept(rider.uid) && rider.x == x && rider.y == y
  {
    if rider.uid in grid.riders {
      grid.OthersAreOtherObjects(rider.uid);
    }
    rider.x, rider.y := x, y;
  }

  /** The index writes the new position into the shared object first and tells the grid afterwards. */
  method WriteAndAdd(grid: GridIndex, rider: Rider, x: int, y: int)
    requires grid.Valid() && (rider.uid in grid.riders ==> grid.riders[rider.uid] == rider)
    modifies grid, rider
    ensures grid.Valid() && grid.riders == old(grid.riders)[rider.uid := rider]
    ensures rider.x == x && rider.y == y && rider.count == old(rider.count)
  {
    hide GridIndex.Valid, GridIndex.ValidExcept;
    MovedBehindItsBack(grid, rider, x, y);
    grid.AddRider(rider);
  }

  type Grids = seq<GridIndex>

  predicate Separate(grids: Grids) {
    forall i, j :: 0 <= i < j < |grids| ==> grids[i] != grids[j]
  }

  /** The grids hold exactly these riders, split by these shards: each rider is in exactly one grid, as the same
      object and in the cell of its position, and no grid or cell holds anyone else. */
  ghost predicate Holds(grids: Grids, cellSize: int, riders: Riders, shards: Shards)
    reads grids, riders.Values
  {
    && shards.Keys == riders.Keys && KeyedByUid(riders)
    && (forall u :: u in shards ==> 0 <= shards[u] < |grids|)
    && (forall k :: 0 <= k < |grids| ==> HoldsShard(grids[k], cellSize, Owned(riders, shards, k)))
  }

  /** Takes a rider out of the grid of its shard. */
  method Detach(grids: Grids, ghost cellSize: int, ghost riders: Riders, ghost shards: Shards, u: Int64, k: int)
    requires Separate(grids) && Holds(grids, cellSize, riders, shards) && u in riders && shards[u] == k
    modifies grids[k], riders[u]
    ensures Holds(grids, cellSize, riders - {u}, shards - {u})
    ensures riders[u].count == old(riders[u].count)
  {
    hide GridIndex.Valid;
    ghost var rest, places := riders - {u}, shards - {u};
    forall j | 0 <= j < |grids| && j != k ensures riders[u] !in Owned(riders, shards, j).Values {
      OwnedElsewhere(riders, shards, u, j);
    }
    OwnedWithout(riders, shards, u, k);
    grids[k].DeleteRider(u);
    forall j | 0 <= j < |grids| ensures HoldsShard(grids[j], cellSize, Owned(rest, places, j)) {
      OwnedWithout(riders, shards, u, j);
      if j != k {
        assert HoldsShard(grids[j], cellSize, Owned(riders, shards, j));
      }
    }
  }

  /** Files a rider under a shard: one that is nowhere yet, or one that is in that shard already. */
  method Place(grids: Grids, ghost cellSize: int, ghost riders: Riders, ghost shards: Shards, rider: Rider, k: int,
               x: int, y: int)
    requires Separate(grids) && Holds(grids, cellSize, riders, shards) && 0 <= k < |grids|
    requires rider.uid in riders ==> riders[rider.uid] == rider && shards[rider.uid] == k
    modifies grids[k], rider
    ensures Holds(grids, cellSize, riders[rider.uid := rider], shards[rider.uid := k])
    ensures rider.x == x && rider.y == y && rider.count == old(rider.count)
  {
    hide GridIndex.Valid;
    ghost var u := rider.uid;
    ghost var more, places := riders[u := rider], shards[u := k];
    forall j | 0 <= j < |grids| && j != k ensures rider !in Owned(riders, shards, j).Values {
      NotOwnedElsewhere(riders, shards, rider, k, j);
    }
    OwnedPlaced(riders, shards, rider, k, k);
    WriteAndAdd(grids[k], rider, x, y);
    forall j | 0 <= j < |grids| ensures HoldsShard(grids[j], cellSize, Owned(more, places, j)) {
      OwnedPlaced(riders, shards, rider, k, j);
      if j != k {
        assert HoldsShard(grids[j], cellSize, Owned(riders, shards, j));
      }
    }
  }

  /** Moves a rider's object to a shard, out of the shard it was in if that was another. */
  method Resettle(grids: Grids, ghost cellSize: int, ghost riders: Riders, shards: Shards, rider: Rider, k: int, x: int,
                  y: int)
    requires Separate(grids) && Holds(grids, cellSize, riders, shards) && 0 <= k < |grids|
    requires rider.uid in riders ==> riders[rider.uid] == rider
    modifies grids, rider
    ensures Holds(grids, cellSize, riders[rider.uid := rider], shards[rider.uid := k])
    ensures rider.x == x && rider.y == y && rider.count == old(rider.count)
  {
    hide HoldsShard;
    var u := rider.uid;
    if u in shards && shards[u] != k {
      Detach(grids, cellSize, riders, shards, u, shards[u]);
      Place(grids, cellSize, riders - {u}, shards - {u}, rider, k, x, y);
      assert (riders - {u})[u := rider] == riders[u := rider];
      assert (shards - {u})[u := k] == shards[u := k];
    } else {
      Place(grids, cellSize, riders, shards, rider, k, x, y);
    }
  }

  /** A move inside one shard: the grid alone writes the object. */
  method MoveWithin(grids: Grids, ghost cellSize: int, ghost riders: Riders, ghost shards: Shards, u: Int64, k: int,
                    x: int, y: int)
    requires Separate(grids) && Holds(grids, cellSize, riders, shards) && u in riders && shards[u] == k
    modifies grids[k], riders[u]
    ensures Holds(grids, cellSize, riders, shards)
    ensures riders[u].x == x && riders[u].y == y && riders[u].count == old(riders[u].count)
  {
    hide GridIndex.Valid;
    forall j | 0 <= j < |grids| && j != k ensures riders[u] !in Owned(riders, shards, j).Values {
      OwnedElsewhere(riders, shards, u, j);
    }
    grids[k].MoveRider(u, x, y);
    forall j | 0 <= j < |grids| ensures HoldsShard(grids[j], cellSize, Owned(riders, shards, j)) {
      if j != k {
        assert HoldsShard(grids[j], cellSize, Owned(riders, shards, j));
      }
    }
  }

  method WriteCount(grid: GridIndex, rider: Rider, count: int)
    requires grid.Valid() && rider in grid.riders.Values
    modifies rider`count
    ensures grid.Valid() && rider.count == count
  {
    rider.count := count;
  }

  /** A count is written into the shared object; no grid notices. */
  method CountWithin(grids: Grids, ghost cellSize: int, ghost riders: Riders, shards: Shards, rider: Rider, count: int)
    requires Separate(grids) && Holds(grids, cellSize, riders, shards) && rider.uid in riders
    requires riders[rider.uid] == rider
    modifies rider`count
    ensures Holds(grids, cellSize, riders, shards) && rider.count == count
  {
    hide GridIndex.Valid;
    var k := shards[rider.uid];
    forall j | 0 <= j < |grids| && j != k ensures rider !in Owned(riders, shards, j).Values {
      OwnedElsewhere(riders, shards, rider.uid, j);
    }
    assert Owned(riders, shards, k)[rider.uid] == rider;
    WriteCount(grids[k], rider, count);
    forall j | 0 <= j < |grids| ensures HoldsShard(grids[j], cellSize, Owned(riders, shards, j)) {
      if j != k {
        assert HoldsShard(grids[j], cellSize, Owned(riders, shards, j));
      }
    }
  }

  // ---------------------------------------------------------------------------------------------
  // Whole shards
  // ---------------------------------------------------------------------------------------------

  function Uids(list: seq<Rider>): (uids: seq<Int64>)
    ensures |uids| == |list| && forall i :: 0 <= i < |list| ==> uids[i] == list[i].uid
  {
    seq(|list|, i requires 0 <= i < |list| => list[i].uid)
  }

  function ByUid(list: seq<Rider>): (riders: Riders)
    ensures forall u :: u in riders ==> riders[u] in list && riders[u].uid == u
    ensures forall r :: r in list ==> r.uid in riders
  {
    if |list| == 0 then map[] else
      var last := list[|list| - 1];
      assert list == list[..|list| - 1] + [last];
      ByUid(list[..|list| - 1])[last.uid := last]
  }

  /** The first object of each rider in the list, which is the one a grid built from it keeps; `ByUid` has the last,
      which is the one the index keeps. */
  function FirstByUid(list: seq<Rider>): (riders: Riders)
    ensures forall u :: u in riders ==> riders[u] in list && riders[u].uid == u
  {
    if |list| == 0 then map[] else
      var front, last := FirstByUid(list[..|list| - 1]), list[|list| - 1];
      if last.uid in front then front else front[last.uid := last]
  }

  predicate OneObjectEach(list: seq<Rider>) {
    FirstByUid(list) == ByUid(list)
  }

  lemma OneMore(list: seq<Rider>, n: nat)
    requires n < |list|
    ensures ByUid(list[..n + 1]) == ByUid(list[..n])[list[n].uid := list[n]]
    ensures var front := FirstByUid(list[..n]);
            FirstByUid(list[..n + 1]) == if list[n].uid in front then front else front[list[n].uid := list[n]]
    ensures Distinct(Uids(list)) ==> list[n].uid !in FirstByUid(list[..n])
  {
    assert list[..n + 1][..n] == list[..n];
    if Distinct(Uids(list)) {
      forall i | 0 <= i < n ensures list[i].uid != list[n].uid {
      }
    }
  }

  lemma {:induction false} DistinctLoads(list: seq<Rider>)
    requires Distinct(Uids(list))
    ensures OneObjectEach(list)
  {
    if |list| > 0 {
      var n := |list| - 1;
      assert list[..n + 1] == list;
      OneMore(list, n);
      assert Uids(list[..n]) == Uids(list)[..n];
      hide FirstByUid, ByUid;
      DistinctLoads(list[..n]);
    }
  }

  function RowsOf(riders: Riders, k: int): KnownRiders
    reads riders.Values`x, riders.Values`y, riders.Values`count
  {
    map u | u in riders :: Known(k, riders[u].x, riders[u].y, riders[u].count)
  }

  function KeptRiders(riders: Riders, shards: Shards, k: int): Riders
    requires shards.Keys == riders.Keys
  {
    map u | u in riders && shards[u] != k :: riders[u]
  }

  function KeptShards(shards: Shards, k: int): Shards {
    map u | u in shards && shards[u] != k :: shards[u]
  }

  function PlacedAt(riders: Riders, k: int): Shards {
    map u | u in riders :: k
  }

  /** The grids of the other shards hold their riders. */
  ghost predicate OthersHold(grids: Grids, cellSize: int, riders: Riders, shards: Shards, k: int)
    requires shards.Keys == riders.Keys
    reads grids, KeptRiders(riders, shards, k).Values
  {
    forall j :: 0 <= j < |grids| && j != k ==> HoldsShard(grids[j], cellSize, Owned(riders, shards, j))
  }

  /** Somebody in the list is known in another shard. */
  predicate HeldElsewhere(list: seq<Rider>, shards: Shards, k: int) {
    exists r :: r in list && r.uid in shards && shards[r.uid] != k
  }

  lemma SwappedOwned(riders: Riders, shards: Shards, loaded: Riders, k: int, j: int)
    requires shards.Keys == riders.Keys && forall u :: u in loaded && u in shards ==> shards[u] == k
    ensures Owned(KeptRiders(riders, shards, k) + loaded, KeptShards(shards, k) + PlacedAt(loaded, k), j) ==
            if j == k then loaded else Owned(riders, shards, j)
  {
  }

  lemma LoadedIsApart(list: seq<Rider>, shards: Shards, k: int)
    requires !HeldElsewhere(list, shards, k)
    ensures forall u :: u in ByUid(list) && u in shards ==> shards[u] == k
  {
  }

  lemma MergeOne(riders: Riders, shards: Shards, loaded: Riders, rider: Rider, k: int)
    ensures (riders + loaded)[rider.uid := rider] == riders + loaded[rider.uid := rider]
    ensures (shards + PlacedAt(loaded, k))[rider.uid := k] == shards + PlacedAt(loaded[rider.uid := rider], k)
  {
  }

  lemma SwappedKeys(riders: Riders, shards: Shards, loaded: Riders, k: int, n: int)
    requires shards.Keys == riders.Keys && KeyedByUid(riders) && KeyedByUid(loaded) && 0 <= k < n
    requires forall u :: u in shards ==> 0 <= shards[u] < n
    ensures (KeptShards(shards, k) + PlacedAt(loaded, k)).Keys == (KeptRiders(riders, shards, k) + loaded).Keys
    ensures KeyedByUid(KeptRiders(riders, shards, k) + loaded)
    ensures var places := KeptShards(shards, k) + PlacedAt(loaded, k); forall u :: u in places ==> 0 <= places[u] < n
  {
  }

  lemma SwapShard(grids: Grids, cellSize: int, riders: Riders, shards: Shards, k: int, grid: GridIndex, loaded: Riders)
    requires 0 <= k < |grids| && KeyedByUid(loaded) && forall u :: u in loaded && u in shards ==> shards[u] == k
    requires shards.Keys == riders.Keys && KeyedByUid(riders) && forall u :: u in shards ==> 0 <= shards[u] < |grids|
    requires OthersHold(grids, cellSize, riders, shards, k) && HoldsShard(grid, cellSize, loaded)
    ensures Holds(grids[k := grid], cellSize, KeptRiders(riders, shards, k) + loaded,
                  KeptShards(shards, k) + PlacedAt(loaded, k))
  {
    SwappedKeys(riders, shards, loaded, k, |grids|);
    forall j | 0 <= j < |grids| {
      SwappedOwned(riders, shards, loaded, k, j);
    }
    hide HoldsShard, KeptRiders, KeptShards, PlacedAt, Owned;
  }

  lemma RowsRead(riders: Riders, k: int, rows: KnownRiders)
    ensures RowsOf(riders, k) == rows <==>
            && riders.Keys == rows.Keys
            && forall u :: u in riders ==> rows[u] == Known(k, riders[u].x, riders[u].y, riders[u].count)
  {
  }

  function WithoutShard(table: KnownRiders, k: int): KnownRiders {
    map u | u in table && table[u].shard != k :: table[u]
  }

  method AddNew(grid: GridIndex, ghost cellSize: int, ghost owned: Riders, rider: Rider)
    requires HoldsShard(grid, cellSize, owned) && rider.uid !in owned
    modifies grid, rider`online, rider`cellId
    ensures HoldsShard(grid, cellSize, owned[rider.uid := rider])
  {
    grid.FiledUnder(rider.uid);
    hide GridIndex.Valid, GridIndex.ValidExcept;
    grid.AddRider(rider);
  }

  /** The rider is in the grid already, as this object. */
  method AddAgain(grid: GridIndex, ghost cellSize: int, ghost owned: Riders, rider: Rider, ghost known: Rider)
    requires HoldsShard(grid, cellSize, owned) && rider.uid in owned && owned[rider.uid] == known
    modifies grid, rider`online, rider`cellId, known`x, known`y, known`online, known`cellId
    ensures HoldsShard(grid, cellSize, owned)
  {
    grid.FiledUnder(rider.uid);
    hide GridIndex.Valid, GridIndex.ValidExcept;
    grid.AddRider(rider);
  }

  lemma GridHas(grid: GridIndex, cellSize: int, owned: Riders)
    requires HoldsShard(grid, cellSize, owned)
    ensures grid.riders == owned
  {
  }

  lemma InPrefix(list: seq<Rider>, n: nat, r: Rider)
    requires n <= |list| && r in list[..n]
    ensures r in list
  {
  }

  ghost function Positions(list: seq<Rider>): map<Rider, (int, int)>
    reads list`x, list`y
  {
    map r | r in list :: (r.x, r.y)
  }

  lemma PositionsRead(list: seq<Rider>, positions: map<Rider, (int, int)>)
    ensures Positions(list) == positions <==>
            && (forall r :: r in list <==> r in positions)
            && forall r :: r in list ==> positions[r] == (r.x, r.y)
  {
  }

  method AddFresh(grid: GridIndex, ghost cellSize: int, list: seq<Rider>, n: nat)
    requires n < |list| && HoldsShard(grid, cellSize, FirstByUid(list[..n])) && list[n].uid !in FirstByUid(list[..n])
    modifies grid, list`online, list`cellId
    ensures HoldsShard(grid, cellSize, FirstByUid(list[..n + 1])) && Positions(list) == old(Positions(list))
  {
    OneMore(list, n);
    hide HoldsShard, FirstByUid, ByUid, Distinct, Uids, Positions;
    ghost var before := Positions(list);
    PositionsRead(list, before);
    AddNew(grid, cellSize, FirstByUid(list[..n]), list[n]);
    PositionsRead(list, before);
  }

  method AddRepeated(grid: GridIndex, ghost cellSize: int, list: seq<Rider>, n: nat)
    requires n < |list| && HoldsShard(grid, cellSize, FirstByUid(list[..n])) && list[n].uid in FirstByUid(list[..n])
    modifies grid, list`online, list`cellId, list`x, list`y
    ensures HoldsShard(grid, cellSize, FirstByUid(list[..n + 1]))
  {
    OneMore(list, n);
    ghost var owned := FirstByUid(list[..n]);
    ghost var known := owned[list[n].uid];
    hide HoldsShard, FirstByUid, ByUid, Distinct, Uids;
    InPrefix(list, n, known);
    AddAgain(grid, cellSize, owned, list[n], known);
  }

  lemma NextIsKnown(grid: GridIndex, cellSize: int, list: seq<Rider>, n: nat)
    requires n < |list| && HoldsShard(grid, cellSize, FirstByUid(list[..n]))
    ensures list[n].uid in grid.riders <==> list[n].uid in FirstByUid(list[..n])
    ensures Distinct(Uids(list)) ==> list[n].uid !in FirstByUid(list[..n])
  {
    OneMore(list, n);
  }

  method AddNext(grid: GridIndex, ghost cellSize: int, list: seq<Rider>, n: nat)
    requires n < |list| && HoldsShard(grid, cellSize, FirstByUid(list[..n]))
    modifies grid, list`online, list`cellId, list`x, list`y
    ensures HoldsShard(grid, cellSize, FirstByUid(list[..n + 1]))
    ensures Distinct(Uids(list)) ==> Positions(list) == old(Positions(list))
  {
    NextIsKnown(grid, cellSize, list, n);
    hide HoldsShard, FirstByUid, Distinct, Uids, Positions;
    if list[n].uid in grid.riders {
      AddRepeated(grid, cellSize, list, n);
    } else {
      AddFresh(grid, cellSize, list, n);
    }
  }

  /** With no rider named twice the objects stay where they are. */
  method BuildGrid(list: seq<Rider>, cellSize: int) returns (grid: GridIndex)
    requires cellSize >= 1
    modifies list`online, list`cellId, list`x, list`y
    ensures fresh(grid) && HoldsShard(grid, cellSize, FirstByUid(list))
    ensures Distinct(Uids(list)) ==> Positions(list) == old(Positions(list))
  {
    grid := new GridIndex(cellSize);
    assert FirstByUid(list[..0]) == map[];
    assert HoldsShard(grid, cellSize, map[]);
    hide HoldsShard, FirstByUid, Distinct, Uids, Positions;
    for n := 0 to |list|
      invariant fresh(grid) && HoldsShard(grid, cellSize, FirstByUid(list[..n]))
      invariant Distinct(Uids(list)) ==> Positions(list) == old(Positions(list))
    {
      AddNext(grid, cellSize, list, n);
    }
    assert list[..|list|] == list;
  }

  lemma KeptIsApart(riders: Riders, shards: Shards, k: int, list: seq<Rider>)
    requires shards.Keys == riders.Keys && KeyedByUid(riders)
    ensures !HeldElsewhere(list, shards, k) ==> forall r :: r in list ==> r !in KeptRiders(riders, shards, k).Values
  {
  }

  lemma Spoiled(grids: Grids, cellSize: int, riders: Riders, shards: Shards, loaded: Riders, k: int, u: Int64)
    requires shards.Keys == riders.Keys && u in loaded && u in shards && shards[u] != k && 0 <= shards[u] < |grids|
    requires grids[shards[u]].riders == Owned(riders, shards, shards[u])
    ensures !Holds(grids, cellSize, KeptRiders(riders, shards, k) + loaded, KeptShards(shards, k) + PlacedAt(loaded, k))
  {
    var j := shards[u];
    var more, places := KeptRiders(riders, shards, k) + loaded, KeptShards(shards, k) + PlacedAt(loaded, k);
    assert u in Owned(riders, shards, j) && u !in Owned(more, places, j);
    assert !HoldsShard(grids[j], cellSize, Owned(more, places, j));
  }

  lemma TwoObjects(grids: Grids, cellSize: int, riders: Riders, shards: Shards, k: int, loaded: Riders)
    requires 0 <= k < |grids| && grids[k].riders != loaded
    requires shards.Keys == riders.Keys && forall u :: u in loaded && u in shards ==> shards[u] == k
    ensures !Holds(grids, cellSize, KeptRiders(riders, shards, k) + loaded, KeptShards(shards, k) + PlacedAt(loaded, k))
  {
    SwappedOwned(riders, shards, loaded, k, k);
    var more, places := KeptRiders(riders, shards, k) + loaded, KeptShards(shards, k) + PlacedAt(loaded, k);
    assert !HoldsShard(grids[k], cellSize, Owned(more, places, k));
  }

  lemma StaysSeparate(grids: Grids, k: int, grid: GridIndex)
    requires Separate(grids) && 0 <= k < |grids| && grid !in grids
    ensures Separate(grids[k := grid])
  {
  }

  lemma SwapOrSpoil(grids: Grids, cellSize: int, riders: Riders, shards: Shards, k: int, grid: GridIndex,
                    list: seq<Rider>)
    requires 0 <= k < |grids|
    requires shards.Keys == riders.Keys && KeyedByUid(riders) && forall u :: u in shards ==> 0 <= shards[u] < |grids|
    requires !HeldElsewhere(list, shards, k) ==> OthersHold(grids, cellSize, riders, shards, k)
    requires forall j :: 0 <= j < |grids| ==> grids[j].riders == Owned(riders, shards, j)
    requires HoldsShard(grid, cellSize, FirstByUid(list))
    ensures Holds(grids[k := grid], cellSize, KeptRiders(riders, shards, k) + ByUid(list),
                  KeptShards(shards, k) + PlacedAt(ByUid(list), k))
            <==> !HeldElsewhere(list, shards, k) && OneObjectEach(list)
  {
    GridHas(grid, cellSize, FirstByUid(list));
    hide HoldsShard, Owned;
    if HeldElsewhere(list, shards, k) {
      var r :| r in list && r.uid in shards && shards[r.uid] != k;
      Spoiled(grids[k := grid], cellSize, riders, shards, ByUid(list), k, r.uid);
    } else {
      LoadedIsApart(list, shards, k);
      if OneObjectEach(list) {
        SwapShard(grids, cellSize, riders, shards, k, grid, ByUid(list));
      } else {
        TwoObjects(grids[k := grid], cellSize, riders, shards, k, ByUid(list));
      }
    }
  }

  lemma GridRiders(grids: Grids, cellSize: int, riders: Riders, shards: Shards)
    requires Holds(grids, cellSize, riders, shards)
    ensures forall j :: 0 <= j < |grids| ==> grids[j].riders == Owned(riders, shards, j)
  {
  }

  /** Builds the new grid of a shard; the other grids do not notice unless the list has a rider of theirs. */
  method BuildBeside(grids: Grids, cellSize: int, ghost riders: Riders, ghost shards: Shards, k: int, list: seq<Rider>)
    returns (grid: GridIndex)
    requires Holds(grids, cellSize, riders, shards) && cellSize >= 1
    modifies list`online, list`cellId, list`x, list`y
    ensures shards.Keys == riders.Keys && fresh(grid) && HoldsShard(grid, cellSize, FirstByUid(list))
    ensures Distinct(Uids(list)) ==> Positions(list) == old(Positions(list))
    ensures !HeldElsewhere(list, shards, k) ==> OthersHold(grids, cellSize, riders, shards, k)
    ensures forall j :: 0 <= j < |grids| ==> grids[j].riders == Owned(riders, shards, j)
  {
    KeptIsApart(riders, shards, k, list);
    GridRiders(grids, cellSize, riders, shards);
    assert OthersHold(grids, cellSize, riders, shards, k);
    hide Holds, HoldsShard, OthersHold, KeptRiders, HeldElsewhere, FirstByUid, Owned, Distinct, Uids, Positions;
    grid := BuildGrid(list, cellSize);
  }

  /** Puts the new grid of a shard in place of the old one. */
  method SwapGrid(grids: Grids, cellSize: int, ghost riders: Riders, ghost shards: Shards, k: int, list: seq<Rider>)
    returns (swapped: Grids)
    requires Separate(grids) && Holds(grids, cellSize, riders, shards) && cellSize >= 1
    requires 0 <= k < |grids|
    modifies list`online, list`cellId, list`x, list`y
    ensures Distinct(Uids(list)) ==> Positions(list) == old(Positions(list))
    ensures |swapped| == |grids| && Separate(swapped)
    ensures swapped == grids[k := swapped[k]] && fresh(swapped[k])
    ensures Holds(swapped, cellSize, KeptRiders(riders, shards, k) + ByUid(list),
                  KeptShards(shards, k) + PlacedAt(ByUid(list), k))
            <==> !HeldElsewhere(list, shards, k) && OneObjectEach(list)
  {
    assert shards.Keys == riders.Keys && KeyedByUid(riders) && forall u :: u in shards ==> 0 <= shards[u] < |grids|;
    hide Holds, HoldsShard, HeldElsewhere, OneObjectEach, ByUid, Owned, Separate, Distinct, Uids, Positions,
         KeptRiders, KeptShards, PlacedAt;
    var grid := BuildBeside(grids, cellSize, riders, shards, k, list);
    swapped := grids[k := grid];
    StaysSeparate(grids, k, grid);
    SwapOrSpoil(grids, cellSize, riders, shards, k, grid, list);
  }

  lemma TableMerged(riders: Riders, shards: Shards, k: int, loaded: Riders)
    requires shards.Keys == riders.Keys
    ensures (shards + PlacedAt(loaded, k)).Keys == (riders + loaded).Keys
    ensures TableOf(riders + loaded, shards + PlacedAt(loaded, k)) == TableOf(riders, shards) + RowsOf(loaded, k)
  {
    var more, places := riders + loaded, shards + PlacedAt(loaded, k);
    var kept, rows := TableOf(riders, shards), RowsOf(loaded, k);
    assert places.Keys == more.Keys;
    TableReads(riders, shards, kept);
    RowsRead(loaded, k, rows);
    hide TableOf, RowsOf;
    forall u | u in more ensures (kept + rows)[u] == Known(places[u], more[u].x, more[u].y, more[u].count) {
      if u in loaded {
        assert places[u] == k && (kept + rows)[u] == rows[u];
      } else {
        assert places[u] == shards[u] && (kept + rows)[u] == kept[u];
      }
    }
    hide PlacedAt;
    TableReads(more, places, kept + rows);
  }

  method EmptyGrids(n: int, cellSize: int) returns (grids: Grids)
    requires n >= 1 && cellSize >= 1
    ensures |grids| == n && Separate(grids) && (forall i :: 0 <= i < |grids| ==> fresh(grids[i]))
    ensures Holds(grids, cellSize, map[], map[])
  {
    grids := [];
    while |grids| < n
      invariant |grids| <= n && Separate(grids) && (forall i :: 0 <= i < |grids| ==> fresh(grids[i]))
      invariant Holds(grids, cellSize, map[], map[])
      decreases n - |grids|
    {
      var grid := new GridIndex(cellSize);
      grids := grids + [grid];
    }
  }

  lemma NothingLoaded(riders: Riders, shards: Shards, k: int)
    requires shards.Keys == riders.Keys
    ensures !HeldElsewhere([], shards, k) && OneObjectEach([])
    ensures KeptRiders(riders, shards, k) + ByUid([]) == KeptRiders(riders, shards, k)
    ensures KeptShards(shards, k) + PlacedAt(ByUid([]), k) == KeptShards(shards, k)
  {
  }

  lemma TableWithout(riders: Riders, shards: Shards, k: int)
    requires shards.Keys == riders.Keys
    ensures KeptShards(shards, k).Keys == KeptRiders(riders, shards, k).Keys
    ensures TableOf(KeptRiders(riders, shards, k), KeptShards(shards, k)) == WithoutShard(TableOf(riders, shards), k)
  {
  }

  // ---------------------------------------------------------------------------------------------
  // Searching
  // ---------------------------------------------------------------------------------------------

  function SeenAs(cellSize: int, u: Int64, known: Known): Seen
    requires cellSize >= 1
  {
    Seen(known.shard, Row(CellID(cellSize, known.x, known.y), RiderCandidate(u, known.x, known.y, known.count)))
  }

  /** What a search sees of the plain table. */
  ghost function ViewOf(cellSize: int, table: KnownRiders): (view: View)
    requires cellSize >= 1
    ensures KeyedView(view)
  {
    map u | u in table :: SeenAs(cellSize, u, table[u])
  }

  /** A shard's grid and the plain table agree. */
  lemma GridAgrees(grid: GridIndex, cellSize: int, riders: Riders, shards: Shards, k: int)
    requires shards.Keys == riders.Keys && cellSize >= 1 && HoldsShard(grid, cellSize, Owned(riders, shards, k))
    ensures grid.AsTable() == ShardTable(ViewOf(cellSize, TableOf(riders, shards)), k)
  {
    forall u | u in Owned(riders, shards, k)
      ensures grid.AsTable()[u] == SeenAs(cellSize, u, TableOf(riders, shards)[u]).row
    {
      assert Shows(grid.riders[u], u, grid.spots[u]);
    }
  }

  /** How many columns the rider's cell is from the order's, modulo 2^32. */
  function ColumnsApart(q: Query, known: Known): int
    requires Sound(q)
  {
    WrapInt32(Quotient(known.x, q.cellSize) - Quotient(q.x, q.cellSize))
  }

  function RowsApart(q: Query, known: Known): int
    requires Sound(q)
  {
    WrapInt32(Quotient(known.y, q.cellSize) - Quotient(q.y, q.cellSize))
  }

  /** The rider's cell is more than `inner` and at most `outer` cells away, on the axis where it is farther. */
  predicate InReach(q: Query, known: Known, inner: int, outer: int)
    requires Sound(q)
  {
    InRing(ColumnsApart(q, known), RowsApart(q, known), inner, outer)
  }

  /** A stage holds exactly the riders a scan of the plain table would pick. */
  lemma StageIsBruteForce(q: Query, u: Int64, known: Known, s: nat)
    requires Sound(q) && s < STAGES
    ensures InStage(q, s, SeenAs(q.cellSize, u, known)) <==>
            && InGroup(q.layout, ShardID(q.layout, q.x, q.y), GroupAt(s / 3), known.shard)
            && IsActive(q.active, known.shard)
            && InReach(q, known, InnerAt(s % 3), OuterAt(s % 3))
  {
    SearchIsBruteForce(Quotient(q.x, q.cellSize), Quotient(q.y, q.cellSize), InnerAt(s % 3), OuterAt(s % 3),
                       Quotient(known.x, q.cellSize), Quotient(known.y, q.cellSize));
  }

  /** Every active rider within eight cells belongs to exactly one stage, whatever shard it is in. */
  lemma StageOf(q: Query, u: Int64, known: Known) returns (s: nat)
    requires Sound(q) && InRange(q.layout, known.shard)
    requires IsActive(q.active, known.shard) && InReach(q, known, -1, 8)
    ensures s < STAGES && InStage(q, s, SeenAs(q.cellSize, u, known))
  {
    var home := ShardID(q.layout, q.x, q.y);
    GroupsPartitionTheShards(q.layout, home, known.shard);
    var dx, dy := ColumnsApart(q, known), RowsApart(q, known);
    RingsPartitionRadiusEight(dx, dy);
    var g :=
      if InGroup(q.layout, home, Home, known.shard) then 0
      else if InGroup(q.layout, home, Neighbours, known.shard) then 1
      else 2;
    var r := if InRing(dx, dy, -1, 1) then 0 else if InRing(dx, dy, 1, 3) then 1 else 2;
    s := 3 * g + r;
    StageCoordinates(g, r);
    StageIsBruteForce(q, u, known, s);
  }

  lemma ReachableIsPooled(q: Query, table: KnownRiders, u: Int64)
    requires Sound(q) && u in table && InRange(q.layout, table[u].shard)
    requires IsActive(q.active, table[u].shard) && InReach(q, table[u], -1, 8)
    ensures exists s: nat :: s < STAGES && StagePool(q, ViewOf(q.cellSize, table), s) != map[]
  {
    var s := StageOf(q, u, table[u]);
    assert u in StagePool(q, ViewOf(q.cellSize, table), s);
  }

  lemma AnsweredIsReachable(q: Query, table: KnownRiders, limit: nat, best: seq<Candidate>)
    requires Sound(q) && limit > 0 && Answers(q, ViewOf(q.cellSize, table), limit, best) && best != []
    ensures exists u :: u in table && IsActive(q.active, table[u].shard) && InReach(q, table[u], -1, 8)
  {
    var view := ViewOf(q.cellSize, table);
    var s: nat :| s < STAGES && First(q, view, s) && IsBest(best, StagePool(q, view, s), limit);
    assert best[0] in best;
    var u := best[0].riderId;
    assert u in table && InStage(q, s, SeenAs(q.cellSize, u, table[u]));
    hide Answers, First, IsBest, StagePool, ViewOf, InStage, Sound;
    StageIsBruteForce(q, u, table[u], s);
    assert InReach(q, table[u], InnerAt(s % 3), OuterAt(s % 3));
  }

  /** A search comes back empty exactly when no active rider is within eight cells, in whatever shard. */
  lemma EmptyExactlyWhen(q: Query, table: KnownRiders, limit: nat, best: seq<Candidate>)
    requires Sound(q) && limit > 0 && Answers(q, ViewOf(q.cellSize, table), limit, best)
    requires forall u :: u in table ==> InRange(q.layout, table[u].shard)
    ensures best == [] <==>
            forall u :: u in table ==> !(IsActive(q.active, table[u].shard) && InReach(q, table[u], -1, 8))
  {
    var view := ViewOf(q.cellSize, table);
    if best == [] {
      EmptyStages(q, view, limit);
      forall u | u in table ensures !(IsActive(q.active, table[u].shard) && InReach(q, table[u], -1, 8)) {
        if IsActive(q.active, table[u].shard) && InReach(q, table[u], -1, 8) {
          ReachableIsPooled(q, table, u);
        }
      }
    } else {
      AnsweredIsReachable(q, table, limit, best);
    }
  }

  // ---------------------------------------------------------------------------------------------
  // The answer in plain terms
  // ---------------------------------------------------------------------------------------------

  /** The order's own shard comes first, then those a column and a row away at most, then all others. */
  function GroupTurn(q: Query, shard: int): (turn: nat)
    requires Sound(q)
    ensures turn < 3
  {
    var home, cols := ShardID(q.layout, q.x, q.y), q.layout.shardCols;
    if shard == home then 0
    else if -1 <= shard % cols - home % cols <= 1 && -1 <= shard / cols - home / cols <= 1 then 1
    else 2
  }

  /** Within a group of shards, whoever is one cell away at most comes first, then within three and within eight. */
  function RingTurn(dx: int, dy: int): (turn: nat)
    ensures turn <= 3
  {
    if -1 <= dx <= 1 && -1 <= dy <= 1 then 0
    else if -3 <= dx <= 3 && -3 <= dy <= 3 then 1
    else if -8 <= dx <= 8 && -8 <= dy <= 8 then 2
    else 3
  }

  /** When the search meets a rider, if it does. */
  function Turn(q: Query, known: Known): (turn: Option<nat>)
    requires Sound(q)
    ensures turn.Some? ==> turn.value < STAGES
  {
    var ring := RingTurn(ColumnsApart(q, known), RowsApart(q, known));
    if 0 <= known.shard < |q.active| && q.active[known.shard] && ring < 3
    then Some(3 * GroupTurn(q, known.shard) + ring) else None
  }

  function CostOf(q: Query, known: Known): int
    requires Sound(q)
  {
    Cost(q, known.x, known.y, known.count)
  }

  /** Nobody has an earlier turn. */
  ghost predicate HasFirstTurn(q: Query, table: KnownRiders, u: Int64)
    requires Sound(q)
  {
    && u in table && Turn(q, table[u]).Some?
    && forall v :: v in table && Turn(q, table[v]).Some? ==> Turn(q, table[u]).value <= Turn(q, table[v]).value
  }

  /** The cheaper first, and of two that cost the same the one with the smaller id. */
  predicate Precedes(a: Candidate, b: Candidate) {
    if a.score == b.score then a.riderId < b.riderId else a.score < b.score
  }

  /** The answer lists riders with the first turn at their cost, cheapest first and then by id; one of them left out
      comes after all that are listed, and only the limit keeps it out. */
  ghost predicate ListsCheapest(q: Query, table: KnownRiders, limit: nat, best: seq<Candidate>)
    requires Sound(q)
  {
    && |best| <= limit
    && (forall c :: c in best ==> HasFirstTurn(q, table, c.riderId) && c.score == CostOf(q, table[c.riderId]))
    && (forall i, j :: 0 <= i < j < |best| ==> Precedes(best[i], best[j]))
    && (forall u :: HasFirstTurn(q, table, u) && Candidate(u, CostOf(q, table[u])) !in best ==>
                      && |best| == limit
                      && forall c :: c in best ==> Precedes(c, Candidate(u, CostOf(q, table[u]))))
  }

  lemma GroupTurnIs(q: Query, shard: int, g: nat)
    requires Sound(q) && InRange(q.layout, shard) && g < 3
    ensures InGroup(q.layout, ShardID(q.layout, q.x, q.y), GroupAt(g), shard) <==> GroupTurn(q, shard) == g
  {
    assert InRange(q.layout, ShardID(q.layout, q.x, q.y));
    hide ShardID, ShardLayout.Valid;
  }

  lemma RingTurnIs(dx: int, dy: int, r: nat)
    requires r < 3
    ensures InRing(dx, dy, InnerAt(r), OuterAt(r)) <==> RingTurn(dx, dy) == r
  {
  }

  lemma TurnNumber(g: nat, r: nat, s: nat)
    requires r < 3
    ensures 3 * g + r == s <==> s / 3 == g && s % 3 == r
  {
  }

  /** The stage's three conditions, taken together, fix the turn. */
  lemma TurnIs(q: Query, known: Known, s: nat)
    requires Sound(q)
    ensures Turn(q, known) == Some(s) <==>
            && IsActive(q.active, known.shard) && GroupTurn(q, known.shard) == s / 3
            && RingTurn(ColumnsApart(q, known), RowsApart(q, known)) == s % 3
  {
    hide Sound, GroupTurn, RingTurn, ColumnsApart, RowsApart;
    TurnNumber(GroupTurn(q, known.shard), s % 3, s);
  }

  lemma TurnIsStage(q: Query, u: Int64, known: Known, s: nat)
    requires Sound(q) && InRange(q.layout, known.shard) && s < STAGES
    ensures InStage(q, s, SeenAs(q.cellSize, u, known)) <==> Turn(q, known) == Some(s)
  {
    StageIsBruteForce(q, u, known, s);
    GroupTurnIs(q, known.shard, s / 3);
    RingTurnIs(ColumnsApart(q, known), RowsApart(q, known), s % 3);
    TurnIs(q, known, s);
    hide InStage, SeenAs, ColumnsApart, RowsApart, GroupTurn, RingTurn, InGroup, GroupAt, InRing, Sound, Turn, ShardID;
  }

  ghost predicate AllInRange(q: Query, table: KnownRiders) {
    forall u :: u in table ==> InRange(q.layout, table[u].shard)
  }

  lemma PoolHasTurn(q: Query, table: KnownRiders, s: nat)
    requires Sound(q) && s < STAGES && AllInRange(q, table)
    ensures var pool := StagePool(q, ViewOf(q.cellSize, table), s);
            && (forall u :: u in pool <==> u in table && Turn(q, table[u]) == Some(s))
            && (forall u :: u in pool ==> pool[u] == CostOf(q, table[u]))
  {
    assert q.cellSize >= 1;
    PoolCosts(q, ViewOf(q.cellSize, table), s);
    hide InStage, Score, Turn, Cost, Sound;
    forall u | u in table
      ensures InStage(q, s, SeenAs(q.cellSize, u, table[u])) <==> Turn(q, table[u]) == Some(s)
    {
      TurnIsStage(q, u, table[u], s);
    }
  }

  ghost predicate Taken(q: Query, table: KnownRiders, turn: nat)
    requires Sound(q)
  {
    exists u :: u in table && Turn(q, table[u]) == Some(turn)
  }

  lemma NoTurn(q: Query, table: KnownRiders, s: nat)
    requires Sound(q) && s < STAGES && AllInRange(q, table) && StagePool(q, ViewOf(q.cellSize, table), s) == map[]
    ensures !Taken(q, table, s)
  {
    PoolHasTurn(q, table, s);
    hide StagePool, Turn, ViewOf, Sound;
  }

  lemma TakenBy(q: Query, table: KnownRiders, u: Int64)
    requires Sound(q) && u in table && Turn(q, table[u]).Some?
    ensures Taken(q, table, Turn(q, table[u]).value)
  {
  }

  lemma FirstIsTaken(q: Query, table: KnownRiders, s: nat)
    requires Sound(q) && s < STAGES && AllInRange(q, table) && First(q, ViewOf(q.cellSize, table), s)
    ensures Taken(q, table, s) && forall t: nat :: t < s ==> !Taken(q, table, t)
  {
    var pool := StagePool(q, ViewOf(q.cellSize, table), s);
    PoolHasTurn(q, table, s);
    hide StagePool, Turn, ViewOf, Sound;
    var w :| w in pool;
    assert Turn(q, table[w]) == Some(s);
    forall t: nat | t < s ensures !Taken(q, table, t) {
      NoTurn(q, table, t);
    }
  }

  lemma FirstTurn(q: Query, table: KnownRiders, s: nat)
    requires Sound(q) && Taken(q, table, s) && forall t: nat :: t < s ==> !Taken(q, table, t)
    ensures forall u :: HasFirstTurn(q, table, u) <==> u in table && Turn(q, table[u]) == Some(s)
  {
    hide Turn, Sound;
    var w :| w in table && Turn(q, table[w]) == Some(s);
    hide Taken;
    forall v | v in table && Turn(q, table[v]).Some? ensures s <= Turn(q, table[v]).value {
      TakenBy(q, table, v);
    }
  }

  lemma BestIsCheapest(q: Query, table: KnownRiders, limit: nat, best: seq<Candidate>, pool: Pool)
    requires Sound(q) && IsBest(best, pool, limit)
    requires forall u :: u in pool <==> HasFirstTurn(q, table, u)
    requires forall u :: u in pool ==> u in table && pool[u] == CostOf(q, table[u])
    ensures ListsCheapest(q, table, limit, best)
  {
    hide Sound, Turn, CostOf, HasFirstTurn;
    forall u | u in pool && Candidate(u, CostOf(q, table[u])) !in best
      ensures |best| == limit
      ensures forall c :: c in best ==> Precedes(c, Candidate(u, CostOf(q, table[u])))
    {
      assert InPool(pool, Candidate(u, CostOf(q, table[u])));
    }
  }

  lemma NobodyToList(q: Query, table: KnownRiders)
    requires Sound(q) && forall s: nat :: s < STAGES ==> !Taken(q, table, s)
    ensures forall u :: !HasFirstTurn(q, table, u)
  {
    forall u | u in table ensures Turn(q, table[u]).Some? ==> Taken(q, table, Turn(q, table[u]).value) {
      if Turn(q, table[u]).Some? { TakenBy(q, table, u); }
    }
  }

  lemma CostGrows(distance: nat, farther: nat, unit: int, count: int, more: int, weight: int)
    requires unit > 0 && weight >= 0 && distance <= farther && count <= more
    ensures distance / unit + count * weight <= farther / unit + more * weight
  {
    ProductNonNegative(more - count, weight);
    Distributes(weight, more, count);
    assert distance == unit * (distance / unit) + distance % unit;
    QuotientIsAtLeast(farther, unit, distance / unit);
  }

  /** The nearer and the less loaded win: a rider with the first turn that is left out although it is as near as one
      that is listed and has no more orders is exactly as good and has the greater id. */
  lemma NearerAndLessLoadedWin(q: Query, table: KnownRiders, limit: nat, best: seq<Candidate>, c: Candidate, u: Int64)
    requires Sound(q) && q.scoreUnit > 0 && q.loadWeight >= 0 && ListsCheapest(q, table, limit, best)
    requires c in best && HasFirstTurn(q, table, u) && forall b :: b in best ==> b.riderId != u
    requires Apart(q, table[u].x, table[u].y) <= Apart(q, table[c.riderId].x, table[c.riderId].y)
    requires table[u].count <= table[c.riderId].count
    ensures CostOf(q, table[u]) == c.score && c.riderId < u
  {
    CostGrows(Apart(q, table[u].x, table[u].y), Apart(q, table[c.riderId].x, table[c.riderId].y), q.scoreUnit,
              table[u].count, table[c.riderId].count, q.loadWeight);
    assert CostOf(q, table[u]) <= CostOf(q, table[c.riderId]);
    hide CostOf, Sound, Turn, HasFirstTurn, Apart;
  }

  /** The answer of the nine stages, in plain terms. */
  lemma AnswerListsCheapest(q: Query, table: KnownRiders, limit: nat, best: seq<Candidate>)
    requires Sound(q) && limit > 0 && Answers(q, ViewOf(q.cellSize, table), limit, best) && AllInRange(q, table)
    ensures ListsCheapest(q, table, limit, best)
  {
    var view := ViewOf(q.cellSize, table);
    hide ViewOf, Sound, Turn, CostOf, StagePool, First, HasFirstTurn, IsBest;
    if s: nat :| s < STAGES && First(q, view, s) && IsBest(best, StagePool(q, view, s), limit) {
      FirstIsTaken(q, table, s);
      FirstTurn(q, table, s);
      PoolHasTurn(q, table, s);
      BestIsCheapest(q, table, limit, best, StagePool(q, view, s));
    } else {
      forall s: nat | s < STAGES ensures !Taken(q, table, s) {
        NoTurn(q, table, s);
      }
      NobodyToList(q, table);
    }
  }

  lemma ValuesAfterPut(riders: Riders, u: Int64, rider: Rider)
    ensures riders[u := rider].Values <= riders.Values + {rider}
  {
  }

  lemma ValuesWithout(riders: Riders, u: Int64)
    ensures (riders - {u}).Values <= riders.Values
  {
  }

  lemma ValuesAfterLoad(riders: Riders, shards: Shards, k: int, list: seq<Rider>)
    requires shards.Keys == riders.Keys
    ensures (KeptRiders(riders, shards, k) + ByUid(list)).Values <= riders.Values + (set r | r in list)
    ensures KeptRiders(riders, shards, k).Values <= riders.Values
  {
  }

  class Index {
    const layout: Layout
    const cellSize: int
    const loadWeight: int
    /** The cell size its grids fall back to when it was given none. */
    const gridSize: int
    var matchers: Grids
    var activeShards: seq<bool>
    var riders: Riders
    var riderShards: Shards

    ghost predicate Valid()
      reads this, matchers, riders.Values
    {
      && ShardLayout.Valid(layout) && gridSize == (if cellSize <= 0 then 1 else cellSize)
      && |matchers| == |activeShards| == layout.shardCount
      && Separate(matchers) && Holds(matchers, gridSize, riders, riderShards)
    }

    ghost function AsTable(): KnownRiders
      requires riderShards.Keys == riders.Keys
      reads this, riders.Values
    {
      TableOf(riders, riderShards)
    }

    /** The shard count defaults to one, and the grids' cell size as well. */
    constructor (shardCount: int, cellSize: int, areaSize: int, loadWeight: int)
      ensures Valid() && AsTable() == map[] && forall k :: 0 <= k < |activeShards| ==> !activeShards[k]
      ensures riders == map[] && forall i :: 0 <= i < |matchers| ==> fresh(matchers[i])
      ensures layout == NewLayout(areaSize, cellSize, shardCount)
      ensures this.cellSize == cellSize && this.loadWeight == loadWeight
    {
      var count := if shardCount <= 0 then 1 else shardCount;
      var size := if cellSize <= 0 then 1 else cellSize;
      var grids := EmptyGrids(count, size);
      hide Holds;
      NewLayoutIsValid(areaSize, cellSize, shardCount);
      this.layout := NewLayout(areaSize, cellSize, shardCount);
      this.cellSize := cellSize;
      this.loadWeight := loadWeight;
      gridSize := size;
      matchers := grids;
      activeShards := seq(count, _ => false);
      riders := map[];
      riderShards := map[];
    }

    lemma Consistent()
      requires Valid()
      ensures riderShards.Keys == riders.Keys && KeyedByUid(riders)
      ensures forall u :: u in riderShards ==> 0 <= riderShards[u] < |matchers|
    {
    }

    /** The known rider's object, or a new one. */
    method RiderFor(u: Int64) returns (rider: Rider)
      requires KeyedByUid(riders)
      ensures rider.uid == u
      ensures u in riders ==> rider == riders[u]
      ensures u !in riders ==> fresh(rider) && rider.count == 0
    {
      if u in riders {
        rider := riders[u];
      } else {
        rider := new Rider(u, 0, 0);
      }
    }

    method ResettleAt(rider: Rider, k: int, x: int, y: int)
      requires Separate(matchers) && Holds(matchers, gridSize, riders, riderShards) && 0 <= k < |matchers|
      requires rider.uid in riders ==> riders[rider.uid] == rider
      modifies this`riders, this`riderShards, matchers, rider
      ensures riders == old(riders)[rider.uid := rider] && riderShards == old(riderShards)[rider.uid := k]
      ensures Holds(matchers, gridSize, riders, riderShards)
      ensures rider.x == x && rider.y == y && rider.count == old(rider.count)
    {
      Resettle(matchers, gridSize, riders, riderShards, rider, k, x, y);
      hide Holds;
      riders := riders[rider.uid := rider];
      riderShards := riderShards[rider.uid := k];
    }

    method MoveRow(rider: Rider, k: int, x: int, y: int)
      requires Separate(matchers) && Holds(matchers, gridSize, riders, riderShards) && 0 <= k < |matchers|
      requires riderShards.Keys == riders.Keys && (rider.uid in riders ==> riders[rider.uid] == rider)
      modifies this`riders, this`riderShards, matchers, rider
      ensures Holds(matchers, gridSize, riders, riderShards) && riderShards.Keys == riders.Keys
      ensures AsTable() == old(AsTable())[rider.uid := Known(k, x, y, old(rider.count))]
      ensures riders.Values <= old(riders.Values) + {rider}
    {
      assert KeyedByUid(riders);
      ValuesAfterPut(riders, rider.uid, rider);
      hide Holds, TableOf;
      ghost var before, row := AsTable(), Known(k, x, y, rider.count);
      TableReads(riders, riderShards, before);
      ResettleAt(rider, k, x, y);
      TableReads(riders, riderShards, before[rider.uid := row]);
    }

    /** Moves the object to the shard of its new position and records it. */
    method SettleAt(rider: Rider, x: int, y: int)
      requires Valid() && (rider.uid in riders ==> riders[rider.uid] == rider)
      modifies this`riders, this`riderShards, matchers, rider
      ensures Valid() && AsTable() == old(AsTable())[rider.uid := Known(ShardID(layout, x, y), x, y, old(rider.count))]
      ensures riders.Values <= old(riders.Values) + {rider}
    {
      Consistent();
      hide ShardLayout.Valid, Holds, TableOf;
      MoveRow(rider, ShardID(layout, x, y), x, y);
    }

    method ApplyOnline(u: Int64, x: int, y: int)
      requires Valid()
      modifies this`riders, this`riderShards, matchers, riders.Values
      ensures Valid() && AsTable() == Applied(layout, old(AsTable()), Online(u, x, y))
      ensures fresh(riders.Values - old(riders.Values))
    {
      Consistent();
      hide ShardLayout.Valid, Holds;
      var rider := RiderFor(u);
      SettleAt(rider, x, y);
    }

    method ApplyMove(u: Int64, x: int, y: int)
      requires Valid()
      modifies this`riders, this`riderShards, matchers, riders.Values
      ensures Valid() && AsTable() == Applied(layout, old(AsTable()), Move(u, x, y))
      ensures fresh(riders.Values - old(riders.Values))
    {
      Consistent();
      hide ShardLayout.Valid, Holds;
      if u !in riderShards { return; }
      var k := riderShards[u];
      if k == ShardID(layout, x, y) {
        MoveWithin(matchers, gridSize, riders, riderShards, u, k, x, y);
      } else {
        SettleAt(riders[u], x, y);
      }
    }

    method Forget(u: Int64)
      requires Separate(matchers) && Holds(matchers, gridSize, riders, riderShards) && u in riders
      modifies this`riders, this`riderShards, matchers, riders[u]
      ensures riders == old(riders) - {u} && riderShards == old(riderShards) - {u}
      ensures Holds(matchers, gridSize, riders, riderShards)
    {
      Detach(matchers, gridSize, riders, riderShards, u, riderShards[u]);
      hide Holds;
      riders := riders - {u};
      riderShards := riderShards - {u};
    }

    method ApplyOffline(u: Int64)
      requires Valid()
      modifies this`riders, this`riderShards, matchers, riders.Values
      ensures Valid() && AsTable() == Applied(layout, old(AsTable()), Offline(u))
      ensures fresh(riders.Values - old(riders.Values))
    {
      Consistent();
      hide ShardLayout.Valid, Holds, TableOf;
      if u !in riderShards { return; }
      ghost var before := AsTable();
      TableReads(riders, riderShards, before);
      ValuesWithout(riders, u);
      Forget(u);
      TableReads(riders, riderShards, before - {u});
    }

    method ApplyRiderEvent(event: RiderEvent)
      requires Valid()
      modifies this`riders, this`riderShards, matchers, riders.Values
      ensures Valid() && AsTable() == Applied(layout, old(AsTable()), event)
      ensures fresh(riders.Values - old(riders.Values))
    {
      match event
      case Online(u, x, y) => ApplyOnline(u, x, y);
      case Move(u, x, y) => ApplyMove(u, x, y);
      case Offline(u) => ApplyOffline(u);
    }

    /** Drops the riders of a shard from the two maps. */
    method ForgetShard(k: int)
      requires riderShards.Keys == riders.Keys
      modifies this`riders, this`riderShards
      ensures riders == KeptRiders(old(riders), old(riderShards), k)
      ensures riderShards == KeptShards(old(riderShards), k)
    {
      var pending := riderShards.Keys;
      while pending != {}
        invariant pending <= riderShards.Keys == riders.Keys <= old(riders).Keys
        invariant forall u :: u in riders ==> riders[u] == old(riders)[u] && riderShards[u] == old(riderShards)[u]
        invariant forall u :: u in old(riders) && u !in riders ==> old(riderShards)[u] == k
        invariant forall u :: u in riders && u !in pending ==> riderShards[u] != k
        decreases |pending|
      {
        var u :| u in pending;
        pending := pending - {u};
        if riderShards[u] == k {
          riders := riders - {u};
          riderShards := riderShards - {u};
        }
      }
    }

    /** Enters the riders of a shard into the two maps. */
    method RecordShard(list: seq<Rider>, k: int)
      modifies this`riders, this`riderShards
      ensures riders == old(riders) + ByUid(list)
      ensures riderShards == old(riderShards) + PlacedAt(ByUid(list), k)
    {
      assert ByUid(list[..0]) == map[] && PlacedAt(map[], k) == map[];
      hide ByUid, PlacedAt;
      for n := 0 to |list|
        invariant riders == old(riders) + ByUid(list[..n])
        invariant riderShards == old(riderShards) + PlacedAt(ByUid(list[..n]), k)
      {
        OneMore(list, n);
        MergeOne(old(riders), old(riderShards), ByUid(list[..n]), list[n], k);
        riders := riders[list[n].uid := list[n]];
        riderShards := riderShards[list[n].uid := k];
      }
      assert list[..|list|] == list;
    }

    method SwapIn(ghost all: Riders, ghost shards: Shards, k: int, list: seq<Rider>, active: bool)
      requires Separate(matchers) && Holds(matchers, gridSize, all, shards) && gridSize >= 1
      requires 0 <= k < |matchers| == |activeShards|
      modifies this`matchers, this`activeShards, list`online, list`cellId, list`x, list`y
      ensures Distinct(Uids(list)) ==> Positions(list) == old(Positions(list))
      ensures activeShards == old(activeShards)[k := active]
      ensures |matchers| == old(|matchers|) && Separate(matchers)
      ensures forall i :: 0 <= i < |matchers| ==> matchers[i] in old(matchers) || fresh(matchers[i])
      ensures Holds(matchers, gridSize, KeptRiders(all, shards, k) + ByUid(list),
                    KeptShards(shards, k) + PlacedAt(ByUid(list), k))
              <==> !HeldElsewhere(list, shards, k) && OneObjectEach(list)
    {
      hide Holds, KeptRiders, KeptShards, PlacedAt, HeldElsewhere, OneObjectEach, ByUid, Separate, Distinct, Uids,
           Positions;
      var swapped := SwapGrid(matchers, gridSize, all, shards, k, list);
      matchers := swapped;
      activeShards := activeShards[k := active];
    }

    method Exchange(k: int, list: seq<Rider>)
      requires Separate(matchers) && riderShards.Keys == riders.Keys && Holds(matchers, gridSize, riders, riderShards)
      requires 0 <= k < |matchers| == |activeShards| && gridSize >= 1
      modifies this`matchers, this`activeShards, this`riders, this`riderShards
      modifies list`online, list`cellId, list`x, list`y
      ensures Distinct(Uids(list)) ==> Positions(list) == old(Positions(list))
      ensures activeShards == old(activeShards)[k := true]
      ensures riders == KeptRiders(old(riders), old(riderShards), k) + ByUid(list)
      ensures riderShards == KeptShards(old(riderShards), k) + PlacedAt(ByUid(list), k)
      ensures |matchers| == old(|matchers|) && Separate(matchers)
      ensures forall i :: 0 <= i < |matchers| ==> matchers[i] in old(matchers) || fresh(matchers[i])
      ensures Holds(matchers, gridSize, riders, riderShards) <==>
              !HeldElsewhere(list, old(riderShards), k) && OneObjectEach(list)
    {
      hide Holds, KeptRiders, KeptShards, PlacedAt, HeldElsewhere, OneObjectEach, ByUid, Separate, Distinct, Uids,
           Positions;
      ghost var all, shards := riders, riderShards;
      ForgetShard(k);
      SwapIn(all, shards, k, list, true);
      RecordShard(list, k);
    }

    /** Riders of other shards that are not in the list stay as they are. */
    method ExchangeKeeping(k: int, list: seq<Rider>, ghost kept: KnownRiders)
      requires Separate(matchers) && riderShards.Keys == riders.Keys && Holds(matchers, gridSize, riders, riderShards)
      requires 0 <= k < |matchers| == |activeShards| && gridSize >= 1
      requires KeptShards(riderShards, k).Keys == KeptRiders(riders, riderShards, k).Keys
      requires kept == TableOf(KeptRiders(riders, riderShards, k), KeptShards(riderShards, k))
      modifies this`matchers, this`activeShards, this`riders, this`riderShards
      modifies list`online, list`cellId, list`x, list`y
      ensures Distinct(Uids(list)) ==> Positions(list) == old(Positions(list))
      ensures activeShards == old(activeShards)[k := true]
      ensures riders == KeptRiders(old(riders), old(riderShards), k) + ByUid(list)
      ensures riderShards == KeptShards(old(riderShards), k) + PlacedAt(ByUid(list), k)
      ensures |matchers| == old(|matchers|) && Separate(matchers)
      ensures forall i :: 0 <= i < |matchers| ==> matchers[i] in old(matchers) || fresh(matchers[i])
      ensures Holds(matchers, gridSize, riders, riderShards) <==>
              !HeldElsewhere(list, old(riderShards), k) && OneObjectEach(list)
      ensures !HeldElsewhere(list, old(riderShards), k) ==>
                kept == TableOf(KeptRiders(old(riders), old(riderShards), k), KeptShards(old(riderShards), k))
    {
      assert KeyedByUid(riders);
      KeptIsApart(riders, riderShards, k, list);
      hide Holds, TableOf, KeptRiders, KeptShards, PlacedAt, HeldElsewhere, OneObjectEach, ByUid, Separate,
           Distinct, Uids, Positions;
      ghost var others, places := KeptRiders(riders, riderShards, k), KeptShards(riderShards, k);
      ghost var apart := !HeldElsewhere(list, riderShards, k);
      TableReads(others, places, kept);
      Exchange(k, list);
      if apart {
        TableReads(others, places, kept);
      }
    }

    method Load(k: int, list: seq<Rider>)
      requires Valid() && 0 <= k < |matchers|
      modifies this`matchers, this`activeShards, this`riders, this`riderShards
      modifies list`online, list`cellId, list`x, list`y
      ensures Distinct(Uids(list)) ==> Positions(list) == old(Positions(list))
      ensures activeShards == old(activeShards)[k := true]
      ensures Valid() <==> !HeldElsewhere(list, old(riderShards), k) && OneObjectEach(list)
      ensures Valid() ==> AsTable() == WithoutShard(old(AsTable()), k) + RowsOf(ByUid(list), k)
      ensures riders.Values <= old(riders.Values) + (set r | r in list)
      ensures forall i :: 0 <= i < |matchers| ==> matchers[i] in old(matchers) || fresh(matchers[i])
    {
      Consistent();
      ValuesAfterLoad(riders, riderShards, k, list);
      TableWithout(riders, riderShards, k);
      hide ShardLayout.Valid, Holds, TableOf, RowsOf, WithoutShard, KeptRiders, KeptShards,
           PlacedAt, HeldElsewhere, OneObjectEach, ByUid, Distinct, Uids, Positions;
      ghost var others, places := KeptRiders(riders, riderShards, k), KeptShards(riderShards, k);
      ExchangeKeeping(k, list, TableOf(others, places));
      TableMerged(others, places, k, ByUid(list));
    }

    /** Loads a shard. The index stays sound exactly when none of the loaded riders is known in another shard and the
        list does not name a rider with two objects, the last of which is not the first. */
    method ReplaceShard(shardID: int, list: seq<Rider>)
      requires Valid()
      modifies this`matchers, this`activeShards, this`riders, this`riderShards
      modifies list`online, list`cellId, list`x, list`y
      ensures !(0 <= shardID < layout.shardCount) ==>
                Valid() && AsTable() == old(AsTable()) && activeShards == old(activeShards)
      ensures 0 <= shardID < layout.shardCount ==>
                && activeShards == old(activeShards)[shardID := true]
                && (Valid() <==> !HeldElsewhere(list, old(riderShards), shardID) && OneObjectEach(list))
                && (Valid() ==> AsTable() == WithoutShard(old(AsTable()), shardID) + RowsOf(ByUid(list), shardID))
      ensures Distinct(Uids(list)) ==> Positions(list) == old(Positions(list))
      ensures riders.Values <= old(riders.Values) + (set r | r in list)
      ensures forall i :: 0 <= i < |matchers| ==> matchers[i] in old(matchers) || fresh(matchers[i])
    {
      hide ShardLayout.Valid, Holds, TableOf, RowsOf, WithoutShard, HeldElsewhere, OneObjectEach, ByUid, Distinct, Uids,
           Positions;
      if shardID < 0 || shardID >= |matchers| { return; }
      Load(shardID, list);
    }

    method Discard(k: int)
      requires Separate(matchers) && riderShards.Keys == riders.Keys && Holds(matchers, gridSize, riders, riderShards)
      requires 0 <= k < |matchers| == |activeShards| && gridSize >= 1
      modifies this`matchers, this`activeShards, this`riders, this`riderShards
      ensures activeShards == old(activeShards)[k := false]
      ensures riders == KeptRiders(old(riders), old(riderShards), k) && riderShards == KeptShards(old(riderShards), k)
      ensures |matchers| == old(|matchers|) && Separate(matchers) && Holds(matchers, gridSize, riders, riderShards)
      ensures forall i :: 0 <= i < |matchers| ==> matchers[i] in old(matchers) || fresh(matchers[i])
    {
      ghost var all, shards := riders, riderShards;
      NothingLoaded(all, shards, k);
      hide Holds, KeptRiders, KeptShards, PlacedAt, HeldElsewhere, OneObjectEach, ByUid, Separate;
      SwapIn(all, shards, k, [], false);
      ForgetShard(k);
    }

    /** Gives a shard up: its riders are forgotten and it is no longer searched. */
    method RemoveShard(shardID: int)
      requires Valid()
      modifies this`matchers, this`activeShards, this`riders, this`riderShards
      ensures Valid()
      ensures !(0 <= shardID < layout.shardCount) ==> AsTable() == old(AsTable()) && activeShards == old(activeShards)
      ensures 0 <= shardID < layout.shardCount ==>
                && activeShards == old(activeShards)[shardID := false]
                && AsTable() == WithoutShard(old(AsTable()), shardID)
      ensures riders.Values <= old(riders.Values)
      ensures forall i :: 0 <= i < |matchers| ==> matchers[i] in old(matchers) || fresh(matchers[i])
    {
      Consistent();
      ValuesAfterLoad(riders, riderShards, shardID, []);
      if shardID < 0 || shardID >= |matchers| { return; }
      ghost var all, shards := riders, riderShards;
      ghost var before := TableOf(all, shards);
      TableReads(all, shards, before);
      hide ShardLayout.Valid, Holds, TableOf, WithoutShard, KeptRiders, KeptShards;
      Discard(shardID);
      TableReads(all, shards, before);
      TableWithout(all, shards, shardID);
    }

    method SetRiderCount(u: Int64, count: int)
      requires Valid()
      modifies riders.Values`count
      ensures Valid()
      ensures AsTable() == var table := old(AsTable());
              if u in table then table[u := table[u].(count := count)] else table
    {
      Consistent();
      hide ShardLayout.Valid, Holds, TableOf;
      ghost var before := AsTable();
      TableReads(riders, riderShards, before);
      if u in riders {
        CountWithin(matchers, gridSize, riders, riderShards, riders[u], count);
        TableReads(riders, riderShards, before[u := before[u].(count := count)]);
      }
    }

    function QueryFor(x: int, y: int): Query
      reads this
    {
      Query(layout, gridSize, cellSize, loadWeight, activeShards, x, y)
    }

    /** The query asks this index, and the view is what the index's plain table looks like to it. */
    ghost predicate Poses(q: Query, view: View)
      reads this, matchers, riders.Values
    {
      Valid() && Sound(q) && q == QueryFor(q.x, q.y) && view == ViewOf(gridSize, AsTable())
    }

    /** An inactive or unknown shard is passed over. */
    method SearchShard(k: int, q: Query, r: int, ghost view: View) returns (extra: seq<RiderCandidate>)
      requires Poses(q, view)
      ensures if IsActive(q.active, k) then Gathered(ShardTable(view, k), RingCells(q, r), extra) else extra == []
    {
      hide ShardLayout.Valid;
      if k < 0 || k >= |matchers| || !activeShards[k] { return []; }
      GridAgrees(matchers[k], gridSize, riders, riderShards, k);
      hide ViewOf, TableOf, Gathered, GridIndex.Valid;
      extra := matchers[k].FindNearbyCandidatesInRange(q.x, q.y, InnerAt(r), OuterAt(r));
    }

    /** Whoever the active ones of these shards have in a ring around the order. */
    method Collect(ids: seq<int>, q: Query, r: int, ghost view: View) returns (found: seq<RiderCandidate>)
      requires Poses(q, view)
      ensures CollectedFrom(view, q.active, ids, RingCells(q, r), found)
    {
      found := [];
      ghost var cells := RingCells(q, r);
      RingCellsAreDistinct(q, r);
      assert Sound(q);
      hide Poses, Sound, RingCells, CollectedFrom, ShardTable;
      assert CollectedFrom(view, q.active, ids[..0], cells, found) by {
        EmptyCollection(view, q.active, cells);
        assert ids[..0] == [];
      }
      for n := 0 to |ids|
        invariant CollectedFrom(view, q.active, ids[..n], cells, found)
      {
        assert ids[..n + 1] == ids[..n] + [ids[n]];
        var extra := SearchShard(ids[n], q, r, view);
        CollectShard(view, q.active, ids[..n], cells, found, ids[n], extra);
        found := found + extra;
      }
      assert ids[..|ids|] == ids;
    }

    /** One stage: its best riders, if it has any. */
    method SearchStage(ids: seq<int>, q: Query, limit: nat, r: nat, ghost s: nat, ghost view: View)
      returns (some: bool, best: seq<Candidate>)
      requires Poses(q, view) && r == s % 3 && ListsGroup(q.layout, ShardID(q.layout, q.x, q.y), GroupAt(s / 3), ids)
      ensures some <==> StagePool(q, view, s) != map[]
      ensures some ==> IsBest(best, StagePool(q, view, s), limit)
    {
      assert Sound(q) && KeyedView(view);
      hide Sound, KeyedView, Poses, StagePool, RingCells, ListsGroup, CollectedFrom, GroupAt, ShardID;
      var found := Collect(ids, q, r, view);
      ScoredIsPool(q, view, s, ids, found);
      some := found != [];
      best := [];
      if some {
        best := BestCandidates(q, found, limit, view, s, ids);
      }
    }

    method Search(q: Query, limit: int, ghost view: View) returns (best: seq<Candidate>)
      requires Poses(q, view)
      ensures Answers(q, view, limit, best)
    {
      if limit <= 0 { return []; }
      var home := ShardID(q.layout, q.x, q.y);
      var near := NeighbourGroup(q.layout, home);
      var others := OtherGroup(q.layout, home);
      var groups := [[home], near, others];
      assert forall g :: 0 <= g < 3 ==> ListsGroup(q.layout, home, GroupAt(g), groups[g]);
      assert NobodyBefore(q, view, 0) && Sound(q);
      hide Poses, Sound, StagePool, ListsGroup, NobodyBefore, Answers, GroupAt, ShardID;
      for g := 0 to 3
        invariant NobodyBefore(q, view, 3 * g)
      {
        for r := 0 to 3
          invariant NobodyBefore(q, view, 3 * g + r)
        {
          StageCoordinates(g, r);
          ghost var s := 3 * g + r;
          var some, stageBest := SearchStage(groups[g], q, limit, r, s, view);
          if some {
            AnsweredHere(q, view, limit, s, stageBest);
            return stageBest;
          }
          NobodyHere(q, view, s);
        }
      }
      NobodyAnywhere(q, view, limit);
      best := [];
    }

    /** The best riders of the first stage that has any: home shard, neighbours, others; rings 1, 3, 8 in each. */
    method FindCandidates(x: int, y: int, limit: int) returns (best: seq<Candidate>)
      requires Valid() && cellSize != 0
      ensures Answers(QueryFor(x, y), ViewOf(gridSize, AsTable()), limit, best)
      ensures limit <= 0 ==> best == []
      ensures limit > 0 ==>
                var unit := if cellSize > 0 then cellSize else 1;
                ListsCheapest(Query(layout, unit, cellSize, loadWeight, activeShards, x, y), AsTable(), limit, best)
    {
      ghost var view := ViewOf(gridSize, AsTable());
      var q := QueryFor(x, y);
      assert Sound(q);
      assert forall u :: u in AsTable() ==> InRange(layout, AsTable()[u].shard);
      hide Sound, ViewOf, TableOf, ListsCheapest;
      best := Search(q, limit, view);
      if limit > 0 { AnswerListsCheapest(q, AsTable(), limit, best); }
    }
  }
}
