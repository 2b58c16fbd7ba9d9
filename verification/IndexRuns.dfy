/** The index over any sequence of calls: rider events, shards loaded and given up, counts written. */
module IndexRuns {
  import opened Model
  import opened ShardLayout
  import opened Grid
  import opened CandidateIndex

  /** A rider as a shard's loader makes it; nobody is reserved yet. */
  datatype Loaded = Loaded(uid: Int64, x: int, y: int)

  datatype Call =
    | Notice(event: RiderEvent)
    | Load(shardID: int, rows: seq<Loaded>)
    | GiveUp(shardID: int)
    | Count(uid: Int64, count: int)

  // ---------------------------------------------------------------------------------------------
  // Calls on the plain table
  // ---------------------------------------------------------------------------------------------

  function RowsAt(rows: seq<Loaded>, k: int): KnownRiders {
    if |rows| == 0 then map[]
    else
      var last := rows[|rows| - 1];
      RowsAt(rows[..|rows| - 1], k)[last.uid := Known(k, last.x, last.y, 0)]
  }

  /** What a call does to the plain table. */
  function After(layout: Layout, table: KnownRiders, call: Call): KnownRiders
    requires ShardLayout.Valid(layout)
  {
    match call
    case Notice(event) => Applied(layout, table, event)
    case Load(k, rows) => if InRange(layout, k) then WithoutShard(table, k) + RowsAt(rows, k) else table
    case GiveUp(k) => if InRange(layout, k) then WithoutShard(table, k) else table
    case Count(u, count) => if u in table then table[u := table[u].(count := count)] else table
  }

  function ActiveAfter(layout: Layout, active: seq<bool>, call: Call): (after: seq<bool>)
    requires |active| == layout.shardCount
    ensures |after| == |active|
  {
    match call
    case Load(k, _) => if InRange(layout, k) then active[k := true] else active
    case GiveUp(k) => if InRange(layout, k) then active[k := false] else active
    case _ => active
  }

  function Folded(layout: Layout, calls: seq<Call>): KnownRiders
    requires ShardLayout.Valid(layout)
  {
    if |calls| == 0 then map[]
    else After(layout, Folded(layout, calls[..|calls| - 1]), calls[|calls| - 1])
  }

  function FoldedActive(layout: Layout, calls: seq<Call>): (active: seq<bool>)
    requires ShardLayout.Valid(layout)
    ensures |active| == layout.shardCount
  {
    if |calls| == 0 then seq(layout.shardCount, _ => false)
    else ActiveAfter(layout, FoldedActive(layout, calls[..|calls| - 1]), calls[|calls| - 1])
  }

  function RowIds(rows: seq<Loaded>): (ids: seq<Int64>)
    ensures |ids| == |rows| && forall i :: 0 <= i < |rows| ==> ids[i] == rows[i].uid
  {
    seq(|rows|, i requires 0 <= i < |rows| => rows[i].uid)
  }

  predicate NoneElsewhere(table: KnownRiders, rows: seq<Loaded>, k: int) {
    forall i :: 0 <= i < |rows| && rows[i].uid in table ==> table[rows[i].uid].shard == k
  }

  /** A load fits when no rider comes twice and none is known in another shard; every other call fits. */
  predicate Fits(layout: Layout, table: KnownRiders, call: Call) {
    call.Load? && InRange(layout, call.shardID) ==>
      Distinct(RowIds(call.rows)) && NoneElsewhere(table, call.rows, call.shardID)
  }

  ghost predicate AllFit(layout: Layout, calls: seq<Call>)
    requires ShardLayout.Valid(layout)
  {
    forall n :: 0 <= n < |calls| ==> Fits(layout, Folded(layout, calls[..n]), calls[n])
  }

  // ---------------------------------------------------------------------------------------------
  // Loading riders
  // ---------------------------------------------------------------------------------------------

  ghost predicate Made(list: seq<Rider>, rows: seq<Loaded>)
    reads list`x, list`y, list`count
  {
    && |list| == |rows|
    && forall i :: 0 <= i < |rows| ==>
                     && list[i].uid == rows[i].uid && list[i].x == rows[i].x && list[i].y == rows[i].y
                     && list[i].count == 0
  }

  method Make(rows: seq<Loaded>) returns (list: seq<Rider>)
    ensures Made(list, rows) && Distinct(list) && forall i :: 0 <= i < |list| ==> fresh(list[i])
  {
    list := [];
    for n := 0 to |rows|
      invariant Made(list, rows[..n]) && Distinct(list) && forall i :: 0 <= i < |list| ==> fresh(list[i])
    {
      var rider := new Rider(rows[n].uid, rows[n].x, rows[n].y);
      list := list + [rider];
    }
    assert rows[..|rows|] == rows;
  }

  lemma {:induction false} LoadedRows(list: seq<Rider>, rows: seq<Loaded>, k: int)
    requires Made(list, rows)
    ensures RowsOf(ByUid(list), k) == RowsAt(rows, k)
  {
    if |list| > 0 {
      var n := |list| - 1;
      assert list[..n + 1] == list;
      LoadedRows(list[..n], rows[..n], k);
      OneMore(list, n);
      RowsRead(ByUid(list[..n]), k, RowsAt(rows[..n], k));
      RowsRead(ByUid(list), k, RowsAt(rows, k));
      hide RowsOf, ByUid;
    }
  }

  lemma {:induction false} FirstKnows(list: seq<Rider>)
    ensures forall r :: r in list ==> r.uid in FirstByUid(list)
  {
    if |list| > 0 {
      var n := |list| - 1;
      FirstKnows(list[..n]);
      assert list == list[..n] + [list[n]];
    }
  }

  lemma SameBefore(a: Riders, b: Riders, u: Int64, rider: Rider)
    requires a[u := rider] == b[u := rider] && u !in a && u !in b
    ensures a == b
  {
    assert a == a[u := rider] - {u};
    assert b == b[u := rider] - {u};
  }

  lemma LastIsNew(list: seq<Rider>, n: nat)
    requires n + 1 == |list| && Distinct(list) && OneObjectEach(list)
    ensures list[n].uid !in FirstByUid(list[..n]) && OneObjectEach(list[..n])
  {
    var front, last := list[..n], list[n];
    assert list[..n + 1] == list;
    OneMore(list, n);
    FirstKnows(front);
    var firsts, lasts := FirstByUid(front), ByUid(front);
    assert last !in front by {
      assert forall i :: 0 <= i < n ==> front[i] == list[i];
    }
    assert ByUid(list)[last.uid] == last;
    assert last.uid !in firsts;
    assert last.uid !in lasts;
    SameBefore(firsts, lasts, last.uid, last);
  }

  lemma NewUidStaysDistinct(list: seq<Rider>, n: nat)
    requires n + 1 == |list| && Distinct(Uids(list[..n])) && forall r :: r in list[..n] ==> r.uid != list[n].uid
    ensures Distinct(Uids(list))
  {
    forall i, j | 0 <= i < j < |list| ensures Uids(list)[i] != Uids(list)[j] {
      assert list[..n][i] == list[i] && list[i] in list[..n];
      if j < n { assert Uids(list[..n])[i] != Uids(list[..n])[j]; }
    }
  }

  /** Different objects for one rider are what spoils a load. */
  lemma {:induction false} OneEachIsDistinct(list: seq<Rider>)
    requires Distinct(list)
    ensures OneObjectEach(list) <==> Distinct(Uids(list))
  {
    if Distinct(Uids(list)) {
      DistinctLoads(list);
    } else if OneObjectEach(list) {
      var n := |list| - 1;
      LastIsNew(list, n);
      FirstKnows(list[..n]);
      hide FirstByUid, ByUid, OneObjectEach;
      OneEachIsDistinct(list[..n]);
      NewUidStaysDistinct(list, n);
    }
  }

  lemma HeldElsewhereIs(riders: Riders, shards: Shards, list: seq<Rider>, rows: seq<Loaded>, k: int)
    requires shards.Keys == riders.Keys && Made(list, rows)
    ensures HeldElsewhere(list, shards, k) <==> !NoneElsewhere(TableOf(riders, shards), rows, k)
  {
    var table := TableOf(riders, shards);
    TableReads(riders, shards, table);
    hide TableOf;
    if HeldElsewhere(list, shards, k) {
      var r :| r in list && r.uid in shards && shards[r.uid] != k;
      var i :| 0 <= i < |list| && list[i] == r;
      assert rows[i].uid in table && table[rows[i].uid].shard != k;
    } else {
      forall i | 0 <= i < |rows| && rows[i].uid in table ensures table[rows[i].uid].shard == k {
        assert list[i] in list;
      }
    }
  }

  lemma UidsAreIds(list: seq<Rider>, rows: seq<Loaded>)
    requires Made(list, rows)
    ensures Uids(list) == RowIds(rows)
  {
  }

  lemma StillMade(list: seq<Rider>, rows: seq<Loaded>, positions: map<Rider, (int, int)>)
    requires |list| == |rows| && Positions(list) == positions
    requires forall i :: 0 <= i < |rows| ==> list[i] in positions && list[i].uid == rows[i].uid && list[i].count == 0
    requires forall i :: 0 <= i < |rows| ==> positions[list[i]] == (rows[i].x, rows[i].y)
    ensures Made(list, rows)
  {
    PositionsRead(list, positions);
  }

  method ReplaceMade(index: Index, k: int, list: seq<Rider>, ghost rows: seq<Loaded>)
    requires index.Valid() && Made(list, rows) && InRange(index.layout, k)
    modifies index`matchers, index`activeShards, index`riders, index`riderShards
    modifies list`online, list`cellId, list`x, list`y
    ensures index.activeShards == old(index.activeShards)[k := true]
    ensures index.Valid() <==> !HeldElsewhere(list, old(index.riderShards), k) && OneObjectEach(list)
    ensures index.Valid() ==> index.AsTable() == WithoutShard(old(index.AsTable()), k) + RowsOf(ByUid(list), k)
    ensures index.riders.Values <= old(index.riders.Values) + (set r | r in list)
    ensures forall i :: 0 <= i < |index.matchers| ==>
                        index.matchers[i] in old(index.matchers) || fresh(index.matchers[i])
    ensures Distinct(Uids(list)) ==> Made(list, rows)
  {
    index.Consistent();
    assert |index.activeShards| == index.layout.shardCount;
    ghost var positions := Positions(list);
    PositionsRead(list, positions);
    assert forall i :: 0 <= i < |rows| ==> list[i] in list;
    assert forall i :: 0 <= i < |rows| ==> positions[list[i]] == (rows[i].x, rows[i].y);
    assert |list| == |rows| && forall i :: 0 <= i < |rows| ==> list[i].uid == rows[i].uid && list[i].count == 0;
    hide *;
    index.ReplaceShard(k, list);
    if Distinct(Uids(list)) {
      StillMade(list, rows, positions);
    }
  }

  method ReplaceWith(index: Index, k: int, list: seq<Rider>, ghost rows: seq<Loaded>)
    requires index.Valid() && Made(list, rows) && Distinct(list)
    modifies index`matchers, index`activeShards, index`riders, index`riderShards
    modifies list`online, list`cellId, list`x, list`y
    ensures index.Valid() <==> Fits(index.layout, old(index.AsTable()), Load(k, rows))
    ensures index.Valid() ==> index.AsTable() == After(index.layout, old(index.AsTable()), Load(k, rows))
    ensures index.activeShards == ActiveAfter(index.layout, old(index.activeShards), Load(k, rows))
    ensures index.riders.Values <= old(index.riders.Values) + (set r | r in list)
    ensures forall i :: 0 <= i < |index.matchers| ==>
                        index.matchers[i] in old(index.matchers) || fresh(index.matchers[i])
  {
    index.Consistent();
    HeldElsewhereIs(index.riders, index.riderShards, list, rows, k);
    OneEachIsDistinct(list);
    UidsAreIds(list, rows);
    hide ShardLayout.Valid, Holds, HeldElsewhere, OneObjectEach, Distinct, Uids, ByUid, TableOf, RowsOf, RowsAt,
         WithoutShard, NoneElsewhere, RowIds, Made;
    if !InRange(index.layout, k) { return; }
    ReplaceMade(index, k, list, rows);
    if Distinct(Uids(list)) {
      LoadedRows(list, rows, k);
    }
  }

  /** A start: the shard's riders are made and loaded. */
  method LoadInto(index: Index, k: int, rows: seq<Loaded>)
    requires index.Valid()
    modifies index`matchers, index`activeShards, index`riders, index`riderShards
    ensures index.Valid() <==> Fits(index.layout, old(index.AsTable()), Load(k, rows))
    ensures index.Valid() ==> index.AsTable() == After(index.layout, old(index.AsTable()), Load(k, rows))
    ensures index.activeShards == ActiveAfter(index.layout, old(index.activeShards), Load(k, rows))
    ensures fresh(index.riders.Values - old(index.riders.Values))
    ensures forall i :: 0 <= i < |index.matchers| ==>
                        index.matchers[i] in old(index.matchers) || fresh(index.matchers[i])
  {
    index.Consistent();
    var list := Make(rows);
    hide ShardLayout.Valid, Index.Valid, Index.AsTable, Made, Fits, After, ActiveAfter, Distinct;
    ReplaceWith(index, k, list, rows);
  }

  // ---------------------------------------------------------------------------------------------
  // Sequences of calls
  // ---------------------------------------------------------------------------------------------

  /** One call. A call that fits does to the index what it does to the plain table; one that does not spoils it. */
  method Perform(index: Index, call: Call)
    requires index.Valid()
    modifies index`matchers, index`activeShards, index`riders, index`riderShards, index.matchers, index.riders.Values
    ensures index.Valid() <==> Fits(index.layout, old(index.AsTable()), call)
    ensures index.Valid() ==> index.AsTable() == After(index.layout, old(index.AsTable()), call)
    ensures index.activeShards == ActiveAfter(index.layout, old(index.activeShards), call)
    ensures fresh(index.riders.Values - old(index.riders.Values))
    ensures forall i :: 0 <= i < |index.matchers| ==>
                        index.matchers[i] in old(index.matchers) || fresh(index.matchers[i])
  {
    index.Consistent();
    assert ShardLayout.Valid(index.layout) && |index.activeShards| == index.layout.shardCount;
    hide ShardLayout.Valid, Holds, TableOf, Applied, RowsAt, WithoutShard, NoneElsewhere;
    match call
    case Notice(event) => index.ApplyRiderEvent(event);
    case Load(k, rows) => LoadInto(index, k, rows);
    case GiveUp(k) => index.RemoveShard(k);
    case Count(u, count) => index.SetRiderCount(u, count);
  }

  lemma OneMoreCall(layout: Layout, calls: seq<Call>, n: nat)
    requires ShardLayout.Valid(layout) && n < |calls|
    ensures Folded(layout, calls[..n + 1]) == After(layout, Folded(layout, calls[..n]), calls[n])
    ensures FoldedActive(layout, calls[..n + 1]) == ActiveAfter(layout, FoldedActive(layout, calls[..n]), calls[n])
  {
    assert calls[..n + 1][..n] == calls[..n];
  }

  /** One fitting call on an index whose grids are among these. */
  method PerformNext(index: Index, call: Call, ghost grids: set<GridIndex>)
    requires index.Valid() && Fits(index.layout, index.AsTable(), call)
    requires forall i :: 0 <= i < |index.matchers| ==> index.matchers[i] in grids
    modifies index`matchers, index`activeShards, index`riders, index`riderShards, grids, index.riders.Values
    ensures index.Valid() && index.AsTable() == After(index.layout, old(index.AsTable()), call)
    ensures index.activeShards == ActiveAfter(index.layout, old(index.activeShards), call)
    ensures fresh(index.riders.Values - old(index.riders.Values))
    ensures forall i :: 0 <= i < |index.matchers| ==> index.matchers[i] in grids || fresh(index.matchers[i])
  {
    hide *;
    assert forall g :: g in index.matchers ==> g in grids;
    Perform(index, call);
  }

  /** After any sequence of fitting calls on a new index, whose layout is always valid, it is sound, stands for the
      table that the calls make of an empty one, and searches the shards that were loaded last and not given up. */
  method Run(shardCount: int, cellSize: int, areaSize: int, loadWeight: int, calls: seq<Call>) returns (index: Index)
    requires ShardLayout.Valid(NewLayout(areaSize, cellSize, shardCount))
    requires AllFit(NewLayout(areaSize, cellSize, shardCount), calls)
    ensures fresh(index) && fresh(index.riders.Values)
    ensures forall i :: 0 <= i < |index.matchers| ==> fresh(index.matchers[i])
    ensures index.Valid() && index.layout == NewLayout(areaSize, cellSize, shardCount)
    ensures index.cellSize == cellSize && index.loadWeight == loadWeight
    ensures index.AsTable() == Folded(index.layout, calls)
    ensures index.activeShards == FoldedActive(index.layout, calls)
  {
    index := new Index(shardCount, cellSize, areaSize, loadWeight);
    ghost var layout := index.layout;
    assert |index.activeShards| == layout.shardCount;
    assert calls[..0] == [];
    assert index.AsTable() == Folded(layout, calls[..0]);
    assert index.activeShards == FoldedActive(layout, calls[..0]);
    assert forall i :: 0 <= i < |index.matchers| ==> index.matchers[i] in index.matchers;
    hide *;
    ghost var grids := set g | g in index.matchers;
    for n := 0 to |calls|
      invariant index.Valid() && index.AsTable() == Folded(layout, calls[..n])
      invariant index.activeShards == FoldedActive(layout, calls[..n])
      invariant fresh(index.riders.Values) && fresh(grids)
      invariant forall i :: 0 <= i < |index.matchers| ==> index.matchers[i] in grids
    {
      OneMoreCall(layout, calls, n);
      PerformNext(index, calls[n], grids);
      grids := grids + (set g | g in index.matchers);
    }
    assert calls[..|calls|] == calls;
  }

  // ---------------------------------------------------------------------------------------------
  // The matcher's starts and stops
  // ---------------------------------------------------------------------------------------------

  const MAX_RIDERS := 0x7fff_ffff_ffff_ffff

  /** Whoever of the generated riders lives in the shard; riders are numbered from one. */
  function RidersFor(layout: Layout, positions: seq<(int, int)>, k: int): (rows: seq<Loaded>)
    requires ShardLayout.Valid(layout) && |positions| <= MAX_RIDERS
    ensures forall i :: 0 <= i < |rows| ==>
                          && 1 <= rows[i].uid <= |positions|
                          && positions[rows[i].uid - 1] == (rows[i].x, rows[i].y)
                          && ShardID(layout, rows[i].x, rows[i].y) == k
    ensures Distinct(RowIds(rows))
  {
    if |positions| == 0 then []
    else
      var front := RidersFor(layout, positions[..|positions| - 1], k);
      var (x, y) := positions[|positions| - 1];
      if ShardID(layout, x, y) == k then front + [Loaded(|positions|, x, y)] else front
  }

  /** A start loads the shard's generated riders; otherwise shards are only given up and counts written. */
  predicate IsHook(layout: Layout, positions: seq<(int, int)>, call: Call)
    requires ShardLayout.Valid(layout) && |positions| <= MAX_RIDERS
  {
    match call
    case Notice(_) => false
    case Load(k, rows) => rows == RidersFor(layout, positions, k)
    case _ => true
  }

  /** Everybody is in the shard it was generated in. */
  ghost predicate AtHome(layout: Layout, positions: seq<(int, int)>, table: KnownRiders)
    requires ShardLayout.Valid(layout)
  {
    forall u :: u in table ==>
                  && 1 <= u <= |positions|
                  && table[u].shard == ShardID(layout, positions[u - 1].0, positions[u - 1].1)
  }

  lemma {:induction false} RowsAreAtHome(layout: Layout, positions: seq<(int, int)>, rows: seq<Loaded>, k: int)
    requires ShardLayout.Valid(layout)
    requires forall i :: 0 <= i < |rows| ==>
                           && 1 <= rows[i].uid <= |positions|
                           && positions[rows[i].uid - 1] == (rows[i].x, rows[i].y)
                           && ShardID(layout, rows[i].x, rows[i].y) == k
    ensures AtHome(layout, positions, RowsAt(rows, k))
  {
    if |rows| > 0 {
      RowsAreAtHome(layout, positions, rows[..|rows| - 1], k);
    }
  }

  lemma LoadFits(layout: Layout, positions: seq<(int, int)>, table: KnownRiders, k: int)
    requires ShardLayout.Valid(layout) && |positions| <= MAX_RIDERS && AtHome(layout, positions, table)
    ensures Fits(layout, table, Load(k, RidersFor(layout, positions, k)))
  {
    var rows := RidersFor(layout, positions, k);
    hide RidersFor, ShardID, ShardLayout.Valid;
    forall i | 0 <= i < |rows| && rows[i].uid in table ensures table[rows[i].uid].shard == k {
    }
  }

  lemma HomesMerge(layout: Layout, positions: seq<(int, int)>, table: KnownRiders, rows: KnownRiders, k: int)
    requires ShardLayout.Valid(layout) && AtHome(layout, positions, table) && AtHome(layout, positions, rows)
    ensures AtHome(layout, positions, WithoutShard(table, k) + rows)
  {
    hide ShardID, ShardLayout.Valid;
  }

  lemma HookKeepsHome(layout: Layout, positions: seq<(int, int)>, table: KnownRiders, call: Call)
    requires ShardLayout.Valid(layout) && |positions| <= MAX_RIDERS
    requires AtHome(layout, positions, table) && IsHook(layout, positions, call)
    ensures Fits(layout, table, call) && AtHome(layout, positions, After(layout, table, call))
  {
    match call
    case Load(k, rows) =>
      RowsAreAtHome(layout, positions, rows, k);
      LoadFits(layout, positions, table, k);
      hide AtHome, RidersFor, RowsAt, WithoutShard, Fits;
      HomesMerge(layout, positions, table, RowsAt(rows, k), k);
    case GiveUp(_) => hide ShardID, ShardLayout.Valid;
    case Count(_, _) => hide ShardID, ShardLayout.Valid;
  }

  lemma {:induction false} HooksKeepHome(layout: Layout, positions: seq<(int, int)>, calls: seq<Call>)
    requires ShardLayout.Valid(layout) && |positions| <= MAX_RIDERS
    requires forall n :: 0 <= n < |calls| ==> IsHook(layout, positions, calls[n])
    ensures AtHome(layout, positions, Folded(layout, calls))
  {
    if |calls| > 0 {
      HooksKeepHome(layout, positions, calls[..|calls| - 1]);
      HookKeepsHome(layout, positions, Folded(layout, calls[..|calls| - 1]), calls[|calls| - 1]);
    }
  }

  /** The matcher's own starts, stops and counts fit in every order, however often a shard comes and goes. */
  lemma HooksAlwaysFit(layout: Layout, positions: seq<(int, int)>, calls: seq<Call>)
    requires ShardLayout.Valid(layout) && |positions| <= MAX_RIDERS
    requires forall n :: 0 <= n < |calls| ==> IsHook(layout, positions, calls[n])
    ensures AllFit(layout, calls)
  {
    forall n | 0 <= n < |calls| ensures Fits(layout, Folded(layout, calls[..n]), calls[n]) {
      HooksKeepHome(layout, positions, calls[..n]);
      HookKeepsHome(layout, positions, Folded(layout, calls[..n]), calls[n]);
    }
  }

  // ---------------------------------------------------------------------------------------------
  // A start that does not fit
  // ---------------------------------------------------------------------------------------------

  const FIRST_LOAD := Load(0, [Loaded(1, 0, 0)])

  const MOVED_AWAY := [FIRST_LOAD, Notice(Move(1, 90, 90))]

  lemma FourShards()
    ensures ShardLayout.Valid(NewLayout(100, 10, 4)) && NewLayout(100, 10, 4).shardCount == 4
    ensures ShardID(NewLayout(100, 10, 4), 0, 0) == 0 && ShardID(NewLayout(100, 10, 4), 90, 90) == 3
  {
    NewLayoutIsValid(100, 10, 4);
    assert CeilSqrtFrom(4, 2) == 2;
    assert CeilSqrtFrom(4, 0) == 2;
    var layout := Layout(100, 10, 4, 2, 2, 10, 5, 5);
    assert NewLayout(100, 10, 4) == layout;
    hide NewLayout, CeilSqrtFrom;
    assert CellOn(layout, 0) == 0 && CellOn(layout, 90) == 9;
    hide CellOn;
    assert ShardColumn(layout, 0) == 0 && ShardColumn(layout, 90) == 1;
    assert ShardRow(layout, 0) == 0 && ShardRow(layout, 90) == 1;
    hide ShardColumn, ShardRow;
  }

  /** A rider leaves its shard, and the shard is started again: the load names a rider known elsewhere. */
  lemma RestartDoesNotFit()
    ensures ShardLayout.Valid(NewLayout(100, 10, 4)) && AllFit(NewLayout(100, 10, 4), MOVED_AWAY)
    ensures !Fits(NewLayout(100, 10, 4), Folded(NewLayout(100, 10, 4), MOVED_AWAY), FIRST_LOAD)
  {
    var layout := NewLayout(100, 10, 4);
    FourShards();
    hide NewLayout, ShardID, ShardLayout.Valid;
    assert MOVED_AWAY[..0] == [] && MOVED_AWAY[..1] == [FIRST_LOAD] && MOVED_AWAY[..2] == MOVED_AWAY;
    OneMoreCall(layout, MOVED_AWAY, 0);
    OneMoreCall(layout, MOVED_AWAY, 1);
    assert RowsAt([Loaded(1, 0, 0)], 0) == map[1 := Known(0, 0, 0, 0)] by {
      assert [Loaded(1, 0, 0)][..0] == [];
    }
    assert Folded(layout, [FIRST_LOAD]) == map[1 := Known(0, 0, 0, 0)];
    assert Folded(layout, MOVED_AWAY)[1].shard == 3;
  }

  /** So the index is spoiled. */
  method RestartSpoils() returns (index: Index)
    ensures fresh(index) && !index.Valid()
  {
    RestartDoesNotFit();
    hide *;
    index := Run(4, 10, 100, 1, MOVED_AWAY);
    Perform(index, FIRST_LOAD);
  }
}
