/** What a candidate search looks at: groups of shards around the home shard, rings around the order, and the
    first stage that has anybody. */
module Stages {
  import opened Model
  import opened ShardLayout
  import opened Grid
  import opened TopK

  // ---------------------------------------------------------------------------------------------
  // Groups of shards
  // ---------------------------------------------------------------------------------------------

  datatype Group = Home | Neighbours | Others

  predicate InGroup(l: Layout, home: int, group: Group, shard: int)
    requires ShardLayout.Valid(l)
  {
    match group
    case Home => shard == home
    case Neighbours => shard != home && AreNeighbours(l, home, shard)
    case Others => InRange(l, shard) && shard != home && !AreNeighbours(l, home, shard)
  }

  /** Home, neighbours and others cover every shard once. */
  lemma GroupsPartitionTheShards(l: Layout, home: int, shard: int)
    requires ShardLayout.Valid(l) && InRange(l, home)
    ensures InRange(l, shard) <==>
            InGroup(l, home, Home, shard) || InGroup(l, home, Neighbours, shard) || InGroup(l, home, Others, shard)
    ensures forall g, h :: InGroup(l, home, g, shard) && InGroup(l, home, h, shard) ==> g == h
  {
  }

  /** The list names exactly the shards of a group, once each. */
  ghost predicate ListsGroup(l: Layout, home: int, group: Group, ids: seq<int>)
    requires ShardLayout.Valid(l)
  {
    Distinct(ids) && forall shard :: shard in ids <==> InGroup(l, home, group, shard)
  }

  method NeighbourGroup(l: Layout, home: int) returns (ids: seq<int>)
    requires ShardLayout.Valid(l)
    ensures ListsGroup(l, home, Neighbours, ids)
  {
    var all := NeighborShardIDs(l, home);
    hide ShardLayout.Valid, AreNeighbours;
    ids := [];
    for n := 0 to |all|
      invariant Distinct(ids)
      invariant forall shard :: shard in ids <==> shard in all[..n] && shard != home
    {
      assert all[..n + 1] == all[..n] + [all[n]] && all[n] !in all[..n];
      if all[n] != home {
        ids := ids + [all[n]];
      }
    }
    assert all[..|all|] == all;
  }

  method OtherGroup(l: Layout, home: int) returns (ids: seq<int>)
    requires ShardLayout.Valid(l)
    ensures ListsGroup(l, home, Others, ids)
  {
    var near := NeighbourGroup(l, home);
    ids := [];
    for shard := 0 to l.shardCount
      invariant Distinct(ids)
      invariant forall s :: s in ids <==> 0 <= s < shard && s != home && s !in near
    {
      if shard != home && shard !in near {
        ids := ids + [shard];
      }
    }
  }

  // ---------------------------------------------------------------------------------------------
  // Stages
  // ---------------------------------------------------------------------------------------------

  /** A rider as the search sees it: its shard, and its row in that shard's grid. */
  datatype Seen = Seen(shard: int, row: Row)

  type View = map<Int64, Seen>

  /** An order to be matched, the grids' cell size, and the unit and weight that scores depend on. */
  datatype Query = Query(
    layout: Layout, cellSize: int, scoreUnit: int, loadWeight: int, active: seq<bool>, x: int, y: int)

  predicate Sound(q: Query) {
    ShardLayout.Valid(q.layout) && q.cellSize >= 1 && q.scoreUnit != 0 && |q.active| == q.layout.shardCount
  }

  const STAGES := 9

  function GroupAt(g: int): Group {
    if g == 0 then Home else if g == 1 then Neighbours else Others
  }

  function InnerAt(r: int): int {
    if r == 0 then -1 else if r == 1 then 1 else 3
  }

  function OuterAt(r: int): int {
    if r == 0 then 1 else if r == 1 then 3 else 8
  }

  function RingCells(q: Query, r: int): seq<Int64>
    requires Sound(q)
  {
    CellsAt(Quotient(q.x, q.cellSize), Quotient(q.y, q.cellSize), SearchOffsets(InnerAt(r), OuterAt(r)))
  }

  predicate IsActive(active: seq<bool>, shard: int) {
    0 <= shard < |active| && active[shard]
  }

  /** Stage `s` is ring `s % 3` in the shards of group `s / 3`. */
  predicate InStage(q: Query, s: nat, seen: Seen)
    requires Sound(q)
  {
    && InGroup(q.layout, ShardID(q.layout, q.x, q.y), GroupAt(s / 3), seen.shard)
    && IsActive(q.active, seen.shard)
    && seen.row.cell in RingCells(q, s % 3)
  }

  /** Go's division of a distance by a unit of either sign. */
  function InUnits(distance: nat, unit: int): int
    requires unit != 0
  {
    if unit > 0 then Quotient(distance, unit) else -Quotient(distance, -unit)
  }

  /** The distance in units, plus the load. */
  function Score(q: Query, c: RiderCandidate): int
    requires Sound(q)
  {
    InUnits(Abs(q.x - c.x) + Abs(q.y - c.y), q.scoreUnit) + c.count * q.loadWeight
  }

  ghost function StagePool(q: Query, view: View, s: nat): Pool
    requires Sound(q)
  {
    map u | u in view && InStage(q, s, view[u]) :: Score(q, view[u].row.shown)
  }

  function Apart(q: Query, x: int, y: int): nat {
    (if x < q.x then q.x - x else x - q.x) + (if y < q.y then q.y - y else y - q.y)
  }

  /** The score in plain terms: whole units apart, counted toward zero whichever sign the unit has, and the weight for
      each order the rider has already. */
  function Cost(q: Query, x: int, y: int, count: int): int
    requires Sound(q)
  {
    (if q.scoreUnit > 0 then Apart(q, x, y) / q.scoreUnit else -(Apart(q, x, y) / -q.scoreUnit)) + count * q.loadWeight
  }

  lemma ScoreIsCost(q: Query, c: RiderCandidate)
    requires Sound(q)
    ensures Score(q, c) == Cost(q, c.x, c.y, c.count)
  {
  }

  lemma PoolCosts(q: Query, view: View, s: nat)
    requires Sound(q)
    ensures var pool := StagePool(q, view, s);
            forall u :: u in pool ==>
                          && u in view
                          && var c := view[u].row.shown;
                             pool[u] == Cost(q, c.x, c.y, c.count)
  {
    hide Cost, Score, Sound, InStage;
    forall u | u in view
      ensures var c := view[u].row.shown;
              Score(q, c) == Cost(q, c.x, c.y, c.count)
    {
      ScoreIsCost(q, view[u].row.shown);
    }
  }

  ghost predicate NobodyBefore(q: Query, view: View, s: nat)
    requires Sound(q)
  {
    forall t: nat :: t < s ==> StagePool(q, view, t) == map[]
  }

  ghost predicate First(q: Query, view: View, s: nat)
    requires Sound(q)
  {
    StagePool(q, view, s) != map[] && NobodyBefore(q, view, s)
  }

  /** The best few of the first stage that has anybody; nothing if no stage does. */
  ghost predicate Answers(q: Query, view: View, limit: int, best: seq<Candidate>)
    requires Sound(q)
  {
    if limit <= 0 then best == []
    else
      || (best == [] && forall s: nat :: s < STAGES ==> StagePool(q, view, s) == map[])
      || (exists s: nat :: s < STAGES && First(q, view, s) && IsBest(best, StagePool(q, view, s), limit))
  }

  lemma StageCoordinates(g: nat, r: nat)
    requires r < 3
    ensures (3 * g + r) / 3 == g && (3 * g + r) % 3 == r
  {
  }

  lemma NobodyHere(q: Query, view: View, s: nat)
    requires Sound(q) && NobodyBefore(q, view, s) && StagePool(q, view, s) == map[]
    ensures NobodyBefore(q, view, s + 1)
  {
  }

  lemma NobodyAnywhere(q: Query, view: View, limit: nat)
    requires Sound(q) && NobodyBefore(q, view, STAGES)
    ensures Answers(q, view, limit, [])
  {
  }

  lemma AnsweredHere(q: Query, view: View, limit: nat, s: nat, best: seq<Candidate>)
    requires Sound(q) && limit > 0 && s < STAGES && First(q, view, s) && IsBest(best, StagePool(q, view, s), limit)
    ensures Answers(q, view, limit, best)
  {
  }

  lemma EmptyStages(q: Query, view: View, limit: nat)
    requires Sound(q) && limit > 0 && Answers(q, view, limit, [])
    ensures forall s: nat :: s < STAGES ==> StagePool(q, view, s) == map[]
  {
    forall s: nat | s < STAGES && StagePool(q, view, s) != map[] {
      SomebodyIsBest(StagePool(q, view, s), limit);
    }
  }

  /** A search has one answer, whatever order its maps are gone through in. */
  lemma AnswerIsUnique(q: Query, view: View, limit: int, a: seq<Candidate>, b: seq<Candidate>)
    requires Sound(q) && Answers(q, view, limit, a) && Answers(q, view, limit, b)
    ensures a == b
  {
    hide StagePool;
    if limit > 0 && exists s: nat :: s < STAGES && First(q, view, s) {
      var s: nat :| s < STAGES && First(q, view, s) && IsBest(a, StagePool(q, view, s), limit);
      var t: nat :| t < STAGES && First(q, view, t) && IsBest(b, StagePool(q, view, t), limit);
      BestIsUnique(a, b, StagePool(q, view, s), limit);
    }
  }

  // ---------------------------------------------------------------------------------------------
  // Gathering
  // ---------------------------------------------------------------------------------------------

  predicate IsSeen(view: View, c: RiderCandidate) {
    c.uid in view && view[c.uid].row.shown == c
  }

  predicate KeyedView(view: View) {
    forall u :: u in view ==> view[u].row.shown.uid == u
  }

  /** The list shows exactly the riders of these shards in these cells, once each. */
  ghost predicate CollectedFrom(view: View, active: seq<bool>, shards: seq<int>, cells: seq<Int64>,
                                found: seq<RiderCandidate>) {
    && (forall c :: c in found <==>
                      && IsSeen(view, c) && view[c.uid].shard in shards
                      && IsActive(active, view[c.uid].shard) && view[c.uid].row.cell in cells)
    && (Distinct(shards) ==> Distinct(found))
  }

  /** The riders of one shard as its grid sees them. */
  ghost function ShardTable(view: View, k: int): Table {
    map u | u in view && view[u].shard == k :: view[u].row
  }

  lemma EmptyCollection(view: View, active: seq<bool>, cells: seq<Int64>)
    ensures CollectedFrom(view, active, [], cells, [])
  {
  }

  lemma CollectShard(view: View, active: seq<bool>, shards: seq<int>, cells: seq<Int64>, found: seq<RiderCandidate>,
                     k: int, extra: seq<RiderCandidate>)
    requires CollectedFrom(view, active, shards, cells, found) && Distinct(cells)
    requires if IsActive(active, k) then Gathered(ShardTable(view, k), cells, extra) else extra == []
    ensures CollectedFrom(view, active, shards + [k], cells, found + extra)
  {
    var more := shards + [k];
    forall c ensures c in found + extra <==>
                       && IsSeen(view, c) && view[c.uid].shard in more
                       && IsActive(active, view[c.uid].shard) && view[c.uid].row.cell in cells {
      if IsSeen(view, c) && view[c.uid].shard == k { assert IsShown(ShardTable(view, k), c) || !IsActive(active, k); }
    }
    if Distinct(more) {
      DistinctInit(shards, k);
      DistinctConcat(found, extra);
    }
  }

  lemma RingCellsAreDistinct(q: Query, r: int)
    requires Sound(q)
    ensures Distinct(RingCells(q, r))
  {
    SearchCellsAreDistinct(Quotient(q.x, q.cellSize), Quotient(q.y, q.cellSize), InnerAt(r), OuterAt(r));
  }

  // ---------------------------------------------------------------------------------------------
  // Choosing
  // ---------------------------------------------------------------------------------------------

  function Scored(q: Query, found: seq<RiderCandidate>): (items: seq<Candidate>)
    requires Sound(q)
    ensures |items| == |found|
    ensures forall i :: 0 <= i < |found| ==> items[i] == Candidate(found[i].uid, Score(q, found[i]))
  {
    seq(|found|, i requires 0 <= i < |found| => Candidate(found[i].uid, Score(q, found[i])))
  }

  lemma ScoredOnce(q: Query, view: View, found: seq<RiderCandidate>)
    requires Sound(q) && Distinct(found) && forall c :: c in found ==> IsSeen(view, c)
    ensures OncePerRider(Scored(q, found))
  {
    forall i, j | 0 <= i < j < |found| ensures found[i].uid != found[j].uid {
      assert found[i] in found && found[j] in found;
    }
  }

  lemma ScoredIsPool(q: Query, view: View, s: nat, shards: seq<int>, found: seq<RiderCandidate>)
    requires Sound(q) && ListsGroup(q.layout, ShardID(q.layout, q.x, q.y), GroupAt(s / 3), shards)
    requires CollectedFrom(view, q.active, shards, RingCells(q, s % 3), found)
    requires KeyedView(view)
    ensures forall c :: c in Scored(q, found) <==> InPool(StagePool(q, view, s), c)
    ensures found == [] <==> StagePool(q, view, s) == map[]
  {
    var pool := StagePool(q, view, s);
    forall u | u in view ensures u in pool <==> view[u].row.shown in found {
    }
    forall c | InPool(pool, c) ensures c in Scored(q, found) {
      var i :| 0 <= i < |found| && found[i] == view[c.riderId].row.shown;
      assert Scored(q, found)[i] == c;
    }
    forall c | c in Scored(q, found) ensures InPool(pool, c) {
      var i :| 0 <= i < |found| && Scored(q, found)[i] == c;
      assert found[i] in found;
    }
    if found != [] {
      assert found[0] in found && found[0].uid in pool;
    }
  }

  method ScoreAll(q: Query, found: seq<RiderCandidate>) returns (items: seq<Candidate>)
    requires Sound(q)
    ensures items == Scored(q, found)
  {
    items := [];
    for n := 0 to |found|
      invariant items == Scored(q, found)[..n]
    {
      items := items + [Candidate(found[n].uid, Score(q, found[n]))];
    }
  }

  method BestCandidates(q: Query, found: seq<RiderCandidate>, limit: nat, ghost view: View, ghost s: nat,
                        ghost shards: seq<int>)
    returns (best: seq<Candidate>)
    requires Sound(q) && ListsGroup(q.layout, ShardID(q.layout, q.x, q.y), GroupAt(s / 3), shards)
    requires CollectedFrom(view, q.active, shards, RingCells(q, s % 3), found)
    requires KeyedView(view)
    ensures IsBest(best, StagePool(q, view, s), limit)
    ensures forall c :: c in best ==>
                          && c.riderId in view
                          && var r := view[c.riderId].row.shown;
                             c.score == Cost(q, r.x, r.y, r.count)
  {
    PoolCosts(q, view, s);
    ScoredIsPool(q, view, s, shards, found);
    ScoredOnce(q, view, found);
    hide StagePool, CollectedFrom, ListsGroup, Scored, RingCells, Score, Sound, Cost;
    var items := ScoreAll(q, found);
    var ranked := SortRanked(items);
    best := if |ranked| > limit then ranked[..limit] else ranked;
    FirstAreBest(ranked, StagePool(q, view, s), limit);
  }
}
