/** One shard's grid of riders: objects shared with the index, bucketed by the packed id of their cell. */
module Grid {
  import opened Model
  import opened ShardLayout

  class Rider {
    const uid: Int64
    var x: int
    var y: int
    var online: bool
    var cellId: Int64
    var count: int

    constructor (uid: Int64, x: int, y: int)
      ensures this.uid == uid && this.x == x && this.y == y && count == 0
    {
      this.uid := uid;
      this.x := x;
      this.y := y;
      online := false;
      cellId := 0;
      count := 0;
    }

    /** A rider that is new to a grid keeps the position it came with. */
    method FileNew(cellId: Int64)
      modifies this`online, this`cellId
      ensures online && this.cellId == cellId
    {
      this.online, this.cellId := true, cellId;
    }

    /** The fields a grid writes when it files a rider it knows. */
    method File(x: int, y: int, cellId: Int64)
      modifies this`x, this`y, this`online, this`cellId
      ensures this.x == x && this.y == y && online && this.cellId == cellId
    {
      this.x, this.y, this.online, this.cellId := x, y, true, cellId;
    }
  }

  /** What a search reports about a rider. */
  datatype RiderCandidate = RiderCandidate(uid: Int64, x: int, y: int, count: int)

  // ---------------------------------------------------------------------------------------------
  // Packed cell ids
  // ---------------------------------------------------------------------------------------------

  /** Low 32 bits of the column, shifted up by 32 as a signed word, over the low 32 bits of the row. */
  function CellIDByCell(cellX: int, cellY: int): Int64 {
    WrapInt32(cellX) * INT32_SPAN + cellY % INT32_SPAN
  }

  /** Two cells share an id exactly when both coordinates agree in their low 32 bits. */
  lemma PackedIdsCollideExactlyWhen(x1: int, y1: int, x2: int, y2: int)
    ensures CellIDByCell(x1, y1) == CellIDByCell(x2, y2) <==>
            (x1 - x2) % INT32_SPAN == 0 && (y1 - y2) % INT32_SPAN == 0
  {
  }

  predicate FitsInt32(v: int) {
    -INT32_HALF <= v < INT32_HALF
  }

  lemma PackedIdsAreInjective(x1: int, y1: int, x2: int, y2: int)
    requires FitsInt32(x1) && FitsInt32(y1) && FitsInt32(x2) && FitsInt32(y2)
    ensures CellIDByCell(x1, y1) == CellIDByCell(x2, y2) ==> x1 == x2 && y1 == y2
  {
  }

  function CellID(cellSize: int, x: int, y: int): Int64
    requires cellSize >= 1
  {
    CellIDByCell(Quotient(x, cellSize), Quotient(y, cellSize))
  }

  // ---------------------------------------------------------------------------------------------
  // The cells a ring search visits
  // ---------------------------------------------------------------------------------------------

  function Abs(v: int): int {
    if v < 0 then -v else v
  }

  function Max(a: int, b: int): int {
    if a > b then a else b
  }

  datatype Offset = Offset(dx: int, dy: int)

  /** The offsets visited in column `dx` while `dy` runs from `-outer` to below `hi`. */
  function ColumnOffsets(dx: int, inner: int, outer: int, hi: int): seq<Offset>
    requires 0 <= outer && -outer <= hi
    decreases hi + outer
  {
    if hi == -outer then []
    else
      var before := ColumnOffsets(dx, inner, outer, hi - 1);
      if Max(Abs(dx), Abs(hi - 1)) <= inner then before else before + [Offset(dx, hi - 1)]
  }

  /** The offsets visited while `dx` runs from `-outer` to below `hi`. */
  function RingOffsets(inner: int, outer: int, hi: int): seq<Offset>
    requires 0 <= outer && -outer <= hi
    decreases hi + outer
  {
    if hi == -outer then []
    else RingOffsets(inner, outer, hi - 1) + ColumnOffsets(hi - 1, inner, outer, outer + 1)
  }

  lemma NextColumn(inner: int, outer: int, dx: int)
    requires 0 <= outer && -outer <= dx
    ensures RingOffsets(inner, outer, dx + 1) ==
            RingOffsets(inner, outer, dx) + ColumnOffsets(dx, inner, outer, outer + 1)
  {
  }

  /** The offsets of a whole search, in the order of its loops. */
  function SearchOffsets(inner: int, outer: int): seq<Offset> {
    if outer < 0 || outer <= inner then [] else RingOffsets(inner, outer, outer + 1)
  }

  predicate InRing(dx: int, dy: int, inner: int, outer: int) {
    inner < Max(Abs(dx), Abs(dy)) <= outer
  }

  lemma {:induction false} ColumnMembers(dx: int, inner: int, outer: int, hi: int)
    requires 0 <= outer && -outer <= hi
    ensures forall o :: o in ColumnOffsets(dx, inner, outer, hi) <==>
            o.dx == dx && -outer <= o.dy < hi && Max(Abs(dx), Abs(o.dy)) > inner
    ensures Distinct(ColumnOffsets(dx, inner, outer, hi))
    decreases hi + outer
  {
    if hi > -outer {
      ColumnMembers(dx, inner, outer, hi - 1);
    }
  }

  lemma {:induction false} RingMembers(inner: int, outer: int, hi: int)
    requires 0 <= outer && -outer <= hi
    ensures forall o :: o in RingOffsets(inner, outer, hi) <==>
                          -outer <= o.dx < hi && -outer <= o.dy <= outer && Max(Abs(o.dx), Abs(o.dy)) > inner
    ensures Distinct(RingOffsets(inner, outer, hi))
    decreases hi + outer
  {
    if hi > -outer {
      RingMembers(inner, outer, hi - 1);
      ColumnMembers(hi - 1, inner, outer, outer + 1);
      DistinctConcat(RingOffsets(inner, outer, hi - 1), ColumnOffsets(hi - 1, inner, outer, outer + 1));
    }
  }

  /** The loops visit each offset of the ring exactly once. */
  lemma SearchVisitsTheRing(inner: int, outer: int)
    ensures forall o :: o in SearchOffsets(inner, outer) <==> InRing(o.dx, o.dy, inner, outer)
    ensures Distinct(SearchOffsets(inner, outer))
  {
    if outer >= 0 && outer > inner {
      RingMembers(inner, outer, outer + 1);
    }
  }

  function CellAt(cellX: int, cellY: int, o: Offset): Int64 {
    CellIDByCell(cellX + o.dx, cellY + o.dy)
  }

  /** The cells behind a list of offsets. */
  function CellsAt(cellX: int, cellY: int, offsets: seq<Offset>): (cells: seq<Int64>)
    ensures |cells| == |offsets| && forall i :: 0 <= i < |offsets| ==> cells[i] == CellAt(cellX, cellY, offsets[i])
  {
    seq(|offsets|, i requires 0 <= i < |offsets| => CellAt(cellX, cellY, offsets[i]))
  }

  lemma DistinctOffsetsDistinctCells(cellX: int, cellY: int, a: Offset, b: Offset, outer: int)
    requires outer < INT32_HALF && a != b
    requires -outer <= a.dx <= outer && -outer <= a.dy <= outer && -outer <= b.dx <= outer && -outer <= b.dy <= outer
    ensures CellAt(cellX, cellY, a) != CellAt(cellX, cellY, b)
  {
    PackedIdsCollideExactlyWhen(cellX + a.dx, cellY + a.dy, cellX + b.dx, cellY + b.dy);
  }

  /** No cell is visited twice, as long as the ring is narrower than a packed coordinate. */
  lemma SearchCellsAreDistinct(cellX: int, cellY: int, inner: int, outer: int)
    requires outer < INT32_HALF
    ensures Distinct(CellsAt(cellX, cellY, SearchOffsets(inner, outer)))
  {
    var offsets := SearchOffsets(inner, outer);
    var cells := CellsAt(cellX, cellY, offsets);
    SearchVisitsTheRing(inner, outer);
    forall i, j | 0 <= i < j < |cells| ensures cells[i] != cells[j] {
      assert offsets[i] in offsets && offsets[j] in offsets;
      DistinctOffsetsDistinctCells(cellX, cellY, offsets[i], offsets[j], outer);
    }
  }

  lemma WrapAgrees(v: int)
    ensures (WrapInt32(v) - v) % INT32_SPAN == 0
  {
  }

  lemma WrapIsNearest(v: int, d: int)
    requires FitsInt32(d) && (d - v) % INT32_SPAN == 0
    ensures WrapInt32(v) == d
  {
  }

  lemma VisitedIsInRing(cellX: int, cellY: int, inner: int, outer: int, otherX: int, otherY: int)
    requires outer < INT32_HALF
    requires CellIDByCell(otherX, otherY) in CellsAt(cellX, cellY, SearchOffsets(inner, outer))
    ensures InRing(WrapInt32(otherX - cellX), WrapInt32(otherY - cellY), inner, outer)
  {
    var offsets := SearchOffsets(inner, outer);
    SearchVisitsTheRing(inner, outer);
    hide SearchOffsets, CellIDByCell, WrapInt32;
    var i :| 0 <= i < |offsets| && CellAt(cellX, cellY, offsets[i]) == CellIDByCell(otherX, otherY);
    var o := offsets[i];
    assert o in offsets;
    PackedIdsCollideExactlyWhen(cellX + o.dx, cellY + o.dy, otherX, otherY);
    WrapIsNearest(otherX - cellX, o.dx);
    WrapIsNearest(otherY - cellY, o.dy);
  }

  lemma InRingIsVisited(cellX: int, cellY: int, inner: int, outer: int, otherX: int, otherY: int)
    requires InRing(WrapInt32(otherX - cellX), WrapInt32(otherY - cellY), inner, outer)
    ensures CellIDByCell(otherX, otherY) in CellsAt(cellX, cellY, SearchOffsets(inner, outer))
  {
    var offsets := SearchOffsets(inner, outer);
    var o := Offset(WrapInt32(otherX - cellX), WrapInt32(otherY - cellY));
    SearchVisitsTheRing(inner, outer);
    WrapAgrees(otherX - cellX);
    WrapAgrees(otherY - cellY);
    PackedIdsCollideExactlyWhen(cellX + o.dx, cellY + o.dy, otherX, otherY);
    hide SearchOffsets, CellIDByCell, WrapInt32;
    var i :| 0 <= i < |offsets| && offsets[i] == o;
    assert CellsAt(cellX, cellY, offsets)[i] == CellIDByCell(otherX, otherY);
  }

  /** Cell search equals brute force: a cell is visited exactly when its Chebyshev distance lies in the ring, distances
      on an axis being taken modulo 2^32. Cells less than 2^31 apart on both axes are as far apart as they look. */
  lemma SearchIsBruteForce(cellX: int, cellY: int, inner: int, outer: int, otherX: int, otherY: int)
    requires outer < INT32_HALF
    ensures CellIDByCell(otherX, otherY) in CellsAt(cellX, cellY, SearchOffsets(inner, outer)) <==>
            InRing(WrapInt32(otherX - cellX), WrapInt32(otherY - cellY), inner, outer)
    ensures FitsInt32(otherX - cellX) && FitsInt32(otherY - cellY) ==>
              (CellIDByCell(otherX, otherY) in CellsAt(cellX, cellY, SearchOffsets(inner, outer)) <==>
               InRing(otherX - cellX, otherY - cellY, inner, outer))
  {
    if CellIDByCell(otherX, otherY) in CellsAt(cellX, cellY, SearchOffsets(inner, outer)) {
      VisitedIsInRing(cellX, cellY, inner, outer, otherX, otherY);
    }
    if InRing(WrapInt32(otherX - cellX), WrapInt32(otherY - cellY), inner, outer) {
      InRingIsVisited(cellX, cellY, inner, outer, otherX, otherY);
    }
    hide CellIDByCell, SearchOffsets;
  }

  /** A cell 2^32 columns away is visited by the narrowest search. */
  lemma FarCellIsVisited()
    ensures CellIDByCell(INT32_SPAN, 0) in CellsAt(0, 0, SearchOffsets(-1, 1))
    ensures !InRing(INT32_SPAN, 0, -1, 1)
  {
    SearchIsBruteForce(0, 0, -1, 1, INT32_SPAN, 0);
  }

  /** The three rings of a search are disjoint and together cover everything within eight cells. */
  lemma RingsPartitionRadiusEight(dx: int, dy: int)
    ensures InRing(dx, dy, -1, 8) <==> InRing(dx, dy, -1, 1) || InRing(dx, dy, 1, 3) || InRing(dx, dy, 3, 8)
    ensures !(InRing(dx, dy, -1, 1) && InRing(dx, dy, 1, 3))
    ensures !(InRing(dx, dy, 1, 3) && InRing(dx, dy, 3, 8))
    ensures !(InRing(dx, dy, -1, 1) && InRing(dx, dy, 3, 8))
  {
  }

  // ---------------------------------------------------------------------------------------------
  // Buckets
  // ---------------------------------------------------------------------------------------------

  type Riders = map<Int64, Rider>

  type Cells = map<Int64, Riders>

  predicate InCell(cells: Cells, c: Int64, u: Int64) {
    c in cells && u in cells[c]
  }

  function Taken(cells: Cells, c: Int64, u: Int64): Cells {
    if c in cells then cells[c := cells[c] - {u}] else cells
  }

  function Put(cells: Cells, c: Int64, u: Int64, rider: Rider): Cells {
    var members: Riders := if c in cells then cells[c] else map[];
    cells[c := members[u := rider]]
  }

  /** Where a rider was when the grid last heard of it, and the cell it was put into. */
  datatype Spot = Spot(x: int, y: int, cell: Int64)

  /** The cells hold exactly the riders, each in the cell of its spot. */
  ghost predicate Buckets(riders: Riders, cells: Cells, spots: map<Int64, Spot>) {
    && spots.Keys == riders.Keys
    && (forall u :: u in riders ==> InCell(cells, spots[u].cell, u) && cells[spots[u].cell][u] == riders[u])
    && (forall c, u :: InCell(cells, c, u) ==> u in riders && spots[u].cell == c)
  }

  lemma BucketsTake(riders: Riders, cells: Cells, spots: map<Int64, Spot>, u: Int64)
    requires Buckets(riders, cells, spots) && u in riders
    ensures Buckets(riders - {u}, Taken(cells, spots[u].cell, u), spots - {u})
  {
    var after := Taken(cells, spots[u].cell, u);
    forall c, v | InCell(after, c, v) ensures v in riders - {u} && (spots - {u})[v].cell == c {
      assert InCell(cells, c, v);
    }
  }

  lemma BucketsPut(riders: Riders, cells: Cells, spots: map<Int64, Spot>, u: Int64, spot: Spot, rider: Rider)
    requires Buckets(riders, cells, spots) && u !in riders
    ensures Buckets(riders[u := rider], Put(cells, spot.cell, u, rider), spots[u := spot])
  {
    var after := Put(cells, spot.cell, u, rider);
    forall d, v | InCell(after, d, v) ensures v in riders[u := rider] && spots[u := spot][v].cell == d {
      if !(d == spot.cell && v == u) { assert InCell(cells, d, v); }
    }
    forall v | v in riders ensures InCell(after, spots[v].cell, v) && after[spots[v].cell][v] == riders[v] {
      assert InCell(cells, spots[v].cell, v);
    }
  }

  lemma BucketsKeep(riders: Riders, cells: Cells, spots: map<Int64, Spot>, u: Int64, spot: Spot)
    requires Buckets(riders, cells, spots) && u in riders && spot.cell == spots[u].cell
    ensures Buckets(riders, cells, spots[u := spot])
  {
  }

  /** Taking a rider out of its cell and putting it into another, or back into the same. */
  lemma BucketsShift(riders: Riders, cells: Cells, spots: map<Int64, Spot>, u: Int64, spot: Spot)
    requires Buckets(riders, cells, spots) && u in riders
    ensures Buckets(riders, Put(Taken(cells, spots[u].cell, u), spot.cell, u, riders[u]), spots[u := spot])
  {
    BucketsTake(riders, cells, spots, u);
    BucketsPut(riders - {u}, Taken(cells, spots[u].cell, u), spots - {u}, u, spot, riders[u]);
    assert (riders - {u})[u := riders[u]] == riders;
    assert (spots - {u})[u := spot] == spots[u := spot];
  }

  // ---------------------------------------------------------------------------------------------
  // What a search gathers
  // ---------------------------------------------------------------------------------------------

  /** A rider as a plain table row: its cell and what a search shows of it. */
  datatype Row = Row(cell: Int64, shown: RiderCandidate)

  type Table = map<Int64, Row>

  predicate IsShown(table: Table, c: RiderCandidate) {
    c.uid in table && table[c.uid].shown == c
  }

  /** The list holds exactly the rows lying in the cells, once each if no cell repeats. */
  ghost predicate Gathered(table: Table, cells: seq<Int64>, found: seq<RiderCandidate>) {
    && (forall c :: c in found <==> IsShown(table, c) && table[c.uid].cell in cells)
    && (Distinct(cells) ==> Distinct(found))
  }

  lemma GatherCell(table: Table, cells: seq<Int64>, found: seq<RiderCandidate>, cell: Int64, extra: seq<RiderCandidate>)
    requires Gathered(table, cells, found) && Gathered(table, [cell], extra)
    ensures Gathered(table, cells + [cell], found + extra)
  {
    var more := cells + [cell];
    forall c ensures c in found + extra <==> IsShown(table, c) && table[c.uid].cell in more {
    }
    if Distinct(more) {
      DistinctInit(cells, cell);
      forall c | c in found ensures c !in extra {
        assert table[c.uid].cell in cells;
      }
      DistinctConcat(found, extra);
    }
  }

  lemma GatheredOf(table: Table, members: set<Int64>, cell: Int64, found: seq<RiderCandidate>)
    requires forall u :: u in members <==> u in table && table[u].cell == cell
    requires forall c :: c in found <==> IsShown(table, c) && c.uid in members
    requires Distinct(found)
    ensures Gathered(table, [cell], found)
  {
  }

  lemma NothingGathered(table: Table, cellX: int, cellY: int)
    ensures Gathered(table, CellsAt(cellX, cellY, []), [])
  {
  }

  lemma GatherOffset(table: Table, cellX: int, cellY: int, offsets: seq<Offset>, found: seq<RiderCandidate>, o: Offset,
                     extra: seq<RiderCandidate>)
    requires Gathered(table, CellsAt(cellX, cellY, offsets), found) && Gathered(table, [CellAt(cellX, cellY, o)], extra)
    ensures Gathered(table, CellsAt(cellX, cellY, offsets + [o]), found + extra)
  {
    GatherCell(table, CellsAt(cellX, cellY, offsets), found, CellAt(cellX, cellY, o), extra);
    assert CellsAt(cellX, cellY, offsets + [o]) == CellsAt(cellX, cellY, offsets) + [CellAt(cellX, cellY, o)];
  }

  // ---------------------------------------------------------------------------------------------
  // The grid
  // ---------------------------------------------------------------------------------------------

  /** The object still says what the grid knows about it, its position apart. */
  predicate Filed(r: Rider, u: Int64, spot: Spot)
    reads r
  {
    r.uid == u && r.online && r.cellId == spot.cell
  }

  predicate Shows(r: Rider, u: Int64, spot: Spot)
    reads r
  {
    Filed(r, u, spot) && r.x == spot.x && r.y == spot.y
  }

  /** Every spot's cell is that of its position. */
  ghost predicate InTheirCells(cellSize: int, spots: map<Int64, Spot>)
    requires cellSize >= 1
  {
    forall u :: u in spots ==> spots[u].cell == CellID(cellSize, spots[u].x, spots[u].y)
  }

  lemma InTheirCellsPut(cellSize: int, spots: map<Int64, Spot>, u: Int64, spot: Spot)
    requires cellSize >= 1 && InTheirCells(cellSize, spots) && spot.cell == CellID(cellSize, spot.x, spot.y)
    ensures InTheirCells(cellSize, spots[u := spot])
  {
  }

  class GridIndex {
    const cellSize: int
    var riders: Riders
    var cells: Cells

    /** What the grid knows about each rider. */
    ghost var spots: map<Int64, Spot>

    /** Each rider's cell is that of its spot, and the cells hold nobody else. */
    ghost predicate Linked()
      reads this
    {
      && cellSize >= 1 && spots.Keys == riders.Keys
      && Buckets(riders, cells, spots)
      && InTheirCells(cellSize, spots)
    }

    ghost predicate OthersShow(u: Int64)
      requires Linked()
      reads this, riders.Values
    {
      forall v :: v in riders && v != u ==> Shows(riders[v], v, spots[v])
    }

    /** Nobody but possibly rider `u` has been moved behind the grid's back. */
    ghost predicate ValidExcept(u: Int64)
      reads this, riders.Values
    {
      Linked() && OthersShow(u) && (u in riders ==> Filed(riders[u], u, spots[u]))
    }

    ghost predicate Valid()
      reads this, riders.Values
    {
      Linked() && forall u :: u in riders ==> Shows(riders[u], u, spots[u])
    }

    constructor (cellSize: int)
      ensures Valid() && riders == map[]
      ensures this.cellSize == if cellSize <= 0 then 1 else cellSize
    {
      this.cellSize := if cellSize <= 0 then 1 else cellSize;
      riders := map[];
      cells := map[];
      spots := map[];
    }

    method WriteCells(cells: Cells, ghost spots: map<Int64, Spot>)
      modifies this`cells, this`spots
      ensures this.cells == cells && this.spots == spots
    {
      this.cells := cells;
      this.spots := spots;
    }

    method WriteAll(riders: Riders, cells: Cells, ghost spots: map<Int64, Spot>)
      modifies this
      ensures this.riders == riders && this.cells == cells && this.spots == spots
    {
      this.riders := riders;
      this.cells := cells;
      this.spots := spots;
    }

    lemma OthersAreOtherObjects(u: Int64)
      requires u in riders && forall v :: v in riders ==> riders[v].uid == v
      ensures forall v :: v in riders && v != u ==> riders[v] != riders[u]
    {
    }

    /** The object is brought up to date with its spot; everybody else already is. */
    method Settle(current: Rider, x: int, y: int, c: Int64)
      requires Linked() && current.uid in riders && riders[current.uid] == current
      requires spots[current.uid] == Spot(x, y, c)
      requires OthersShow(current.uid)
      modifies current`x, current`y, current`online, current`cellId
      ensures Valid() && current.x == x && current.y == y && current.count == old(current.count)
    {
      hide Buckets, InTheirCells;
      OthersAreOtherObjects(current.uid);
      current.File(x, y, c);
    }

    /** The bookkeeping of a relocation; the object itself is brought up to date by the caller. */
    method ShiftSpot(u: Int64, spot: Spot)
      requires ValidExcept(u) && u in riders
      requires spot.cell == CellID(cellSize, spot.x, spot.y)
      modifies this`cells, this`spots
      ensures Linked() && OthersShow(u) && spots == old(spots)[u := spot]
    {
      BucketsShift(riders, cells, spots, u, spot);
      InTheirCellsPut(cellSize, spots, u, spot);
      hide Buckets, InTheirCells, Put, Taken;
      WriteCells(Put(Taken(cells, riders[u].cellId, u), spot.cell, u, riders[u]), spots[u := spot]);
    }

    /** A known rider's object takes the new position; it leaves the cell it was filed under. */
    method Relocate(current: Rider, x: int, y: int)
      requires ValidExcept(current.uid) && current.uid in riders && riders[current.uid] == current
      modifies this`cells, this`spots, current`x, current`y, current`online, current`cellId
      ensures Valid() && current.x == x && current.y == y && current.count == old(current.count)
      ensures spots == old(spots)[current.uid := Spot(x, y, CellID(cellSize, x, y))]
    {
      hide Buckets, InTheirCells;
      var c := CellID(cellSize, x, y);
      ShiftSpot(current.uid, Spot(x, y, c));
      Settle(current, x, y, c);
    }

    lemma OthersStay(rider: Rider, spot: Spot)
      requires Valid() && rider.uid !in riders
      ensures var more, places := riders[rider.uid := rider], spots[rider.uid := spot];
        more.Keys == places.Keys && forall v :: v in more && v != rider.uid ==> Shows(more[v], v, places[v])
    {
    }

    /** The bookkeeping of a new rider; its object is brought up to date by the caller. */
    method Enroll(rider: Rider, spot: Spot)
      requires Valid() && rider.uid !in riders && spot.cell == CellID(cellSize, spot.x, spot.y)
      modifies this
      ensures Linked() && riders == old(riders)[rider.uid := rider] && OthersShow(rider.uid)
      ensures spots == old(spots)[rider.uid := spot]
    {
      BucketsPut(riders, cells, spots, rider.uid, spot, rider);
      InTheirCellsPut(cellSize, spots, rider.uid, spot);
      OthersStay(rider, spot);
      hide Buckets, InTheirCells, Put, Shows;
      WriteAll(riders[rider.uid := rider], Put(cells, spot.cell, rider.uid, rider), spots[rider.uid := spot]);
    }

    method Insert(rider: Rider)
      requires Valid() && rider.uid !in riders
      modifies this, rider`online, rider`cellId
      ensures Valid() && riders == old(riders)[rider.uid := rider]
      ensures spots ==
              old(spots)[rider.uid := Spot(old(rider.x), old(rider.y), CellID(cellSize, old(rider.x), old(rider.y)))]
    {
      hide Buckets, InTheirCells;
      var c := CellID(cellSize, rider.x, rider.y);
      Enroll(rider, Spot(rider.x, rider.y, c));
      OthersAreOtherObjects(rider.uid);
      rider.FileNew(c);
    }

    /** The object the grid has for a rider, if any. */
    function Known(u: Int64): set<Rider>
      reads this
    {
      if u in riders then {riders[u]} else {}
    }

    /** Only the rider of this uid may be out of place; a rider already known here keeps its object. */
    method AddRider(rider: Rider)
      requires ValidExcept(rider.uid)
      modifies this, rider`online, rider`cellId
      modifies Known(rider.uid)`x, Known(rider.uid)`y, Known(rider.uid)`online, Known(rider.uid)`cellId
      ensures Valid()
      ensures riders == if rider.uid in old(riders) then old(riders) else old(riders)[rider.uid := rider]
      ensures spots ==
              old(spots)[rider.uid := Spot(old(rider.x), old(rider.y), CellID(cellSize, old(rider.x), old(rider.y)))]
      ensures riders[rider.uid].x == old(rider.x) && riders[rider.uid].y == old(rider.y)
      ensures riders[rider.uid].count == old(if rider.uid in riders then riders[rider.uid].count else rider.count)
    {
      hide Buckets, InTheirCells;
      if rider.uid in riders {
        Relocate(riders[rider.uid], rider.x, rider.y);
      } else {
        Insert(rider);
      }
    }

    /** A move within the cell leaves the cells alone. */
    ghost method NoteSpot(u: Int64, spot: Spot)
      requires ValidExcept(u) && u in riders && spots[u].cell == spot.cell
      requires spot.cell == CellID(cellSize, spot.x, spot.y)
      modifies this`spots
      ensures Linked() && OthersShow(u) && spots == old(spots)[u := spot]
    {
      BucketsKeep(riders, cells, spots, u, spot);
      InTheirCellsPut(cellSize, spots, u, spot);
      hide Buckets, InTheirCells;
      spots := spots[u := spot];
    }

    /** A known rider's spot changes; the cells change only if its cell does. */
    method Refile(u: Int64, spot: Spot)
      requires ValidExcept(u) && u in riders && spot.cell == CellID(cellSize, spot.x, spot.y)
      modifies this`cells, this`spots
      ensures Linked() && OthersShow(u) && spots == old(spots)[u := spot]
    {
      hide Buckets, InTheirCells;
      if riders[u].cellId == spot.cell {
        NoteSpot(u, spot);
      } else {
        ShiftSpot(u, spot);
      }
    }

    lemma FiledUnder(u: Int64)
      requires Valid()
      ensures ValidExcept(u)
      ensures u in riders ==> riders[u].uid == u && riders[u].cellId == spots[u].cell && riders[u].online
    {
      if u in riders { assert Shows(riders[u], u, spots[u]); }
    }

    method MoveKnown(u: Int64, x: int, y: int)
      requires Valid() && u in riders
      modifies this`cells, this`spots, riders[u]
      ensures Valid() && spots == old(spots)[u := Spot(x, y, CellID(cellSize, x, y))]
      ensures riders[u].x == x && riders[u].y == y && riders[u].count == old(riders[u].count)
    {
      hide Buckets, InTheirCells, CellID;
      var c := CellID(cellSize, x, y);
      FiledUnder(u);
      Refile(u, Spot(x, y, c));
      Settle(riders[u], x, y, c);
    }

    method MoveRider(u: Int64, x: int, y: int)
      requires Valid()
      modifies this`cells, this`spots, if u in riders then {riders[u]} else {}
      ensures Valid()
      ensures u !in riders ==> spots == old(spots)
      ensures u in riders ==>
                && spots == old(spots)[u := Spot(x, y, CellID(cellSize, x, y))]
                && riders[u].x == x && riders[u].y == y && riders[u].count == old(riders[u].count)
    {
      hide Buckets, InTheirCells, CellID;
      FiledUnder(u);
      if u !in riders || !riders[u].online { return; }
      MoveKnown(u, x, y);
    }

    method DeleteRider(u: Int64)
      requires Valid()
      modifies this, if u in riders then {riders[u]} else {}
      ensures Valid() && riders == old(riders) - {u} && spots == old(spots) - {u}
      ensures u in old(riders) ==> old(riders)[u].count == old(riders[u].count)
    {
      if u !in riders { return; }
      var current := riders[u];
      BucketsTake(riders, cells, spots, u);
      cells := Taken(cells, current.cellId, u);
      riders := riders - {u};
      spots := spots - {u};
      current.online := false;
    }

    /** The plain rider table the grid stands for. */
    ghost function AsTable(): (table: Table)
      requires Linked()
      reads this, riders.Values
    {
      map u | u in riders :: Row(spots[u].cell, RiderCandidate(u, spots[u].x, spots[u].y, riders[u].count))
    }

    /** What the search shows of a rider it finds in a cell. */
    function CandidateIn(cell: Int64, u: Int64): (c: RiderCandidate)
      requires Valid() && InCell(cells, cell, u)
      reads this, riders.Values
      ensures c.uid == u && IsShown(AsTable(), c)
    {
      assert Shows(riders[u], u, spots[u]);
      var rider := cells[cell][u];
      RiderCandidate(rider.uid, rider.x, rider.y, rider.count)
    }

    lemma CellHolds(cell: Int64)
      requires Linked()
      ensures forall u :: InCell(cells, cell, u) <==> u in AsTable() && AsTable()[u].cell == cell
    {
    }

    method CellCandidates(cell: Int64) returns (found: seq<RiderCandidate>)
      requires Valid()
      ensures Gathered(AsTable(), [cell], found)
    {
      found := [];
      var pending := if cell in cells then cells[cell].Keys else {};
      ghost var table := AsTable();
      ghost var members := pending;
      CellHolds(cell);
      while pending != {}
        invariant pending <= members
        invariant forall c :: c in found <==> IsShown(table, c) && c.uid in members && c.uid !in pending
        invariant Distinct(found)
        decreases |pending|
      {
        var u :| u in pending;
        assert InCell(cells, cell, u);
        var c := CandidateIn(cell, u);
        pending := pending - {u};
        found := found + [c];
      }
      GatheredOf(table, members, cell, found);
    }

    /** One turn of the outer loop: the column's cells are added to what was found before. */
    method ColumnCandidates(cellX: int, cellY: int, dx: int, innerRadius: int, outerRadius: int,
                            ghost done: seq<Offset>, before: seq<RiderCandidate>)
      returns (found: seq<RiderCandidate>)
      requires Valid() && outerRadius >= 0
      requires Gathered(AsTable(), CellsAt(cellX, cellY, done), before)
      ensures Gathered(AsTable(),
                       CellsAt(cellX, cellY, done + ColumnOffsets(dx, innerRadius, outerRadius, outerRadius + 1)),
                       found)
    {
      found := before;
      ghost var table := AsTable();
      assert done + [] == done;
      hide Gathered, CellsAt, CellAt, Linked, AsTable;
      for dy := -outerRadius to outerRadius + 1
        invariant Gathered(table, CellsAt(cellX, cellY, done + ColumnOffsets(dx, innerRadius, outerRadius, dy)), found)
      {
        if Max(Abs(dx), Abs(dy)) > innerRadius {
          var o := Offset(dx, dy);
          var extra := CellCandidates(CellAt(cellX, cellY, o));
          ghost var column := ColumnOffsets(dx, innerRadius, outerRadius, dy);
          GatherOffset(table, cellX, cellY, done + column, found, o, extra);
          assert done + column + [o] == done + (column + [o]);
          found := found + extra;
        }
      }
    }

    method SearchRing(cellX: int, cellY: int, innerRadius: int, outerRadius: int) returns (found: seq<RiderCandidate>)
      requires Valid() && outerRadius >= 0
      ensures Gathered(AsTable(), CellsAt(cellX, cellY, RingOffsets(innerRadius, outerRadius, outerRadius + 1)), found)
    {
      found := [];
      ghost var table := AsTable();
      ghost var done := [];
      NothingGathered(table, cellX, cellY);
      assert done == RingOffsets(innerRadius, outerRadius, -outerRadius);
      hide *;
      for dx := -outerRadius to outerRadius + 1
        invariant done == RingOffsets(innerRadius, outerRadius, dx)
        invariant Gathered(table, CellsAt(cellX, cellY, done), found)
      {
        NextColumn(innerRadius, outerRadius, dx);
        found := ColumnCandidates(cellX, cellY, dx, innerRadius, outerRadius, done, found);
        done := done + ColumnOffsets(dx, innerRadius, outerRadius, outerRadius + 1);
      }
    }

    /** Every rider in a cell of the ring, and nobody else. */
    method FindNearbyCandidatesInRange(x: int, y: int, innerRadius: int, outerRadius: int)
      returns (found: seq<RiderCandidate>)
      requires Valid()
      ensures Gathered(AsTable(),
                       CellsAt(Quotient(x, cellSize), Quotient(y, cellSize), SearchOffsets(innerRadius, outerRadius)),
                       found)
    {
      found := [];
      if outerRadius < 0 || outerRadius <= innerRadius { return; }
      var cellX := Quotient(x, cellSize);
      var cellY := Quotient(y, cellSize);
      hide Gathered, CellsAt, Linked, AsTable, RingOffsets;
      found := SearchRing(cellX, cellY, innerRadius, outerRadius);
    }
  }
}
