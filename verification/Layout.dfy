/** The shard layout: how positions map to cells, cells to shards, and which shards are neighbours. */
module ShardLayout {
  import opened Model

  /** Go's integer division by a positive divisor: toward zero. */
  function Quotient(a: int, b: int): int
    requires b > 0
  {
    if a >= 0 then a / b else -((-a) / b)
  }

  lemma QuotientBounds(a: int, b: int)
    requires b > 0
    ensures a >= 0 ==> b * Quotient(a, b) <= a < b * (Quotient(a, b) + 1)
    ensures a <= 0 ==> b * (Quotient(a, b) - 1) < a <= b * Quotient(a, b)
  {
  }

  function ClampInt(value: int, minValue: int, maxValue: int): (r: int)
    ensures minValue <= maxValue ==> minValue <= r <= maxValue
    ensures minValue <= value <= maxValue ==> r == value
  {
    if maxValue < minValue then minValue
    else if value < minValue then minValue
    else if value > maxValue then maxValue
    else value
  }

  datatype Layout = Layout(
    areaSize: int, cellSize: int, shardCount: int, shardCols: int, shardRows: int,
    cellsPerAxis: int, cellsPerShardX: int, cellsPerShardY: int)

  lemma SquareGrows(c: nat)
    ensures c <= c * c
  {
  }

  /** The least number whose square reaches `n`, from `c` upwards. */
  function CeilSqrtFrom(n: nat, c: nat): (r: nat)
    requires c == 0 || (c - 1) * (c - 1) < n
    ensures n <= r * r
    ensures r == 0 || (r - 1) * (r - 1) < n
    decreases n - c
  {
    if n <= c * c then c
    else
      SquareGrows(c);
      CeilSqrtFrom(n, c + 1)
  }

  function AtLeastOne(v: int): int {
    if v < 1 then 1 else v
  }

  function CeilDiv(a: int, b: int): int
    requires b > 0
  {
    Quotient(a + b - 1, b)
  }

  lemma NonPositiveProduct(a: int, b: int)
    requires a >= 0 && b <= 0
    ensures a * b <= 0
  {
  }

  lemma RowsArePositive(count: int, cols: int)
    requires count >= 1 && cols >= 1
    ensures CeilDiv(count, cols) >= 1
    ensures (CeilDiv(count, cols) - 1) * cols < count <= CeilDiv(count, cols) * cols
  {
    var rows := CeilDiv(count, cols);
    QuotientBounds(count + cols - 1, cols);
    assert cols * rows <= count + cols - 1 < cols * (rows + 1);
    assert cols * (rows + 1) == cols * rows + cols;
    if rows <= 0 {
      NonPositiveProduct(cols, rows);
    }
    assert (rows - 1) * cols == cols * rows - cols;
  }

  function NewLayout(areaSize: int, cellSize: int, shardCount: int): Layout {
    var area := if areaSize <= 0 then 1 else areaSize;
    var cell := if cellSize <= 0 then 1 else cellSize;
    var count := if shardCount <= 0 then 1 else shardCount;
    var cols := AtLeastOne(CeilSqrtFrom(count, 0));
    var rows := CeilDiv(count, cols);
    RowsArePositive(count, cols);
    var perAxis := CeilDiv(area, cell);
    Layout(area, cell, count, cols, rows, perAxis,
           AtLeastOne(CeilDiv(perAxis, cols)), AtLeastOne(CeilDiv(perAxis, rows)))
  }

  /** What the constructor guarantees and the operations rely on. */
  predicate Valid(l: Layout) {
    && l.cellSize >= 1 && l.shardCount >= 1 && l.shardCols >= 1 && l.shardRows >= 1
    && l.cellsPerAxis >= 1 && l.cellsPerShardX >= 1 && l.cellsPerShardY >= 1
    && (l.shardRows - 1) * l.shardCols < l.shardCount <= l.shardRows * l.shardCols
  }

  lemma NewLayoutIsValid(areaSize: int, cellSize: int, shardCount: int)
    ensures Valid(NewLayout(areaSize, cellSize, shardCount))
    ensures var l := NewLayout(areaSize, cellSize, shardCount);
            && l.areaSize == (if areaSize >= 1 then areaSize else 1)
            && l.cellSize == (if cellSize >= 1 then cellSize else 1)
            && l.shardCount == (if shardCount >= 1 then shardCount else 1)
  {
    var area := if areaSize <= 0 then 1 else areaSize;
    var cell := if cellSize <= 0 then 1 else cellSize;
    var count := if shardCount <= 0 then 1 else shardCount;
    RowsArePositive(count, AtLeastOne(CeilSqrtFrom(count, 0)));
    RowsArePositive(area, cell);
  }

  /** `n` pieces of `size` are just enough for `total`. */
  predicate JustCovers(n: int, size: int, total: int) {
    (n - 1) * size < total <= n * size
  }

  /** The grid is as small as it can be: the columns are the ceiling square root of the shard count, and cells,
      shard widths and shard heights just cover what they divide. */
  lemma NewLayoutJustCovers(areaSize: int, cellSize: int, shardCount: int)
    ensures var l := NewLayout(areaSize, cellSize, shardCount);
            && (l.shardCols - 1) * (l.shardCols - 1) < l.shardCount <= l.shardCols * l.shardCols
            && JustCovers(l.shardRows, l.shardCols, l.shardCount)
            && JustCovers(l.cellsPerAxis, l.cellSize, l.areaSize)
            && JustCovers(l.cellsPerShardX, l.shardCols, l.cellsPerAxis)
            && JustCovers(l.cellsPerShardY, l.shardRows, l.cellsPerAxis)
  {
    var area := if areaSize <= 0 then 1 else areaSize;
    var cell := if cellSize <= 0 then 1 else cellSize;
    var count := if shardCount <= 0 then 1 else shardCount;
    var cols := AtLeastOne(CeilSqrtFrom(count, 0));
    RowsArePositive(count, cols);
    RowsArePositive(area, cell);
    var perAxis := CeilDiv(area, cell);
    RowsArePositive(perAxis, cols);
    RowsArePositive(perAxis, CeilDiv(count, cols));
  }

  // ---------------------------------------------------------------------------------------------
  // Positions to shards
  // ---------------------------------------------------------------------------------------------

  function CellOn(l: Layout, v: int): int
    requires Valid(l)
  {
    ClampInt(Quotient(v, l.cellSize), 0, l.cellsPerAxis - 1)
  }

  function ShardColumn(l: Layout, x: int): (column: int)
    requires Valid(l)
    ensures 0 <= column < l.shardCols
  {
    ClampInt(Quotient(CellOn(l, x), l.cellsPerShardX), 0, l.shardCols - 1)
  }

  function ShardRow(l: Layout, y: int): (row: int)
    requires Valid(l)
    ensures 0 <= row < l.shardRows
  {
    ClampInt(Quotient(CellOn(l, y), l.cellsPerShardY), 0, l.shardRows - 1)
  }

  lemma ProductNonNegative(a: int, b: int)
    requires a >= 0 && b >= 0
    ensures a * b >= 0
  {
  }

  function ShardID(l: Layout, x: int, y: int): (id: int)
    requires Valid(l)
    ensures 0 <= id < l.shardCount
  {
    ProductNonNegative(ShardRow(l, y), l.shardCols);
    var id := ShardRow(l, y) * l.shardCols + ShardColumn(l, x);
    if id >= l.shardCount then l.shardCount - 1 else id
  }

  // ---------------------------------------------------------------------------------------------
  // Neighbours
  // ---------------------------------------------------------------------------------------------

  function Column(l: Layout, id: int): int
    requires Valid(l)
  {
    id % l.shardCols
  }

  function Row(l: Layout, id: int): int
    requires Valid(l)
  {
    id / l.shardCols
  }

  predicate InRange(l: Layout, id: int) {
    0 <= id < l.shardCount
  }

  /** Existing shards at most one column and one row apart. */
  predicate AreNeighbours(l: Layout, a: int, b: int)
    requires Valid(l)
  {
    && InRange(l, a) && InRange(l, b)
    && -1 <= Column(l, a) - Column(l, b) <= 1
    && -1 <= Row(l, a) - Row(l, b) <= 1
  }

  lemma Distributes(d: int, a: int, b: int)
    ensures d * (a - b) == d * a - d * b && a * d == d * a && b * d == d * b
  {
  }

  lemma ScalesUp(d: int, k: int)
    requires d > 0 && k > 0
    ensures d * k >= d
  {
  }

  lemma DivModUnique(q: int, r: int, d: int)
    requires d > 0 && 0 <= r < d
    ensures (q * d + r) / d == q && (q * d + r) % d == r
  {
    var n := q * d + r;
    var k := n / d;
    assert n == d * k + n % d;
    Distributes(d, k, q);
    Distributes(d, q, k);
    if k > q { ScalesUp(d, k - q); }
    if k < q { ScalesUp(d, q - k); }
  }

  lemma CoordinatesOf(l: Layout, id: int)
    requires Valid(l) && InRange(l, id)
    ensures 0 <= Column(l, id) < l.shardCols && 0 <= Row(l, id) < l.shardRows
    ensures id == Row(l, id) * l.shardCols + Column(l, id)
  {
    assert id == l.shardCols * (id / l.shardCols) + id % l.shardCols;
    Distributes(l.shardCols, id / l.shardCols, l.shardRows);
    if Row(l, id) >= l.shardRows {
      if Row(l, id) > l.shardRows { ScalesUp(l.shardCols, Row(l, id) - l.shardRows); }
    }
    if Row(l, id) < 0 {
      NonPositiveProduct(l.shardCols, Row(l, id) + 1);
    }
  }

  lemma IdOfCoordinates(l: Layout, column: int, row: int)
    requires Valid(l) && 0 <= column < l.shardCols && 0 <= row < l.shardRows
    ensures Column(l, row * l.shardCols + column) == column && Row(l, row * l.shardCols + column) == row
    ensures 0 <= row * l.shardCols + column
  {
    DivModUnique(row, column, l.shardCols);
    ProductNonNegative(row, l.shardCols);
  }

  /** The shard at an offset from another, if the grid has one there. */
  function AtOffset(l: Layout, id: int, dx: int, dy: int): Option<int>
    requires Valid(l)
  {
    var x := Column(l, id) + dx;
    var y := Row(l, id) + dy;
    if x < 0 || x >= l.shardCols || y < 0 || y >= l.shardRows then None
    else if y * l.shardCols + x < l.shardCount then Some(y * l.shardCols + x)
    else None
  }

  lemma OffsetIsNeighbour(l: Layout, id: int, dx: int, dy: int)
    requires Valid(l) && InRange(l, id) && -1 <= dx <= 1 && -1 <= dy <= 1 && AtOffset(l, id, dx, dy).Some?
    ensures AreNeighbours(l, id, AtOffset(l, id, dx, dy).value)
    ensures Column(l, AtOffset(l, id, dx, dy).value) == Column(l, id) + dx
    ensures Row(l, AtOffset(l, id, dx, dy).value) == Row(l, id) + dy
  {
    IdOfCoordinates(l, Column(l, id) + dx, Row(l, id) + dy);
  }

  lemma NeighbourIsOffset(l: Layout, id: int, other: int)
    requires Valid(l) && AreNeighbours(l, id, other)
    ensures AtOffset(l, id, Column(l, other) - Column(l, id), Row(l, other) - Row(l, id)) == Some(other)
  {
    CoordinatesOf(l, other);
  }

  /** The offsets the double loop has been through when it is about to look at (`dx`, `dy`). */
  predicate Before(dx: int, dy: int, thisDx: int, thisDy: int) {
    dy < thisDy || (dy == thisDy && dx < thisDx)
  }

  ghost predicate Collected(l: Layout, shardID: int, ids: seq<int>, dx: int, dy: int)
    requires Valid(l) && InRange(l, shardID)
  {
    && Distinct(ids)
    && (forall i :: 0 <= i < |ids| ==>
                      && AreNeighbours(l, shardID, ids[i])
                      && Before(Column(l, ids[i]) - Column(l, shardID), Row(l, ids[i]) - Row(l, shardID), dx, dy))
    && (forall other ::
          AreNeighbours(l, shardID, other)
          && Before(Column(l, other) - Column(l, shardID), Row(l, other) - Row(l, shardID), dx, dy)
          ==> other in ids)
  }

  lemma CollectOne(l: Layout, shardID: int, ids: seq<int>, dx: int, dy: int)
    requires Valid(l) && InRange(l, shardID) && -1 <= dx <= 1 && -1 <= dy <= 1
    requires Collected(l, shardID, ids, dx, dy)
    ensures var here := AtOffset(l, shardID, dx, dy);
            Collected(l, shardID, if here.Some? then ids + [here.value] else ids, dx + 1, dy)
  {
    var at := AtOffset(l, shardID, dx, dy);
    if at.Some? { OffsetIsNeighbour(l, shardID, dx, dy); }
    var more := if at.Some? then ids + [at.value] else ids;
    forall other | AreNeighbours(l, shardID, other)
                   && Before(Column(l, other) - Column(l, shardID), Row(l, other) - Row(l, shardID), dx + 1, dy)
      ensures other in more
    {
      NeighbourIsOffset(l, shardID, other);
      if !Before(Column(l, other) - Column(l, shardID), Row(l, other) - Row(l, shardID), dx, dy) {
        assert at == Some(other) && more[|ids|] == other;
      }
    }
  }

  lemma NothingCollected(l: Layout, shardID: int)
    requires Valid(l) && InRange(l, shardID)
    ensures Collected(l, shardID, [], -1, -1)
  {
  }

  lemma NextRow(l: Layout, shardID: int, ids: seq<int>, dy: int)
    requires Valid(l) && InRange(l, shardID) && Collected(l, shardID, ids, 2, dy)
    ensures Collected(l, shardID, ids, -1, dy + 1)
  {
  }

  /** One turn of the outer loop. */
  method CollectRow(l: Layout, shardID: int, before: seq<int>, dy: int) returns (ids: seq<int>)
    requires Valid(l) && InRange(l, shardID) && -1 <= dy <= 1 && Collected(l, shardID, before, -1, dy)
    ensures Collected(l, shardID, ids, -1, dy + 1)
  {
    ids := before;
    hide Collected, AtOffset, Valid;
    for dx := -1 to 2
      invariant Collected(l, shardID, ids, dx, dy)
    {
      CollectOne(l, shardID, ids, dx, dy);
      var at := AtOffset(l, shardID, dx, dy);
      if at.Some? { ids := ids + [at.value]; }
    }
    NextRow(l, shardID, ids, dy);
  }

  lemma AllRows(l: Layout, shardID: int, ids: seq<int>)
    requires Valid(l) && InRange(l, shardID) && Collected(l, shardID, ids, -1, 2)
    ensures Distinct(ids)
    ensures forall other :: other in ids <==> AreNeighbours(l, shardID, other)
  {
  }

  method NeighborShardIDs(l: Layout, shardID: int) returns (ids: seq<int>)
    requires Valid(l)
    ensures Distinct(ids)
    ensures forall other :: other in ids <==> AreNeighbours(l, shardID, other)
  {
    ids := [];
    if shardID < 0 || shardID >= l.shardCount { return; }
    NothingCollected(l, shardID);
    hide Collected, AreNeighbours, Valid, Distinct;
    for dy := -1 to 2
      invariant Collected(l, shardID, ids, -1, dy)
    {
      ids := CollectRow(l, shardID, ids, dy);
    }
    AllRows(l, shardID, ids);
  }

  /** A shard is its own neighbour, and being neighbours is mutual. */
  lemma NeighboursAreReflexiveAndSymmetric(l: Layout, a: int, b: int)
    requires Valid(l)
    ensures InRange(l, a) ==> AreNeighbours(l, a, a)
    ensures AreNeighbours(l, a, b) <==> AreNeighbours(l, b, a)
  {
  }

  // ---------------------------------------------------------------------------------------------
  // Shards are rectangles
  // ---------------------------------------------------------------------------------------------

  lemma ScalingKeepsOrder(d: int, a: int, b: int)
    requires d > 0
    ensures a < b <==> d * a < d * b
  {
    Distributes(d, a, b);
    Distributes(d, b, a);
    if a < b { ScalesUp(d, b - a); }
    if b < a { ScalesUp(d, a - b); }
  }

  lemma QuotientIsAtMost(a: int, b: int, k: int)
    requires b > 0 && a < (k + 1) * b
    ensures a / b <= k
  {
    assert a == b * (a / b) + a % b;
    ScalingKeepsOrder(b, a / b, k + 1);
  }

  lemma QuotientIsAtLeast(a: int, b: int, k: int)
    requires b > 0 && k * b <= a
    ensures k <= a / b
  {
    assert a == b * (a / b) + a % b;
    ScalingKeepsOrder(b, k, a / b + 1);
  }

  lemma QuotientIs(a: int, b: int, k: int)
    requires b > 0 && k * b <= a < (k + 1) * b
    ensures a / b == k
  {
    QuotientIsAtLeast(a, b, k);
    QuotientIsAtMost(a, b, k);
  }

  lemma Nested(b: int, c: int, q: int, r: int, s: int)
    requires b > 0 && c > 0 && 0 <= r < c && 0 <= s < b
    ensures c * b > 0
    ensures q * (c * b) <= b * (c * q + r) + s < (q + 1) * (c * b)
  {
    ScalesUp(b, c);
    assert b * (c * q + r) == q * (c * b) + b * r && (q + 1) * (c * b) == q * (c * b) + c * b;
    ProductNonNegative(b, r);
    ProductNonNegative(b, c - 1 - r);
    assert b * (c - 1 - r) == c * b - b - b * r;
  }

  /** Dividing twice is dividing by the product. */
  lemma DividesTwice(a: int, b: int, c: int)
    requires a >= 0 && b > 0 && c > 0
    ensures c * b > 0 && a / b / c == a / (c * b)
  {
    var m := a / b;
    var q := m / c;
    Nested(b, c, q, m % c, a % b);
    assert a == b * (c * q + m % c) + a % b by {
      assert m == c * q + m % c && a == b * m + a % b;
    }
    QuotientIs(a, c * b, q);
  }

  /** One axis: the place of a position among pieces of `width` cells is the place, among pieces as many units wide, of
      the nearest position inside the area. */
  lemma PlaceOnAxis(area: int, cell: int, perAxis: int, width: int, count: int, v: int)
    requires cell >= 1 && width >= 1 && count >= 1 && perAxis >= 1 && area >= 1
    requires JustCovers(perAxis, cell, area) && perAxis <= width * count
    ensures var inside := if v < 0 then 0 else if v >= area then area - 1 else v;
            && width * cell > 0
            && ClampInt(Quotient(ClampInt(Quotient(v, cell), 0, perAxis - 1), width), 0, count - 1)
               == inside / (width * cell)
            && 0 <= inside / (width * cell) < count
  {
    var inside := if v < 0 then 0 else if v >= area then area - 1 else v;
    assert inside < perAxis * cell && (perAxis - 1) * cell <= area - 1;
    QuotientIsAtMost(inside, cell, perAxis - 1);
    QuotientIsAtLeast(inside, cell, 0);
    if v >= area {
      QuotientIsAtLeast(v, cell, perAxis - 1);
      QuotientIsAtLeast(inside, cell, perAxis - 1);
    }
    assert ClampInt(Quotient(v, cell), 0, perAxis - 1) == inside / cell;
    QuotientIsAtMost(inside / cell, width, count - 1);
    QuotientIsAtLeast(inside / cell, width, 0);
    DividesTwice(inside, cell, width);
  }

  /** Shards are the rectangles of a grid, numbered along its rows: a position belongs to the one it lies in; one whose
      rectangle the last row does not have belongs to the last shard; and one outside the area belongs where the nearest
      position inside does. */
  lemma ShardOfPosition(areaSize: int, cellSize: int, shardCount: int, x: int, y: int)
    ensures var l := NewLayout(areaSize, cellSize, shardCount);
            var w, h := l.cellsPerShardX * l.cellSize, l.cellsPerShardY * l.cellSize;
            var u := if x < 0 then 0 else if x >= l.areaSize then l.areaSize - 1 else x;
            var v := if y < 0 then 0 else if y >= l.areaSize then l.areaSize - 1 else y;
            && Valid(l) && w > 0 && h > 0 && 0 <= u / w < l.shardCols && 0 <= v / h < l.shardRows
            && ShardID(l, x, y) == if v / h * l.shardCols + u / w < l.shardCount then v / h * l.shardCols + u / w
                                   else l.shardCount - 1
  {
    var l := NewLayout(areaSize, cellSize, shardCount);
    NewLayoutIsValid(areaSize, cellSize, shardCount);
    NewLayoutJustCovers(areaSize, cellSize, shardCount);
    hide NewLayout;
    PlaceOnAxis(l.areaSize, l.cellSize, l.cellsPerAxis, l.cellsPerShardX, l.shardCols, x);
    PlaceOnAxis(l.areaSize, l.cellSize, l.cellsPerAxis, l.cellsPerShardY, l.shardRows, y);
    hide JustCovers, ClampInt, Quotient;
  }

  lemma Spans(a: int, b: int)
    requires b > 0
    ensures a / b * b <= a < (a / b + 1) * b
  {
    assert a == b * (a / b) + a % b;
  }

  function LastColumn(l: Layout): int
    requires Valid(l)
  {
    Column(l, l.shardCount - 1)
  }

  lemma LastShard(l: Layout)
    requires Valid(l)
    ensures Row(l, l.shardCount - 1) == l.shardRows - 1 && 0 <= LastColumn(l) < l.shardCols
    ensures l.shardCount - 1 == (l.shardRows - 1) * l.shardCols + LastColumn(l)
  {
    var rest := l.shardCount - 1 - (l.shardRows - 1) * l.shardCols;
    Distributes(l.shardCols, l.shardRows - 1, 1);
    IdOfCoordinates(l, rest, l.shardRows - 1);
  }

  /** A place that does not exist is in the last row, beyond the last shard. */
  lemma MissingPlace(l: Layout, row: int, column: int)
    requires Valid(l) && 0 <= row < l.shardRows && 0 <= column < l.shardCols
    requires row * l.shardCols + column >= l.shardCount
    ensures row == Row(l, l.shardCount - 1) && Column(l, l.shardCount - 1) < column
  {
    LastShard(l);
    if row < l.shardRows - 1 {
      ScalesUp(l.shardCols, l.shardRows - 1 - row);
      Distributes(l.shardCols, l.shardRows - 1, row);
    }
  }

  lemma MissingSpan(x: int, w: int, column: int)
    requires w > 0 && column < x / w
    ensures (column + 1) * w <= x
  {
    Spans(x, w);
    ScalingKeepsOrder(w, column, x / w);
    if column + 1 < x / w { ScalingKeepsOrder(w, column + 1, x / w); }
  }

  lemma PlaceSpans(l: Layout, w: int, h: int, x: int, y: int, id: int)
    requires Valid(l) && w > 0 && h > 0 && 0 <= x / w < l.shardCols && 0 <= y / h < l.shardRows
    requires id == if y / h * l.shardCols + x / w < l.shardCount then y / h * l.shardCols + x / w else l.shardCount - 1
    ensures Row(l, id) == y / h
    ensures Column(l, id) == x / w || (id == l.shardCount - 1 && Column(l, id) < x / w)
  {
    var row, column := y / h, x / w;
    if row * l.shardCols + column < l.shardCount {
      IdOfCoordinates(l, column, row);
    } else {
      MissingPlace(l, row, column);
    }
  }

  /** The other way around: the row of a position's shard spans the position, and so does its column, unless the
      position's place is one beyond the end of a short last row. */
  lemma ShardSpansPosition(areaSize: int, cellSize: int, shardCount: int, x: int, y: int)
    requires areaSize >= 1 && 0 <= x < areaSize && 0 <= y < areaSize
    ensures var l := NewLayout(areaSize, cellSize, shardCount);
            var w, h := l.cellsPerShardX * l.cellSize, l.cellsPerShardY * l.cellSize;
            && Valid(l)
            && var id := ShardID(l, x, y);
               && Row(l, id) * h <= y < (Row(l, id) + 1) * h
               && (Column(l, id) * w <= x < (Column(l, id) + 1) * w
                   || (id == l.shardCount - 1 && (Column(l, id) + 1) * w <= x))
  {
    var l := NewLayout(areaSize, cellSize, shardCount);
    NewLayoutIsValid(areaSize, cellSize, shardCount);
    ShardOfPosition(areaSize, cellSize, shardCount, x, y);
    hide NewLayout, ShardID, Row, Column, Valid;
    var w, h, id := l.cellsPerShardX * l.cellSize, l.cellsPerShardY * l.cellSize, ShardID(l, x, y);
    PlaceSpans(l, w, h, x, y, id);
    Spans(x, w);
    Spans(y, h);
    if Column(l, id) < x / w { MissingSpan(x, w, Column(l, id)); }
  }

  // ---------------------------------------------------------------------------------------------
  // Locality
  // ---------------------------------------------------------------------------------------------

  lemma ClampIsContracting(a: int, b: int, lo: int, hi: int, d: int)
    requires d >= 0 && lo <= hi && -d <= a - b <= d
    ensures -d <= ClampInt(a, lo, hi) - ClampInt(b, lo, hi) <= d
  {
  }

  lemma QuotientMovesByOne(a: int, b: int, width: int)
    requires width >= 1 && 0 <= a && 0 <= b && -width <= a - b <= width
    ensures -1 <= Quotient(a, width) - Quotient(b, width) <= 1
  {
    var p := Quotient(a, width);
    var q := Quotient(b, width);
    QuotientBounds(a, width);
    QuotientBounds(b, width);
    Distributes(width, p, q);
    if p - q >= 2 { ScalesUp(width, p - q - 1); Distributes(width, p - q, 1); }
    if q - p >= 2 { ScalesUp(width, q - p - 1); Distributes(width, q - p, 1); Distributes(width, q, p); }
  }

  lemma AxisLocality(l: Layout, u: int, v: int, width: int, count: int)
    requires Valid(l) && width >= 1 && count >= 1
    requires -width <= Quotient(u, l.cellSize) - Quotient(v, l.cellSize) <= width
    ensures -1 <= ClampInt(Quotient(CellOn(l, u), width), 0, count - 1) -
                  ClampInt(Quotient(CellOn(l, v), width), 0, count - 1) <= 1
  {
    ClampIsContracting(Quotient(u, l.cellSize), Quotient(v, l.cellSize), 0, l.cellsPerAxis - 1, width);
    QuotientMovesByOne(CellOn(l, u), CellOn(l, v), width);
    ClampIsContracting(Quotient(CellOn(l, u), width), Quotient(CellOn(l, v), width), 0, count - 1, 1);
  }

  /** The position's place in the grid of shards is one the last row does not have: it is given the last shard. */
  predicate OffGrid(l: Layout, x: int, y: int)
    requires Valid(l)
  {
    ShardRow(l, y) == l.shardRows - 1 && ShardColumn(l, x) > LastColumn(l)
  }

  /** A shard's row is always its position's; so is its column, but for positions off the grid. */
  lemma CoordinatesOfShard(l: Layout, x: int, y: int)
    requires Valid(l)
    ensures Row(l, ShardID(l, x, y)) == ShardRow(l, y)
    ensures Column(l, ShardID(l, x, y)) == if OffGrid(l, x, y) then LastColumn(l) else ShardColumn(l, x)
  {
    var row, column := ShardRow(l, y), ShardColumn(l, x);
    IdOfCoordinates(l, column, row);
    LastShard(l);
    if row < l.shardRows - 1 {
      Distributes(l.shardCols, l.shardRows - 1 - row, -1);
      ProductNonNegative(l.shardRows - 2 - row, l.shardCols);
      assert (l.shardRows - 1) * l.shardCols == row * l.shardCols + l.shardCols + (l.shardRows - 2 - row) * l.shardCols;
    }
  }

  /** Positions whose cells are within one shard's width and height of each other lie in the same shard or in
      neighbouring ones, if and only if it does not happen that one of them is off the grid and the other one is on it
      more than a column beyond the last shard's. */
  lemma NearbyPositionsAreNeighbours(l: Layout, x1: int, y1: int, x2: int, y2: int)
    requires Valid(l)
    requires -l.cellsPerShardX <= Quotient(x1, l.cellSize) - Quotient(x2, l.cellSize) <= l.cellsPerShardX
    requires -l.cellsPerShardY <= Quotient(y1, l.cellSize) - Quotient(y2, l.cellSize) <= l.cellsPerShardY
    ensures AreNeighbours(l, ShardID(l, x1, y1), ShardID(l, x2, y2)) <==>
            && (OffGrid(l, x1, y1) && !OffGrid(l, x2, y2) ==> ShardColumn(l, x2) <= LastColumn(l) + 1)
            && (OffGrid(l, x2, y2) && !OffGrid(l, x1, y1) ==> ShardColumn(l, x1) <= LastColumn(l) + 1)
  {
    AxisLocality(l, x1, x2, l.cellsPerShardX, l.shardCols);
    AxisLocality(l, y1, y2, l.cellsPerShardY, l.shardRows);
    CoordinatesOfShard(l, x1, y1);
    CoordinatesOfShard(l, x2, y2);
    hide ShardID, ShardColumn, ShardRow, Column, Row, LastColumn;
  }

  /** On a full grid nothing is off it. */
  lemma FullGridsAreLocal(l: Layout, x: int, y: int)
    requires Valid(l) && l.shardCols * l.shardRows == l.shardCount
    ensures !OffGrid(l, x, y)
  {
    LastShard(l);
    Distributes(l.shardCols, l.shardRows - 1, 1);
  }

  /** On a ragged one it does happen: of seven shards in three columns, the last row has one. */
  lemma RaggedGridsAreNotLocal()
    ensures var l := NewLayout(3, 1, 7);
            && Valid(l) && Quotient(2, l.cellSize) - Quotient(1, l.cellSize) == 1 == l.cellsPerShardY
            && ShardID(l, 2, 2) == 6 && ShardID(l, 2, 1) == 5 && !AreNeighbours(l, 6, 5)
  {
    NewLayoutIsValid(3, 1, 7);
    assert CeilSqrtFrom(7, 3) == 3;
    assert CeilSqrtFrom(7, 0) == 3;
  }
}
