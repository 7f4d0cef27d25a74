// Tables: placing HTML cells on a grid, and turning placed cells into table elements
// only when they are in range and do not overlap.

module Tables {
  import opened Common

  /** A parsed th or td; the spans are whatever integers the markup holds. */
  datatype HtmlCell = HtmlCell(text: string, rowSpan: int, colSpan: int, header: bool)

  datatype Cell = Cell(text: string, row: int, col: int, rowSpan: int, colSpan: int, header: bool)

  type Slot = (int, int)

  function Slots(c: Cell): set<Slot> {
    set r, k | c.row <= r < c.row + c.rowSpan && c.col <= k < c.col + c.colSpan :: (r, k)
  }

  predicate Covers(c: Cell, r: int, k: int) {
    c.row <= r < c.row + c.rowSpan && c.col <= k < c.col + c.colSpan
  }

  lemma SlotsAreCovered(c: Cell, r: int, k: int)
    ensures (r, k) in Slots(c) <==> Covers(c, r, k)
  {
  }

  function Occupied(cells: seq<Cell>): set<Slot> {
    if cells == [] then {} else Occupied(cells[..|cells| - 1]) + Slots(cells[|cells| - 1])
  }

  lemma {:induction false} OccupiedBySome(cells: seq<Cell>, r: int, k: int)
    ensures (r, k) in Occupied(cells) <==> exists j :: 0 <= j < |cells| && Covers(cells[j], r, k)
  {
    if cells != [] {
      OccupiedBySome(cells[..|cells| - 1], r, k);
      SlotsAreCovered(cells[|cells| - 1], r, k);
    }
  }

  // ----- Placing HTML cells -----

  function RowTail(occupied: set<Slot>, r: int, c: int): set<Slot> {
    set s | s in occupied && s.0 == r && s.1 >= c
  }

  function FirstFree(occupied: set<Slot>, r: int, c: int): (k: int)
    ensures k >= c && (r, k) !in occupied
    ensures forall m :: c <= m < k ==> (r, m) in occupied
    decreases RowTail(occupied, r, c)
  {
    if (r, c) !in occupied then c
    else
      assert (r, c) in RowTail(occupied, r, c) && (r, c) !in RowTail(occupied, r, c + 1);
      FirstFree(occupied, r, c + 1)
  }

  /** Where the next cell of the current row is first tried. */
  function NextColumn(cells: seq<Cell>, rowStart: nat): int {
    if |cells| <= rowStart then 0 else cells[|cells| - 1].col + cells[|cells| - 1].colSpan
  }

  function Place(cells: seq<Cell>, rowStart: nat, h: HtmlCell, r: int): Cell {
    Cell(h.text, r, FirstFree(Occupied(cells), r, NextColumn(cells, rowStart)), h.rowSpan, h.colSpan, h.header)
  }

  function PlaceRow(before: seq<Cell>, row: seq<HtmlCell>, r: int): (cells: seq<Cell>)
    ensures |cells| == |before| + |row| && before <= cells
  {
    if row == [] then before
    else
      var placed := PlaceRow(before, row[..|row| - 1], r);
      placed + [Place(placed, |before|, row[|row| - 1], r)]
  }

  function PlaceRows(rows: seq<seq<HtmlCell>>): seq<Cell> {
    if rows == [] then [] else PlaceRow(PlaceRows(rows[..|rows| - 1]), rows[|rows| - 1], |rows| - 1)
  }

  /** The reported number of columns. */
  function Width(cells: seq<Cell>): int {
    if cells == [] then 0
    else
      var w, last := Width(cells[..|cells| - 1]), cells[|cells| - 1];
      if w < last.col + last.colSpan then last.col + last.colSpan else w
  }

  /** The cell's rows before r have been added to what was occupied. */
  ghost predicate Marked(occupied: set<Slot>, before: set<Slot>, cell: Cell, r: int) {
    forall s :: s in occupied <==> s in before || (s in Slots(cell) && s.0 < r)
  }

  ghost predicate MarkedRow(occupied: set<Slot>, before: set<Slot>, cell: Cell, r: int, c: int) {
    forall s :: s in occupied <==> s in before || (s in Slots(cell) && (s.0 < r || (s.0 == r && s.1 < c)))
  }

  method MarkSlots(occupied0: set<Slot>, cell: Cell) returns (occupied: set<Slot>)
    ensures occupied == occupied0 + Slots(cell)
  {
    occupied := occupied0;
    var r := cell.row;
    while r < cell.row + cell.rowSpan
      invariant cell.rowSpan > 0 ==> r <= cell.row + cell.rowSpan
      invariant Marked(occupied, occupied0, cell, r)
    {
      var c := cell.col;
      while c < cell.col + cell.colSpan
        invariant cell.colSpan > 0 ==> c <= cell.col + cell.colSpan
        invariant MarkedRow(occupied, occupied0, cell, r, c)
      {
        occupied := occupied + {(r, c)};
        c := c + 1;
      }
      r := r + 1;
    }
  }

  method HtmlTableCells(rows: seq<seq<HtmlCell>>) returns (cells: seq<Cell>, nrows: nat, ncols: int)
    ensures cells == PlaceRows(rows) && nrows == |rows| && ncols == Width(cells)
  {
    cells, ncols := [], 0;
    var occupied: set<Slot> := {};
    for r := 0 to |rows|
      invariant cells == PlaceRows(rows[..r]) && ncols == Width(cells) && occupied == Occupied(cells)
    {
      assert rows[..r + 1][..r] == rows[..r];
      cells, ncols, occupied := PlaceHtmlRow(cells, ncols, occupied, rows[r], r);
    }
    assert rows[..|rows|] == rows;
    nrows := |rows|;
  }

  method SkipOccupied(occupied: set<Slot>, r: int, start: int) returns (c: int)
    ensures c == FirstFree(occupied, r, start)
  {
    c := start;
    while (r, c) in occupied
      invariant FirstFree(occupied, r, c) == FirstFree(occupied, r, start)
      decreases RowTail(occupied, r, c)
    {
      assert (r, c) in RowTail(occupied, r, c) && (r, c) !in RowTail(occupied, r, c + 1);
      c := c + 1;
    }
  }

  method PlaceHtmlRow(cells0: seq<Cell>, ncols0: int, occupied0: set<Slot>, row: seq<HtmlCell>, r: int)
    returns (cells: seq<Cell>, ncols: int, occupied: set<Slot>)
    requires ncols0 == Width(cells0) && occupied0 == Occupied(cells0)
    ensures cells == PlaceRow(cells0, row, r) && ncols == Width(cells) && occupied == Occupied(cells)
  {
    cells, ncols, occupied := cells0, ncols0, occupied0;
    var c := 0;
    assert Placing(cells0, row[..0], r, cells, c, ncols, occupied);
    hide Placing;
    for i := 0 to |row|
      invariant Placing(cells0, row[..i], r, cells, c, ncols, occupied)
    {
      PlacingNext(cells0, row, i, r, cells, c, ncols, occupied);
      c := SkipOccupied(occupied, r, c);
      var cell := Cell(row[i].text, r, c, row[i].rowSpan, row[i].colSpan, row[i].header);
      occupied := MarkSlots(occupied, cell);
      cells := cells + [cell];
      c := c + cell.colSpan;
      ncols := if ncols < c then c else ncols;
    }
    assert row[..|row|] == row;
    PlacedRow(cells0, row, r, cells, c, ncols, occupied);
  }

  /** The loop's variables while a row is placed. */
  ghost predicate Placing(cells0: seq<Cell>, row: seq<HtmlCell>, r: int, cells: seq<Cell>, c: int, ncols: int, occupied: set<Slot>) {
    && cells == PlaceRow(cells0, row, r) && c == NextColumn(cells, |cells0|)
    && ncols == Width(cells) && occupied == Occupied(cells)
  }

  lemma PlacedRow(cells0: seq<Cell>, row: seq<HtmlCell>, r: int, cells: seq<Cell>, c: int, ncols: int, occupied: set<Slot>)
    requires Placing(cells0, row, r, cells, c, ncols, occupied)
    ensures cells == PlaceRow(cells0, row, r) && ncols == Width(cells) && occupied == Occupied(cells)
  {
  }

  lemma PlacingNext(cells0: seq<Cell>, row: seq<HtmlCell>, i: nat, r: int, cells: seq<Cell>, c: int, ncols: int, occupied: set<Slot>)
    requires i < |row| && Placing(cells0, row[..i], r, cells, c, ncols, occupied)
    ensures var h := row[i];
            var cell := Cell(h.text, r, FirstFree(occupied, r, c), h.rowSpan, h.colSpan, h.header);
            var next := cell.col + cell.colSpan;
            Placing(cells0, row[..i + 1], r, cells + [cell], next, if ncols < next then next else ncols, occupied + Slots(cell))
  {
    hide PlaceRow, Width, Occupied, FirstFree, Slots;
    assert row[..i + 1] == row[..i] + [row[i]];
    PlaceOneMore(cells0, row[..i], row[i], r);
    AppendCell(cells, Place(cells, |cells0|, row[i], r));
  }

  lemma AppendCell(cells: seq<Cell>, c: Cell)
    ensures Occupied(cells + [c]) == Occupied(cells) + Slots(c)
    ensures Width(cells + [c]) == if Width(cells) < c.col + c.colSpan then c.col + c.colSpan else Width(cells)
  {
    assert (cells + [c])[..|cells + [c]| - 1] == cells;
  }

  // ----- What placement guarantees -----

  ghost predicate StartsFree(cells: seq<Cell>, k: int)
    requires 0 <= k < |cells|
  {
    (cells[k].row, cells[k].col) !in Occupied(cells[..k])
  }

  /** Cells come in row order; every cell starts on a slot no earlier cell covers. */
  ghost predicate WellPlaced(cells: seq<Cell>) {
    && (forall k :: 0 <= k < |cells| ==> StartsFree(cells, k))
    && (forall j, k :: 0 <= j <= k < |cells| ==> cells[j].row <= cells[k].row)
  }

  lemma AppendPlaced(cells: seq<Cell>, c: Cell)
    requires WellPlaced(cells) && (c.row, c.col) !in Occupied(cells)
    requires forall j :: 0 <= j < |cells| ==> cells[j].row <= c.row
    ensures WellPlaced(cells + [c])
  {
    var longer := cells + [c];
    forall k | 0 <= k < |longer| ensures StartsFree(longer, k) {
      if k < |cells| {
        assert longer[..k] == cells[..k] && StartsFree(cells, k);
      } else {
        assert longer[..k] == cells;
      }
    }
  }

  lemma {:induction false} PlaceRowWell(before: seq<Cell>, row: seq<HtmlCell>, r: int)
    requires WellPlaced(before) && forall j :: 0 <= j < |before| ==> before[j].row <= r
    ensures WellPlaced(PlaceRow(before, row, r))
    ensures forall j :: 0 <= j < |PlaceRow(before, row, r)| ==> PlaceRow(before, row, r)[j].row <= r
  {
    if row != [] {
      PlaceRowWell(before, row[..|row| - 1], r);
      var placed := PlaceRow(before, row[..|row| - 1], r);
      AppendPlaced(placed, Place(placed, |before|, row[|row| - 1], r));
    }
  }

  lemma {:induction false} PlacementIsWell(rows: seq<seq<HtmlCell>>)
    ensures WellPlaced(PlaceRows(rows))
    ensures forall j :: 0 <= j < |PlaceRows(rows)| ==> PlaceRows(rows)[j].row <= |rows| - 1
  {
    if rows != [] {
      PlacementIsWell(rows[..|rows| - 1]);
      PlaceRowWell(PlaceRows(rows[..|rows| - 1]), rows[|rows| - 1], |rows| - 1);
    }
  }

  /** The width covers every cell, and no narrower non-negative width does. */
  lemma {:induction false} WidthIsTight(cells: seq<Cell>)
    ensures Width(cells) >= 0
    ensures forall k :: 0 <= k < |cells| ==> cells[k].col + cells[k].colSpan <= Width(cells)
    ensures Width(cells) == 0 || exists k :: 0 <= k < |cells| && cells[k].col + cells[k].colSpan == Width(cells)
  {
    if cells != [] {
      var init := cells[..|cells| - 1];
      WidthIsTight(init);
      if Width(cells) == Width(init) && Width(init) != 0 {
        var k :| 0 <= k < |init| && init[k].col + init[k].colSpan == Width(init);
        assert cells[k] == init[k];
      }
    }
  }

  // ----- Table elements -----

  datatype TableError = InvalidExtent | OverlappingCells

  datatype Extent = Extent(row: int, col: int, rowSpan: int, colSpan: int)

  /** The text grid, the merged extents, and the emitted cells, as stored on the table element. */
  datatype TableData = TableData(grid: seq<seq<string>>, merged: seq<Extent>, cells: seq<Cell>)

  predicate InRange(c: Cell, nrows: int, ncols: int) {
    c.rowSpan >= 1 && c.colSpan >= 1 && c.row >= 0 && c.col >= 0 && c.row + c.rowSpan <= nrows && c.col + c.colSpan <= ncols
  }

  ghost predicate Apart(a: Cell, b: Cell) {
    Slots(a) !! Slots(b)
  }

  /** In range and pairwise disjoint. */
  ghost predicate Acceptable(cells: seq<Cell>, nrows: int, ncols: int) {
    && (forall k :: 0 <= k < |cells| ==> InRange(cells[k], nrows, ncols))
    && (forall j, k :: 0 <= j < k < |cells| ==> Apart(cells[j], cells[k]))
  }

  function MergedExtents(cells: seq<Cell>): seq<Extent> {
    if cells == [] then []
    else
      var last := cells[|cells| - 1];
      MergedExtents(cells[..|cells| - 1])
      + if last.rowSpan > 1 || last.colSpan > 1 then [Extent(last.row, last.col, last.rowSpan, last.colSpan)] else []
  }

  ghost predicate IsGrid(grid: seq<seq<string>>, nrows: int, ncols: int) {
    && |grid| == (if nrows < 0 then 0 else nrows)
    && forall r :: 0 <= r < |grid| ==> |grid[r]| == if ncols < 0 then 0 else ncols
  }

  /** Each grid slot holds the text of the cell that starts there, and nothing elsewhere. */
  ghost predicate GridShows(grid: seq<seq<string>>, cells: seq<Cell>) {
    && (forall k :: 0 <= k < |cells| ==> SlotHolds(grid, cells[k].row, cells[k].col, cells[k].text))
    && (forall r, c :: 0 <= r < |grid| && 0 <= c < |grid[r]| && grid[r][c] != "" ==> StartsAt(cells, r, c))
  }

  ghost predicate SlotHolds(grid: seq<seq<string>>, r: int, c: int, text: string) {
    0 <= r < |grid| && 0 <= c < |grid[r]| && grid[r][c] == text
  }

  ghost predicate StartsAt(cells: seq<Cell>, r: int, c: int) {
    exists k :: 0 <= k < |cells| && cells[k].row == r && cells[k].col == c
  }

  /** Claim a cell's slots one by one, stopping at the first that is taken. */
  method ClaimSlots(occupied0: set<Slot>, cell: Cell) returns (occupied: set<Slot>, clash: bool)
    ensures clash <==> !(occupied0 !! Slots(cell))
    ensures !clash ==> occupied == occupied0 + Slots(cell)
  {
    occupied, clash := occupied0, false;
    var r := cell.row;
    while r < cell.row + cell.rowSpan
      invariant cell.rowSpan > 0 ==> r <= cell.row + cell.rowSpan
      invariant Marked(occupied, occupied0, cell, r)
      invariant forall s :: s in occupied0 && s.0 < r ==> s !in Slots(cell)
    {
      var c := cell.col;
      while c < cell.col + cell.colSpan
        invariant cell.colSpan > 0 ==> c <= cell.col + cell.colSpan
        invariant MarkedRow(occupied, occupied0, cell, r, c)
        invariant forall s :: s in occupied0 && (s.0 < r || (s.0 == r && s.1 < c)) ==> s !in Slots(cell)
      {
        if (r, c) in occupied {
          SlotsAreCovered(cell, r, c);
          assert (r, c) in occupied0 && (r, c) in Slots(cell);
          clash := true;
          return;
        }
        occupied := occupied + {(r, c)};
        c := c + 1;
      }
      r := r + 1;
    }
  }

  lemma ApartFromAll(cells: seq<Cell>, c: Cell)
    ensures Occupied(cells) !! Slots(c) <==> forall j :: 0 <= j < |cells| ==> Apart(cells[j], c)
  {
    if !(Occupied(cells) !! Slots(c)) {
      var s :| s in Occupied(cells) && s in Slots(c);
      OccupiedBySome(cells, s.0, s.1);
      var j :| 0 <= j < |cells| && Covers(cells[j], s.0, s.1);
      SlotsAreCovered(cells[j], s.0, s.1);
      assert !Apart(cells[j], c);
    }
    forall j | 0 <= j < |cells| && !Apart(cells[j], c) ensures !(Occupied(cells) !! Slots(c)) {
      var s :| s in Slots(cells[j]) && s in Slots(c);
      SlotsAreCovered(cells[j], s.0, s.1);
      OccupiedBySome(cells, s.0, s.1);
    }
  }

  lemma ExtendShows(grid: seq<seq<string>>, cells: seq<Cell>, c: Cell, nrows: int, ncols: int)
    requires IsGrid(grid, nrows, ncols) && GridShows(grid, cells) && InRange(c, nrows, ncols)
    requires forall j :: 0 <= j < |cells| ==> Apart(cells[j], c) && InRange(cells[j], nrows, ncols)
    ensures var next := grid[c.row := grid[c.row][c.col := c.text]];
            IsGrid(next, nrows, ncols) && GridShows(next, cells + [c])
  {
    var next := grid[c.row := grid[c.row][c.col := c.text]];
    var longer := cells + [c];
    forall k | 0 <= k < |longer| ensures SlotHolds(next, longer[k].row, longer[k].col, longer[k].text) {
      if k < |cells| {
        assert SlotHolds(grid, cells[k].row, cells[k].col, cells[k].text);
        SlotsAreCovered(cells[k], cells[k].row, cells[k].col);
        SlotsAreCovered(c, c.row, c.col);
        assert Apart(cells[k], c);
      }
    }
    forall r, k | 0 <= r < |next| && 0 <= k < |next[r]| && next[r][k] != "" ensures StartsAt(longer, r, k) {
      if r == c.row && k == c.col {
        assert longer[|cells|] == c;
      } else {
        assert grid[r][k] != "" && StartsAt(cells, r, k);
        var j :| 0 <= j < |cells| && cells[j].row == r && cells[j].col == k;
        assert longer[j] == cells[j];
      }
    }
  }

  lemma AcceptableAppend(cells: seq<Cell>, c: Cell, nrows: int, ncols: int)
    ensures Acceptable(cells + [c], nrows, ncols) <==>
            Acceptable(cells, nrows, ncols) && InRange(c, nrows, ncols) && forall j :: 0 <= j < |cells| ==> Apart(cells[j], c)
  {
    var longer := cells + [c];
    assert longer[|cells|] == c && forall k :: 0 <= k < |cells| ==> longer[k] == cells[k];
    if Acceptable(longer, nrows, ncols) {
      forall k | 0 <= k < |cells| ensures InRange(cells[k], nrows, ncols) { assert InRange(longer[k], nrows, ncols); }
      forall j, k | 0 <= j < k < |cells| ensures Apart(cells[j], cells[k]) { assert Apart(longer[j], longer[k]); }
      forall j | 0 <= j < |cells| ensures Apart(cells[j], c) { assert Apart(longer[j], longer[|cells|]); }
    }
  }

  lemma {:induction false} PrefixAcceptable(cells: seq<Cell>, n: nat, nrows: int, ncols: int)
    requires n <= |cells| && Acceptable(cells, nrows, ncols)
    ensures Acceptable(cells[..n], nrows, ncols)
  {
    forall j, k | 0 <= j < k < n ensures Apart(cells[..n][j], cells[..n][k]) {
      assert Apart(cells[j], cells[k]);
    }
  }

  /** What looking at one more cell decides. */
  lemma OneMoreCell(cells: seq<Cell>, i: nat, nrows: int, ncols: int)
    requires i < |cells| && Acceptable(cells[..i], nrows, ncols)
    ensures Acceptable(cells[..i + 1], nrows, ncols) <==> InRange(cells[i], nrows, ncols) && Occupied(cells[..i]) !! Slots(cells[i])
    ensures Occupied(cells[..i + 1]) == Occupied(cells[..i]) + Slots(cells[i])
    ensures MergedExtents(cells[..i + 1]) ==
            MergedExtents(cells[..i]) +
            if cells[i].rowSpan > 1 || cells[i].colSpan > 1 then [Extent(cells[i].row, cells[i].col, cells[i].rowSpan, cells[i].colSpan)] else []
  {
    hide Acceptable, Slots;
    assert cells[..i + 1] == cells[..i] + [cells[i]] && cells[..i + 1][..i] == cells[..i];
    AcceptableAppend(cells[..i], cells[i], nrows, ncols);
    ApartFromAll(cells[..i], cells[i]);
    AppendCell(cells[..i], cells[i]);
  }

  lemma ShowOneMore(grid: seq<seq<string>>, cells: seq<Cell>, i: nat, nrows: int, ncols: int)
    requires i < |cells| && IsGrid(grid, nrows, ncols) && GridShows(grid, cells[..i])
    requires Acceptable(cells[..i + 1], nrows, ncols) && InRange(cells[i], nrows, ncols)
    ensures var c := cells[i];
            var next := grid[c.row := grid[c.row][c.col := c.text]];
            IsGrid(next, nrows, ncols) && GridShows(next, cells[..i + 1])
  {
    hide GridShows;
    assert cells[..i + 1] == cells[..i] + [cells[i]];
    forall j | 0 <= j < i ensures Apart(cells[..i][j], cells[i]) && InRange(cells[..i][j], nrows, ncols) {
      assert Apart(cells[..i + 1][j], cells[..i + 1][i]) && InRange(cells[..i + 1][j], nrows, ncols);
    }
    ExtendShows(grid, cells[..i], cells[i], nrows, ncols);
  }

  /** Accepts exactly in-range, pairwise disjoint cells, and then shows each text where its cell starts. */
  method TableElements(cells: seq<Cell>, nrows: int, ncols: int) returns (r: Result<TableData, TableError>)
    ensures r.Ok? <==> Acceptable(cells, nrows, ncols)
    ensures r.Ok? ==>
      && IsGrid(r.value.grid, nrows, ncols) && GridShows(r.value.grid, cells)
      && r.value.merged == MergedExtents(cells) && r.value.cells == cells
  {
    var height: nat, width: nat := if nrows < 0 then 0 else nrows, if ncols < 0 then 0 else ncols;
    var grid := seq(height, _ => seq(width, _ => ""));
    var merged: seq<Extent> := [];
    var occupied: set<Slot> := {};
    assert Acceptable(cells[..0], nrows, ncols) && GridShows(grid, cells[..0]) && MergedExtents(cells[..0]) == [];
    assert Occupied(cells[..0]) == {};
    hide Acceptable, GridShows, MergedExtents, Occupied, Slots;
    for i := 0 to |cells|
      invariant IsGrid(grid, nrows, ncols) && GridShows(grid, cells[..i])
      invariant merged == MergedExtents(cells[..i]) && occupied == Occupied(cells[..i])
      invariant Acceptable(cells[..i], nrows, ncols)
    {
      var c := cells[i];
      OneMoreCell(cells, i, nrows, ncols);
      if !InRange(c, nrows, ncols) {
        RejectPrefix(cells, i + 1, nrows, ncols);
        return Err(InvalidExtent);
      }
      var claimed, clash := ClaimSlots(occupied, c);
      if clash {
        RejectPrefix(cells, i + 1, nrows, ncols);
        return Err(OverlappingCells);
      }
      ShowOneMore(grid, cells, i, nrows, ncols);
      occupied := claimed;
      grid := grid[c.row := grid[c.row][c.col := c.text]];
      if c.rowSpan > 1 || c.colSpan > 1 {
        merged := merged + [Extent(c.row, c.col, c.rowSpan, c.colSpan)];
      }
    }
    assert cells[..|cells|] == cells;
    r := Ok(TableData(grid, merged, cells));
  }

  lemma RejectPrefix(cells: seq<Cell>, n: nat, nrows: int, ncols: int)
    requires n <= |cells| && !Acceptable(cells[..n], nrows, ncols)
    ensures !Acceptable(cells, nrows, ncols)
  {
    if Acceptable(cells, nrows, ncols) {
      PrefixAcceptable(cells, n, nrows, ncols);
    }
  }

  // ----- Placed HTML cells as table elements -----

  /** Cell k's own row is free of earlier cells across its whole width. */
  ghost predicate ClearFirstRow(cells: seq<Cell>, k: int)
    requires 0 <= k < |cells|
  {
    forall c :: cells[k].col <= c < cells[k].col + cells[k].colSpan ==> (cells[k].row, c) !in Occupied(cells[..k])
  }

  /** An earlier cell that meets a later one already meets it in the later one's first row. */
  lemma MeetsInFirstRow(cells: seq<Cell>, j: int, k: int)
    requires WellPlaced(cells) && 0 <= j < k < |cells| && cells[k].rowSpan >= 1
    ensures ClearFirstRow(cells, k) ==> Apart(cells[j], cells[k])
  {
    forall s | s in Slots(cells[j]) && s in Slots(cells[k]) ensures !ClearFirstRow(cells, k) {
      SlotsAreCovered(cells[j], s.0, s.1);
      SlotsAreCovered(cells[k], s.0, s.1);
      assert cells[j].row <= cells[k].row;
      assert cells[..k][j] == cells[j] && Covers(cells[..k][j], cells[k].row, s.1);
      OccupiedBySome(cells[..k], cells[k].row, s.1);
    }
  }

  lemma ApartIsClear(cells: seq<Cell>, k: int)
    requires 0 <= k < |cells| && cells[k].rowSpan >= 1
    requires forall j :: 0 <= j < k ==> Apart(cells[j], cells[k])
    ensures ClearFirstRow(cells, k)
  {
    forall c | cells[k].col <= c < cells[k].col + cells[k].colSpan ensures (cells[k].row, c) !in Occupied(cells[..k]) {
      ApartFromAll(cells[..k], cells[k]);
      SlotsAreCovered(cells[k], cells[k].row, c);
    }
  }

  lemma {:induction false} PlaceRowColumns(before: seq<Cell>, row: seq<HtmlCell>, r: int)
    requires forall k :: 0 <= k < |before| ==> before[k].col >= 0
    requires forall k :: 0 <= k < |PlaceRow(before, row, r)| ==> PlaceRow(before, row, r)[k].colSpan >= 1
    ensures forall k :: 0 <= k < |PlaceRow(before, row, r)| ==> PlaceRow(before, row, r)[k].col >= 0
  {
    if row != [] {
      var placed := PlaceRow(before, row[..|row| - 1], r);
      assert forall k :: 0 <= k < |placed| ==> PlaceRow(before, row, r)[k] == placed[k];
      PlaceRowColumns(before, row[..|row| - 1], r);
    }
  }

  lemma {:induction false} ColumnsNonNegative(rows: seq<seq<HtmlCell>>)
    requires forall k :: 0 <= k < |PlaceRows(rows)| ==> PlaceRows(rows)[k].colSpan >= 1
    ensures forall k :: 0 <= k < |PlaceRows(rows)| ==> PlaceRows(rows)[k].col >= 0
  {
    if rows != [] {
      var before := PlaceRows(rows[..|rows| - 1]);
      assert before <= PlaceRows(rows);
      assert forall k :: 0 <= k < |before| ==> before[k] == PlaceRows(rows)[k];
      ColumnsNonNegative(rows[..|rows| - 1]);
      PlaceRowColumns(before, rows[|rows| - 1], |rows| - 1);
    }
  }

  lemma {:induction false} RowsNonNegative(rows: seq<seq<HtmlCell>>)
    ensures forall k :: 0 <= k < |PlaceRows(rows)| ==> PlaceRows(rows)[k].row >= 0
  {
    if rows != [] {
      RowsNonNegative(rows[..|rows| - 1]);
      RowStays(PlaceRows(rows[..|rows| - 1]), rows[|rows| - 1], |rows| - 1);
    }
  }

  lemma {:induction false} RowStays(before: seq<Cell>, row: seq<HtmlCell>, r: int)
    requires r >= 0 && forall k :: 0 <= k < |before| ==> before[k].row >= 0
    ensures forall k :: 0 <= k < |PlaceRow(before, row, r)| ==> PlaceRow(before, row, r)[k].row >= 0
  {
    if row != [] {
      RowStays(before, row[..|row| - 1], r);
    }
  }

  /** Positive spans, no row extent past the last row, and a clear first row. */
  ghost predicate FitsTable(cells: seq<Cell>, k: int, nrows: int)
    requires 0 <= k < |cells|
  {
    cells[k].rowSpan >= 1 && cells[k].colSpan >= 1 && cells[k].row + cells[k].rowSpan <= nrows && ClearFirstRow(cells, k)
  }

  lemma AcceptedCellsFit(cells: seq<Cell>, nrows: int, ncols: int, k: int)
    requires Acceptable(cells, nrows, ncols) && 0 <= k < |cells|
    ensures FitsTable(cells, k, nrows)
  {
    assert InRange(cells[k], nrows, ncols);
    forall j | 0 <= j < k ensures Apart(cells[j], cells[k]) {}
    ApartIsClear(cells, k);
  }

  lemma FittingCellsAccepted(rows: seq<seq<HtmlCell>>)
    requires forall k :: 0 <= k < |PlaceRows(rows)| ==> FitsTable(PlaceRows(rows), k, |rows|)
    ensures Acceptable(PlaceRows(rows), |rows|, Width(PlaceRows(rows)))
  {
    var cells := PlaceRows(rows);
    PlacementIsWell(rows);
    WidthIsTight(cells);
    RowsNonNegative(rows);
    forall k | 0 <= k < |cells| ensures cells[k].colSpan >= 1 && cells[k].rowSpan >= 1 { assert FitsTable(cells, k, |rows|); }
    ColumnsNonNegative(rows);
    forall k | 0 <= k < |cells| ensures InRange(cells[k], |rows|, Width(cells)) { assert FitsTable(cells, k, |rows|); }
    forall j, k | 0 <= j < k < |cells| ensures Apart(cells[j], cells[k]) {
      assert FitsTable(cells, k, |rows|);
      MeetsInFirstRow(cells, j, k);
    }
  }

  /** Exactly when HTML placement yields a table: positive spans, no row extent past the last row, and
      no column span running into a cell that hangs down from an earlier row. */
  lemma PlacedTableAccepted(rows: seq<seq<HtmlCell>>)
    ensures Acceptable(PlaceRows(rows), |rows|, Width(PlaceRows(rows))) <==>
            forall k :: 0 <= k < |PlaceRows(rows)| ==> FitsTable(PlaceRows(rows), k, |rows|)
  {
    var cells := PlaceRows(rows);
    if Acceptable(cells, |rows|, Width(cells)) {
      forall k | 0 <= k < |cells| ensures FitsTable(cells, k, |rows|) {
        AcceptedCellsFit(cells, |rows|, Width(cells), k);
      }
    }
    if forall k :: 0 <= k < |cells| ==> FitsTable(cells, k, |rows|) {
      FittingCellsAccepted(rows);
    }
  }

  predicate OneColumn(c: Cell, nrows: int) {
    c.colSpan == 1 && c.rowSpan >= 1 && c.row + c.rowSpan <= nrows
  }

  /** With column spans of one and row extents in range, placed cells are always accepted. */
  lemma SingleColumnsAccepted(rows: seq<seq<HtmlCell>>)
    requires forall k :: 0 <= k < |PlaceRows(rows)| ==> OneColumn(PlaceRows(rows)[k], |rows|)
    ensures Acceptable(PlaceRows(rows), |rows|, Width(PlaceRows(rows)))
  {
    var cells := PlaceRows(rows);
    PlacementIsWell(rows);
    forall k | 0 <= k < |cells| ensures FitsTable(cells, k, |rows|) {
      assert StartsFree(cells, k) && OneColumn(cells[k], |rows|);
    }
    FittingCellsAccepted(rows);
  }

  lemma PlaceWhereFree(cells: seq<Cell>, rowStart: nat, h: HtmlCell, r: int)
    requires forall j :: 0 <= j < |cells| ==> !Covers(cells[j], r, NextColumn(cells, rowStart))
    ensures Place(cells, rowStart, h, r) == Cell(h.text, r, NextColumn(cells, rowStart), h.rowSpan, h.colSpan, h.header)
  {
    OccupiedBySome(cells, r, NextColumn(cells, rowStart));
  }

  lemma PlaceOneMore(before: seq<Cell>, row: seq<HtmlCell>, h: HtmlCell, r: int)
    ensures PlaceRow(before, row + [h], r) == PlaceRow(before, row, r) + [Place(PlaceRow(before, row, r), |before|, h, r)]
  {
    assert (row + [h])[..|row + [h]| - 1] == row;
  }

  /** A column span that runs under a hanging cell is placed, and then refused. */
  lemma OverhangRefused(a: HtmlCell, b: HtmlCell, c: HtmlCell)
    requires a == HtmlCell("a", 1, 1, false) && b == HtmlCell("b", 2, 1, false) && c == HtmlCell("c", 1, 2, false)
    ensures !Acceptable(PlaceRows([[a, b], [c]]), 2, Width(PlaceRows([[a, b], [c]])))
  {
    hide Occupied, Acceptable, FirstFree;
    var rows: seq<seq<HtmlCell>> := [[a, b], [c]];
    var x, y, z := Cell("a", 0, 0, 1, 1, false), Cell("b", 0, 1, 2, 1, false), Cell("c", 1, 0, 1, 2, false);
    TopRowPlaced(a, b);
    PlaceWhereFree([x, y], 2, c, 1);
    PlaceOneMore([x, y], [], c, 1);
    assert [] + [c] == [c] && [x, y] + [z] == [x, y, z];
    assert rows[..1] == [[a, b]];
    assert PlaceRows(rows) == PlaceRow(PlaceRows(rows[..1]), [c], 1);
    assert PlaceRows(rows) == [x, y, z];
    MeetingCellsRefused([x, y, z], 1, 2, 1, 1);
  }

  lemma TopRowPlaced(a: HtmlCell, b: HtmlCell)
    requires a == HtmlCell("a", 1, 1, false) && b == HtmlCell("b", 2, 1, false)
    ensures PlaceRows([[a, b]]) == [Cell("a", 0, 0, 1, 1, false), Cell("b", 0, 1, 2, 1, false)]
  {
    hide Occupied, FirstFree;
    var rows: seq<seq<HtmlCell>> := [[a, b]];
    var x := Cell("a", 0, 0, 1, 1, false);
    assert rows[..0] == [];
    PlaceWhereFree([], 0, a, 0);
    PlaceOneMore([], [], a, 0);
    assert [] + [a] == [a] && [] + [x] == [x] && [a] + [b] == [a, b];
    PlaceWhereFree([x], 0, b, 0);
    PlaceOneMore([], [a], b, 0);
  }

  lemma MeetingCellsRefused(cells: seq<Cell>, j: nat, k: nat, r: int, c: int)
    requires j < k < |cells| && Covers(cells[j], r, c) && Covers(cells[k], r, c)
    ensures forall nrows, ncols :: !Acceptable(cells, nrows, ncols)
  {
    SlotsAreCovered(cells[j], r, c);
    SlotsAreCovered(cells[k], r, c);
    assert !Apart(cells[j], cells[k]);
  }

  // ----- Where each cell of the markup ends up -----

  function CellsIn(rows: seq<seq<HtmlCell>>): nat {
    if rows == [] then 0 else CellsIn(rows[..|rows| - 1]) + |rows[|rows| - 1]|
  }

  /** One of the first k cells covers this slot. */
  ghost predicate Taken(cells: seq<Cell>, k: nat, r: int, c: int)
    requires k <= |cells|
  {
    exists i :: 0 <= i < k
      && cells[i].row <= r < cells[i].row + cells[i].rowSpan && cells[i].col <= c < cells[i].col + cells[i].colSpan
  }

  /** Cell k is the cell h of row r, in the first free column from the end of its left neighbour on. */
  ghost predicate StandsFor(cells: seq<Cell>, k: nat, h: HtmlCell, r: nat, first: bool)
    requires k < |cells| && (k == 0 ==> first)
  {
    var cell := cells[k];
    var from := if first then 0 else cells[k - 1].col + cells[k - 1].colSpan;
    && cell.text == h.text && cell.header == h.header && cell.rowSpan == h.rowSpan && cell.colSpan == h.colSpan
    && cell.row == r && cell.col >= from && !Taken(cells, k, r, cell.col)
    && forall c :: from <= c < cell.col ==> Taken(cells, k, r, c)
  }

  lemma TakenIsOccupied(cells: seq<Cell>, k: nat, r: int, c: int)
    requires k <= |cells|
    ensures Taken(cells, k, r, c) <==> (r, c) in Occupied(cells[..k])
  {
    OccupiedBySome(cells[..k], r, c);
    forall i | 0 <= i < k ensures cells[..k][i] == cells[i] {
    }
    if i :| 0 <= i < k && Covers(cells[..k][i], r, c) { assert Covers(cells[i], r, c); }
    if Taken(cells, k, r, c) {
      var i :| 0 <= i < k
        && cells[i].row <= r < cells[i].row + cells[i].rowSpan && cells[i].col <= c < cells[i].col + cells[i].colSpan;
      assert Covers(cells[..k][i], r, c);
    }
  }

  lemma PlaceStands(placed: seq<Cell>, rowStart: nat, h: HtmlCell, r: nat, cells: seq<Cell>)
    requires rowStart <= |placed| && placed + [Place(placed, rowStart, h, r)] <= cells
    ensures StandsFor(cells, |placed|, h, r, |placed| == rowStart)
  {
    hide FirstFree, Occupied;
    var k := |placed|;
    assert cells[..k] == placed && cells[k] == Place(placed, rowStart, h, r);
    forall c ensures Taken(cells, k, r, c) <==> (r, c) in Occupied(placed) {
      TakenIsOccupied(cells, k, r, c);
    }
    if k > rowStart { assert cells[k - 1] == placed[k - 1]; }
  }

  lemma {:induction false} RowStands(before: seq<Cell>, row: seq<HtmlCell>, r: nat, j: nat, cells: seq<Cell>)
    requires j < |row| && PlaceRow(before, row, r) <= cells
    ensures StandsFor(cells, |before| + j, row[j], r, j == 0)
  {
    hide StandsFor, Place;
    var init := row[..|row| - 1];
    var placed := PlaceRow(before, init, r);
    if j == |init| {
      PlaceStands(placed, |before|, row[j], r, cells);
    } else {
      RowStands(before, init, r, j, cells);
    }
  }

  lemma {:induction false} RowsPrefix(rows: seq<seq<HtmlCell>>, n: nat)
    requires n <= |rows|
    ensures PlaceRows(rows[..n]) <= PlaceRows(rows) && |PlaceRows(rows)| == CellsIn(rows)
  {
    if n < |rows| {
      var init := rows[..|rows| - 1];
      assert init[..n] == rows[..n];
      RowsPrefix(init, n);
    } else {
      assert rows[..n] == rows;
      if rows != [] { RowsPrefix(rows[..|rows| - 1], 0); }
    }
  }

  /** The cells come out in reading order, each with its own text, header mark and spans, in its own
      row, and in the first column right of its left neighbour that nothing before it covers. */
  lemma EveryCellPlaced(rows: seq<seq<HtmlCell>>, r: nat, j: nat)
    requires r < |rows| && j < |rows[r]|
    ensures |PlaceRows(rows)| == CellsIn(rows) && CellsIn(rows[..r]) + j < CellsIn(rows)
    ensures StandsFor(PlaceRows(rows), CellsIn(rows[..r]) + j, rows[r][j], r, j == 0)
  {
    hide StandsFor, PlaceRow, PlaceRows, CellsIn;
    var before := rows[..r];
    RowsPrefix(rows, r + 1);
    RowsPrefix(rows[..r + 1], 0);
    RowsPrefix(before, 0);
    PlaceRowsStep(rows, r);
    RowStands(PlaceRows(before), rows[r], r, j, PlaceRows(rows));
  }

  lemma PlaceRowsStep(rows: seq<seq<HtmlCell>>, r: nat)
    requires r < |rows|
    ensures PlaceRows(rows[..r + 1]) == PlaceRow(PlaceRows(rows[..r]), rows[r], r)
    ensures CellsIn(rows[..r + 1]) == CellsIn(rows[..r]) + |rows[r]|
  {
    assert rows[..r + 1][..r] == rows[..r];
  }

  predicate IsMerged(c: Cell) {
    c.rowSpan > 1 || c.colSpan > 1
  }

  /** The merged extents are those of exactly the cells that span more than one slot, in their order. */
  ghost predicate ListsMerged(cells: seq<Cell>, merged: seq<Extent>, ks: seq<nat>) {
    && |ks| == |merged|
    && (forall i, j :: 0 <= i < j < |ks| ==> ks[i] < ks[j])
    && (forall k: nat :: k in ks <==> k < |cells| && IsMerged(cells[k]))
    && forall i :: 0 <= i < |ks| ==>
         ks[i] < |cells| && var c := cells[ks[i]]; merged[i] == Extent(c.row, c.col, c.rowSpan, c.colSpan)
  }

  lemma {:induction false} MergedAreListed(cells: seq<Cell>)
    ensures exists ks: seq<nat> :: ListsMerged(cells, MergedExtents(cells), ks)
  {
    hide ListsMerged;
    if cells == [] {
      NoneMerged();
      assert ListsMerged(cells, MergedExtents(cells), []);
    } else {
      var n, last := |cells| - 1, cells[|cells| - 1];
      MergedAreListed(cells[..n]);
      var ks: seq<nat> :| ListsMerged(cells[..n], MergedExtents(cells[..n]), ks);
      ListedMergedGrow(cells, MergedExtents(cells[..n]), ks);
      assert MergedExtents(cells[..n]) + [] == MergedExtents(cells[..n]);
      assert ListsMerged(cells, MergedExtents(cells), if IsMerged(last) then ks + [n] else ks);
    }
  }

  lemma NoneMerged()
    ensures ListsMerged([], [], [])
  {
  }

  lemma ListedMergedGrow(cells: seq<Cell>, merged: seq<Extent>, ks: seq<nat>)
    requires cells != [] && ListsMerged(cells[..|cells| - 1], merged, ks)
    ensures var n, c := |cells| - 1, cells[|cells| - 1];
            if IsMerged(c) then ListsMerged(cells, merged + [Extent(c.row, c.col, c.rowSpan, c.colSpan)], ks + [n])
            else ListsMerged(cells, merged, ks)
  {
    var n := |cells| - 1;
    forall i | 0 <= i < |ks| ensures ks[i] < n && ks[i] in ks {
      assert ks[i] in ks;
    }
  }
}
