/** The gap guarantee run after the border style: every edge gets an empty cell, and on the
    circular arena the cells next to each edge gap are cleared so that wrapping through a gap
    does not run straight into the curved wall. */
module Gaps {
  import opened Grid

  /** Lines 746-760: which edges already have an empty cell. */
  method FindGaps(board: array2<int>) returns (top: bool, bottom: bool, left: bool, right: bool)
    requires board.Length0 >= 1 && board.Length1 >= 1
    ensures top <==> RowGapBefore(board, 0, board.Length1)
    ensures bottom <==> RowGapBefore(board, board.Length0 - 1, board.Length1)
    ensures left <==> ColumnGapBefore(board, 0, board.Length0)
    ensures right <==> ColumnGapBefore(board, board.Length1 - 1, board.Length0)
  {
    var height, width := board.Length0, board.Length1;
    top, bottom, left, right := false, false, false, false;
    for x := 0 to width
      invariant top <==> RowGapBefore(board, 0, x)
      invariant bottom <==> RowGapBefore(board, height - 1, x)
    {
      if board[0, x] == Empty { top := true; }
      if board[height - 1, x] == Empty { bottom := true; }
    }
    for y := 0 to height
      invariant left <==> ColumnGapBefore(board, 0, y)
      invariant right <==> ColumnGapBefore(board, width - 1, y)
    {
      if board[y, 0] == Empty { left := true; }
      if board[y, width - 1] == Empty { right := true; }
    }
  }

  /** The cells the midpoint rule opens: the middle of the top and bottom rows when either of
      them had no gap, the middle of the left and right columns when either of them had none. */
  predicate MidGapCell(width: int, height: int, rowsGapped: bool, columnsGapped: bool, x: int, y: int)
  {
    || (!rowsGapped && x == width / 2 && (y == 0 || y == height - 1))
    || (!columnsGapped && y == height / 2 && (x == 0 || x == width - 1))
  }

  /** Lines 763-784. */
  method OpenMidGaps(board: array2<int>, top: bool, bottom: bool, left: bool, right: bool)
    requires board.Length0 >= 1 && board.Length1 >= 1
    modifies board
    ensures forall y, x :: 0 <= y < board.Length0 && 0 <= x < board.Length1 ==>
      board[y, x] == if MidGapCell(board.Length1, board.Length0, top && bottom, left && right, x, y) then Empty
                     else old(board[y, x])
  {
    var height, width := board.Length0, board.Length1;
    var midX, midY := width / 2, height / 2;
    if !top {
      board[0, midX] := Empty;
      board[height - 1, midX] := Empty;
    }
    if !bottom {
      board[height - 1, midX] := Empty;
      board[0, midX] := Empty;
    }
    if !left {
      board[midY, 0] := Empty;
      board[midY, width - 1] := Empty;
    }
    if !right {
      board[midY, width - 1] := Empty;
      board[midY, 0] := Empty;
    }
  }

  /** Empty the cells of row y with lo <= x < hi that lie on the board. */
  method ClearRowSpan(board: array2<int>, y: int, lo: int, hi: int)
    requires 0 <= y < board.Length0
    modifies board
    ensures forall r, c :: 0 <= r < board.Length0 && 0 <= c < board.Length1 ==>
      board[r, c] == if r == y && lo <= c < hi then Empty else old(board[r, c])
  {
    var x := lo;
    while x < hi
      invariant x == lo || lo < x <= hi
      invariant forall r, c :: 0 <= r < board.Length0 && 0 <= c < board.Length1 ==>
        board[r, c] == if r == y && lo <= c < x then Empty else old(board[r, c])
    {
      if 0 <= x < board.Length1 {
        board[y, x] := Empty;
      }
      x := x + 1;
    }
  }

  /** Empty the cells of column x with lo <= y < hi that lie on the board. */
  method ClearColumnSpan(board: array2<int>, x: int, lo: int, hi: int)
    requires 0 <= x < board.Length1
    modifies board
    ensures forall r, c :: 0 <= r < board.Length0 && 0 <= c < board.Length1 ==>
      board[r, c] == if c == x && lo <= r < hi then Empty else old(board[r, c])
  {
    var y := lo;
    while y < hi
      invariant y == lo || lo < y <= hi
      invariant forall r, c :: 0 <= r < board.Length0 && 0 <= c < board.Length1 ==>
        board[r, c] == if c == x && lo <= r < y then Empty else old(board[r, c])
    {
      if 0 <= y < board.Length0 {
        board[y, x] := Empty;
      }
      y := y + 1;
    }
  }

  /** Lines 790-802: for every left-edge gap, clear three cells inward and the last four cells
      of the row. */
  method ClearLeftCorridors(board: array2<int>)
    requires board.Length0 >= 1 && board.Length1 >= 1
    modifies board
    ensures forall r, c :: 0 <= r < board.Length0 && 0 <= c < board.Length1 ==>
      board[r, c] == if old(board[r, 0]) == Empty && (1 <= c < 4 || board.Length1 - 4 <= c) then Empty
                     else old(board[r, c])
  {
    var height, width := board.Length0, board.Length1;
    for y := 0 to height
      invariant forall r, c :: 0 <= r < height && 0 <= c < width ==>
        board[r, c] == if r < y && old(board[r, 0]) == Empty && (1 <= c < 4 || width - 4 <= c) then Empty
                       else old(board[r, c])
    {
      if board[y, 0] == Empty {
        ClearRowSpan(board, y, 1, 4);
        ClearRowSpan(board, y, width - 4, width);
      }
    }
  }

  /** Lines 805-817: for every right-edge gap, clear three cells inward and the first three
      cells of the row. */
  method ClearRightCorridors(board: array2<int>)
    requires board.Length0 >= 1 && board.Length1 >= 1
    modifies board
    ensures forall r, c :: 0 <= r < board.Length0 && 0 <= c < board.Length1 ==>
      board[r, c] == if old(board[r, board.Length1 - 1]) == Empty && (board.Length1 - 4 <= c < board.Length1 - 1 || c < 3)
                     then Empty else old(board[r, c])
  {
    var height, width := board.Length0, board.Length1;
    for y := 0 to height
      invariant forall r, c :: 0 <= r < height && 0 <= c < width ==>
        board[r, c] == if r < y && old(board[r, width - 1]) == Empty && (width - 4 <= c < width - 1 || c < 3)
                       then Empty else old(board[r, c])
    {
      if board[y, width - 1] == Empty {
        ClearRowSpan(board, y, width - 4, width - 1);
        ClearRowSpan(board, y, 0, 3);
      }
    }
  }

  /** The cells of column x that the top/bottom corridor pass empties, given whether the top
      cell and the bottom cell of the column were empty when the pass reached it. Clearing
      for a top gap also empties the bottom cell, so the bottom test then succeeds too. */
  predicate ColumnCorridorCell(height: int, topOpen: bool, bottomOpen: bool, y: int)
  {
    || (topOpen && (1 <= y < 4 || height - 4 <= y))
    || ((topOpen || bottomOpen) && (height - 4 <= y < height - 1 || y < 3))
  }

  /** Lines 820-844. */
  method ClearColumnCorridors(board: array2<int>)
    requires board.Length0 >= 1 && board.Length1 >= 1
    modifies board
    ensures forall r, c :: 0 <= r < board.Length0 && 0 <= c < board.Length1 ==>
      board[r, c] ==
        if ColumnCorridorCell(board.Length0, old(board[0, c]) == Empty, old(board[board.Length0 - 1, c]) == Empty, r)
        then Empty else old(board[r, c])
  {
    var height, width := board.Length0, board.Length1;
    for x := 0 to width
      invariant forall r, c :: 0 <= r < height && 0 <= c < width ==>
        board[r, c] ==
          if c < x && ColumnCorridorCell(height, old(board[0, c]) == Empty, old(board[height - 1, c]) == Empty, r)
          then Empty else old(board[r, c])
    {
      if board[0, x] == Empty {
        ClearColumnSpan(board, x, 1, 4);
        ClearColumnSpan(board, x, height - 4, height);
      }
      if board[height - 1, x] == Empty {
        ClearColumnSpan(board, x, height - 4, height - 1);
        ClearColumnSpan(board, x, 0, 3);
      }
    }
  }

  /** The cells of row y that the left and right corridor passes empty, given whether the
      left and the right cell of the row were empty before them. Clearing for a left gap
      also empties the right cell, so the right test then succeeds too. */
  predicate RowCorridorCell(width: int, leftOpen: bool, rightOpen: bool, x: int)
  {
    || (leftOpen && (1 <= x < 4 || width - 4 <= x))
    || ((leftOpen || rightOpen) && (width - 4 <= x < width - 1 || x < 3))
  }

  /** Row y of g has an empty cell. */
  ghost predicate RowOpen(g: seq<seq<int>>, y: int)
    requires 0 <= y < |g|
  {
    exists x :: 0 <= x < |g[y]| && g[y][x] == Empty
  }

  /** Column x of g has an empty cell. */
  ghost predicate ColumnOpen(g: seq<seq<int>>, x: int)
  {
    exists y :: 0 <= y < |g| && 0 <= x < |g[y]| && g[y][x] == Empty
  }

  /** Every edge of the board g has an empty cell. */
  ghost predicate EdgesOpen(g: seq<seq<int>>, width: int, height: int)
  {
    && width >= 1 && height >= 1 && IsBoard(g, width, height)
    && RowOpen(g, 0) && RowOpen(g, height - 1) && ColumnOpen(g, 0) && ColumnOpen(g, width - 1)
  }

  /** The board g after the midpoint rule. */
  ghost function MidGapped(g: seq<seq<int>>, width: int, height: int): (m: seq<seq<int>>)
    requires width >= 1 && height >= 1 && IsBoard(g, width, height)
    ensures IsBoard(m, width, height)
    ensures forall y, x :: 0 <= y < height && 0 <= x < width ==> m[y][x] == g[y][x] || m[y][x] == Empty
  {
    var rowsGapped := RowOpen(g, 0) && RowOpen(g, height - 1);
    var columnsGapped := ColumnOpen(g, 0) && ColumnOpen(g, width - 1);
    seq(height, y requires 0 <= y < height =>
      seq(width, x requires 0 <= x < width =>
        if MidGapCell(width, height, rowsGapped, columnsGapped, x, y) then Empty else At(g, y, x)))
  }

  /** One cell of the board after the midpoint rule. */
  lemma MidGappedCell(g: seq<seq<int>>, width: int, height: int, y: int, x: int)
    requires width >= 1 && height >= 1 && IsBoard(g, width, height)
    requires 0 <= y < height && 0 <= x < width
    ensures MidGapped(g, width, height)[y][x] ==
      if MidGapCell(width, height, RowOpen(g, 0) && RowOpen(g, height - 1), ColumnOpen(g, 0) && ColumnOpen(g, width - 1), x, y)
      then Empty else g[y][x]
  {
  }

  /** The board g after the left and the right corridor passes. */
  ghost function RowsCleared(g: seq<seq<int>>, width: int, height: int): (r: seq<seq<int>>)
    requires width >= 1 && height >= 1 && IsBoard(g, width, height)
    ensures IsBoard(r, width, height)
    ensures forall y, x :: 0 <= y < height && 0 <= x < width ==> r[y][x] == g[y][x] || r[y][x] == Empty
  {
    seq(height, y requires 0 <= y < height =>
      seq(width, x requires 0 <= x < width =>
        if RowCorridorCell(width, At(g, y, 0) == Empty, At(g, y, width - 1) == Empty, x) then Empty else At(g, y, x)))
  }

  /** The board g after the top/bottom corridor pass. */
  ghost function ColumnsCleared(g: seq<seq<int>>, width: int, height: int): (r: seq<seq<int>>)
    requires width >= 1 && height >= 1 && IsBoard(g, width, height)
    ensures IsBoard(r, width, height)
    ensures forall y, x :: 0 <= y < height && 0 <= x < width ==> r[y][x] == g[y][x] || r[y][x] == Empty
  {
    seq(height, y requires 0 <= y < height =>
      seq(width, x requires 0 <= x < width =>
        if ColumnCorridorCell(height, At(g, 0, x) == Empty, At(g, height - 1, x) == Empty, y) then Empty else At(g, y, x)))
  }

  /** The board g after the three corridor passes of the circular arena. */
  ghost function Corridors(g: seq<seq<int>>, width: int, height: int): (r: seq<seq<int>>)
    requires width >= 1 && height >= 1 && IsBoard(g, width, height)
    ensures IsBoard(r, width, height)
    ensures forall y, x :: 0 <= y < height && 0 <= x < width ==> r[y][x] == g[y][x] || r[y][x] == Empty
  {
    ColumnsCleared(RowsCleared(g, width, height), width, height)
  }

  /** The board g after the gap guarantee for the given style; cells only ever become empty. */
  ghost function Gapped(g: seq<seq<int>>, width: int, height: int, style: BoardStyle): (r: seq<seq<int>>)
    requires width >= 1 && height >= 1 && IsBoard(g, width, height)
    ensures IsBoard(r, width, height)
    ensures forall y, x :: 0 <= y < height && 0 <= x < width ==> r[y][x] == g[y][x] || r[y][x] == Empty
  {
    var m := MidGapped(g, width, height);
    if style == CircularStyle then Corridors(m, width, height) else m
  }

  /** The corridor passes reach at most four cells in from an edge. */
  lemma CorridorsNearEdges(g: seq<seq<int>>, width: int, height: int, y: int, x: int)
    requires width >= 1 && height >= 1 && IsBoard(g, width, height)
    requires 0 <= y < height && 0 <= x < width
    requires Corridors(g, width, height)[y][x] != g[y][x]
    ensures x < 4 || width - 4 <= x || y < 4 || height - 4 <= y
  {
    var r := RowsCleared(g, width, height);
    var c := Corridors(g, width, height);
    assert c[y][x] == if ColumnCorridorCell(height, At(r, 0, x) == Empty, At(r, height - 1, x) == Empty, y)
                      then Empty else r[y][x];
    assert r[y][x] == if RowCorridorCell(width, At(g, y, 0) == Empty, At(g, y, width - 1) == Empty, x)
                      then Empty else g[y][x];
  }

  /** A row with an empty cell at either end ends with its first three and last four cells empty. */
  lemma CorridorRows(g: seq<seq<int>>, width: int, height: int, y: int, x: int)
    requires width >= 1 && height >= 1 && IsBoard(g, width, height)
    requires 0 <= y < height && 0 <= x < width && (x < 3 || width - 4 <= x)
    requires g[y][0] == Empty || g[y][width - 1] == Empty
    ensures Corridors(g, width, height)[y][x] == Empty
  {
    var r := RowsCleared(g, width, height);
    assert r[y][x] == if RowCorridorCell(width, At(g, y, 0) == Empty, At(g, y, width - 1) == Empty, x)
                      then Empty else g[y][x];
  }

  /** After the corridor passes, a column with an empty cell at either end has its first three
      and last four cells empty. */
  lemma CorridorColumns(g: seq<seq<int>>, width: int, height: int, y: int, x: int)
    requires width >= 1 && height >= 1 && IsBoard(g, width, height)
    requires 0 <= y < height && 0 <= x < width && (y < 3 || height - 4 <= y)
    requires Corridors(g, width, height)[0][x] == Empty || Corridors(g, width, height)[height - 1][x] == Empty
    ensures Corridors(g, width, height)[y][x] == Empty
  {
    var r := RowsCleared(g, width, height);
    var c := Corridors(g, width, height);
    var topOpen, bottomOpen := At(r, 0, x) == Empty, At(r, height - 1, x) == Empty;
    assert c[0][x] == if ColumnCorridorCell(height, topOpen, bottomOpen, 0) then Empty else At(r, 0, x);
    assert c[height - 1][x] == if ColumnCorridorCell(height, topOpen, bottomOpen, height - 1) then Empty else At(r, height - 1, x);
    assert topOpen || bottomOpen;
    assert c[y][x] == if ColumnCorridorCell(height, topOpen, bottomOpen, y) then Empty else At(r, y, x);
  }

  /** Off the circular arena the gap guarantee is the midpoint rule alone. */
  lemma GappedMidRule(g: seq<seq<int>>, width: int, height: int, style: BoardStyle, y: int, x: int)
    requires width >= 1 && height >= 1 && IsBoard(g, width, height)
    requires style != CircularStyle && 0 <= y < height && 0 <= x < width
    ensures Gapped(g, width, height, style)[y][x] ==
      if MidGapCell(width, height, RowOpen(g, 0) && RowOpen(g, height - 1), ColumnOpen(g, 0) && ColumnOpen(g, width - 1), x, y)
      then Empty else g[y][x]
  {
  }

  /** After the midpoint rule the top and the bottom rows have an empty cell. */
  lemma MidGappedRowsOpen(g: seq<seq<int>>, width: int, height: int)
    requires width >= 1 && height >= 1 && IsBoard(g, width, height)
    ensures RowOpen(MidGapped(g, width, height), 0) && RowOpen(MidGapped(g, width, height), height - 1)
  {
    var m := MidGapped(g, width, height);
    var rowsGapped := RowOpen(g, 0) && RowOpen(g, height - 1);
    var columnsGapped := ColumnOpen(g, 0) && ColumnOpen(g, width - 1);
    if rowsGapped {
      var tx :| 0 <= tx < width && g[0][tx] == Empty;
      var bx :| 0 <= bx < width && g[height - 1][bx] == Empty;
      assert m[0][tx] == Empty && m[height - 1][bx] == Empty;
    } else {
      var x := width / 2;
      assert m[0][x] == if MidGapCell(width, height, rowsGapped, columnsGapped, x, 0) then Empty else At(g, 0, x);
      assert m[height - 1][x] == if MidGapCell(width, height, rowsGapped, columnsGapped, x, height - 1) then Empty
                                 else At(g, height - 1, x);
    }
  }

  /** After the midpoint rule the left and the right columns have an empty cell. */
  lemma MidGappedColumnsOpen(g: seq<seq<int>>, width: int, height: int)
    requires width >= 1 && height >= 1 && IsBoard(g, width, height)
    ensures ColumnOpen(MidGapped(g, width, height), 0) && ColumnOpen(MidGapped(g, width, height), width - 1)
  {
    var m := MidGapped(g, width, height);
    var rowsGapped := RowOpen(g, 0) && RowOpen(g, height - 1);
    var columnsGapped := ColumnOpen(g, 0) && ColumnOpen(g, width - 1);
    if columnsGapped {
      var ly :| 0 <= ly < height && g[ly][0] == Empty;
      var ry :| 0 <= ry < height && g[ry][width - 1] == Empty;
      assert m[ly][0] == Empty && m[ry][width - 1] == Empty;
    } else {
      var y := height / 2;
      assert m[y][0] == if MidGapCell(width, height, rowsGapped, columnsGapped, 0, y) then Empty else At(g, y, 0);
      assert m[y][width - 1] == if MidGapCell(width, height, rowsGapped, columnsGapped, width - 1, y) then Empty
                                else At(g, y, width - 1);
    }
  }

  /** Every edge is open after the midpoint rule. */
  lemma MidGappedEdgesOpen(g: seq<seq<int>>, width: int, height: int)
    requires width >= 1 && height >= 1 && IsBoard(g, width, height)
    ensures EdgesOpen(MidGapped(g, width, height), width, height)
  {
    MidGappedRowsOpen(g, width, height);
    MidGappedColumnsOpen(g, width, height);
  }

  /** A board that only clears cells of g keeps every edge of g open. */
  lemma ClearingKeepsEdgesOpen(g: seq<seq<int>>, r: seq<seq<int>>, width: int, height: int)
    requires EdgesOpen(g, width, height) && IsBoard(r, width, height)
    requires forall y, x :: 0 <= y < height && 0 <= x < width ==> r[y][x] == g[y][x] || r[y][x] == Empty
    ensures EdgesOpen(r, width, height)
  {
    var tx :| 0 <= tx < width && g[0][tx] == Empty;
    var bx :| 0 <= bx < width && g[height - 1][bx] == Empty;
    var ly :| 0 <= ly < height && g[ly][0] == Empty;
    var ry :| 0 <= ry < height && g[ry][width - 1] == Empty;
    assert r[0][tx] == Empty && r[height - 1][bx] == Empty && r[ly][0] == Empty && r[ry][width - 1] == Empty;
  }

  /** Whatever the board, every edge is open after the gap guarantee. */
  lemma GappedEdgesOpen(g: seq<seq<int>>, width: int, height: int, style: BoardStyle)
    requires width >= 1 && height >= 1 && IsBoard(g, width, height)
    ensures EdgesOpen(Gapped(g, width, height, style), width, height)
  {
    var m := MidGapped(g, width, height);
    MidGappedEdgesOpen(g, width, height);
    if style == CircularStyle {
      ClearingKeepsEdgesOpen(m, Corridors(m, width, height), width, height);
    }
  }

  /** Off the circular arena a board whose edges are all open goes through the gap guarantee
      unchanged. */
  lemma GappedKeepsOpenBoard(g: seq<seq<int>>, width: int, height: int, style: BoardStyle)
    requires style != CircularStyle && EdgesOpen(g, width, height)
    ensures Gapped(g, width, height, style) == g
  {
    SameBoard(Gapped(g, width, height, style), g, width, height);
  }

  /** The row view and the value view of a row test agree. */
  lemma RowSnapshotOpen(board: array2<int>, y: int)
    requires 0 <= y < board.Length0
    ensures RowOpen(Snapshot(board), y) <==> RowGapBefore(board, y, board.Length1)
  {
    var g := Snapshot(board);
    if RowOpen(g, y) {
      var x :| 0 <= x < |g[y]| && g[y][x] == Empty;
      assert board[y, x] == Empty;
    }
    if RowGapBefore(board, y, board.Length1) {
      var x :| 0 <= x < board.Length1 && board[y, x] == Empty;
      assert g[y][x] == Empty;
    }
  }

  /** The row view and the value view of a column test agree. */
  lemma ColumnSnapshotOpen(board: array2<int>, x: int)
    requires 0 <= x < board.Length1
    ensures ColumnOpen(Snapshot(board), x) <==> ColumnGapBefore(board, x, board.Length0)
  {
    var g := Snapshot(board);
    if ColumnOpen(g, x) {
      var y :| 0 <= y < |g| && 0 <= x < |g[y]| && g[y][x] == Empty;
      assert board[y, x] == Empty;
    }
    if ColumnGapBefore(board, x, board.Length0) {
      var y :| 0 <= y < board.Length0 && board[y, x] == Empty;
      assert g[y][x] == Empty;
    }
  }

  /** Lines 790-817: the left and the right corridor passes, from the board g. */
  method ClearRowCorridors(board: array2<int>, ghost g: seq<seq<int>>)
    requires board.Length0 >= 1 && board.Length1 >= 1
    requires IsBoard(g, board.Length1, board.Length0)
    requires forall y, x :: 0 <= y < board.Length0 && 0 <= x < board.Length1 ==> board[y, x] == g[y][x]
    modifies board
    ensures forall y, x :: 0 <= y < board.Length0 && 0 <= x < board.Length1 ==>
      board[y, x] == RowsCleared(g, board.Length1, board.Length0)[y][x]
  {
    var height, width := board.Length0, board.Length1;
    ClearLeftCorridors(board);
    assert forall y :: 0 <= y < height ==> (board[y, width - 1] == Empty <==> g[y][0] == Empty || g[y][width - 1] == Empty);
    ClearRightCorridors(board);
    ghost var rows := RowsCleared(g, width, height);
    forall y, x | 0 <= y < height && 0 <= x < width
      ensures board[y, x] == rows[y][x]
    {
      assert rows[y][x] == if RowCorridorCell(width, At(g, y, 0) == Empty, At(g, y, width - 1) == Empty, x)
                           then Empty else At(g, y, x);
    }
  }

  /** Lines 788-845: the three corridor passes of the circular arena, from the board g. */
  method ClearCorridors(board: array2<int>, ghost g: seq<seq<int>>)
    requires board.Length0 >= 1 && board.Length1 >= 1
    requires IsBoard(g, board.Length1, board.Length0)
    requires forall y, x :: 0 <= y < board.Length0 && 0 <= x < board.Length1 ==> board[y, x] == g[y][x]
    modifies board
    ensures forall y, x :: 0 <= y < board.Length0 && 0 <= x < board.Length1 ==>
      board[y, x] == Corridors(g, board.Length1, board.Length0)[y][x]
  {
    ClearRowCorridors(board, g);
    ClearColumnCorridors(board);
  }

  /** The gap guarantee changes nothing more than four cells in from an edge. */
  lemma GappedNearEdges(g: seq<seq<int>>, width: int, height: int, style: BoardStyle, y: int, x: int)
    requires width >= 1 && height >= 1 && IsBoard(g, width, height)
    requires 0 <= y < height && 0 <= x < width
    requires Gapped(g, width, height, style)[y][x] != g[y][x]
    ensures x < 4 || width - 4 <= x || y < 4 || height - 4 <= y
  {
    var m := MidGapped(g, width, height);
    if m[y][x] == g[y][x] {
      CorridorsNearEdges(m, width, height, y, x);
    }
  }

  /** A board that holds the value r has every edge open when r has. */
  lemma BoardEdgesOpen(board: array2<int>, r: seq<seq<int>>)
    requires EdgesOpen(r, board.Length1, board.Length0)
    requires forall y, x :: 0 <= y < board.Length0 && 0 <= x < board.Length1 ==> board[y, x] == r[y][x]
    ensures AllEdgesGapped(board)
  {
    var height, width := board.Length0, board.Length1;
    var tx :| 0 <= tx < width && r[0][tx] == Empty;
    var bx :| 0 <= bx < width && r[height - 1][bx] == Empty;
    var ly :| 0 <= ly < height && r[ly][0] == Empty;
    var ry :| 0 <= ry < height && r[ry][width - 1] == Empty;
    assert board[0, tx] == Empty && board[height - 1, bx] == Empty;
    assert board[ly, 0] == Empty && board[ry, width - 1] == Empty;
  }

  /** A board that holds the gap guarantee's value of g holds only cells of g or empty cells,
      and differs from g only near the edges. */
  lemma GappedBoard(board: array2<int>, g: seq<seq<int>>, style: BoardStyle)
    requires board.Length0 >= 1 && board.Length1 >= 1 && IsBoard(g, board.Length1, board.Length0)
    requires forall y, x :: 0 <= y < board.Length0 && 0 <= x < board.Length1 ==>
      board[y, x] == Gapped(g, board.Length1, board.Length0, style)[y][x]
    ensures AllEdgesGapped(board)
    ensures forall y, x :: 0 <= y < board.Length0 && 0 <= x < board.Length1 ==>
      board[y, x] == g[y][x] || board[y, x] == Empty
    ensures forall y, x :: 0 <= y < board.Length0 && 0 <= x < board.Length1 && board[y, x] != g[y][x] ==>
      x < 4 || board.Length1 - 4 <= x || y < 4 || board.Length0 - 4 <= y
  {
    var height, width := board.Length0, board.Length1;
    GappedEdgesOpen(g, width, height, style);
    BoardEdgesOpen(board, Gapped(g, width, height, style));
    forall y, x | 0 <= y < height && 0 <= x < width && board[y, x] != g[y][x]
      ensures x < 4 || width - 4 <= x || y < 4 || height - 4 <= y
    {
      GappedNearEdges(g, width, height, style, y, x);
    }
  }

  /** Lines 746-784: the edge tests and the midpoint rule, from the board g. */
  method ApplyMidGaps(board: array2<int>, ghost g: seq<seq<int>>)
    requires board.Length0 >= 1 && board.Length1 >= 1
    requires g == Snapshot(board)
    modifies board
    ensures forall y, x :: 0 <= y < board.Length0 && 0 <= x < board.Length1 ==>
      board[y, x] == MidGapped(g, board.Length1, board.Length0)[y][x]
  {
    RowSnapshotOpen(board, 0);
    RowSnapshotOpen(board, board.Length0 - 1);
    ColumnSnapshotOpen(board, 0);
    ColumnSnapshotOpen(board, board.Length1 - 1);
    var top, bottom, left, right := FindGaps(board);
    OpenMidGaps(board, top, bottom, left, right);
    forall y, x | 0 <= y < board.Length0 && 0 <= x < board.Length1
      ensures board[y, x] == MidGapped(g, board.Length1, board.Length0)[y][x]
    {
      MidGappedCell(g, board.Length1, board.Length0, y, x);
    }
  }

  /** Lines 745-846: the board becomes its value under the gap guarantee, so every edge ends
      with an empty cell, cells only ever become empty, and nothing more than four cells in from
      an edge changes. */
  method EnsureGaps(board: array2<int>, style: BoardStyle)
    requires board.Length0 >= 1 && board.Length1 >= 1
    modifies board
    ensures forall y, x :: 0 <= y < board.Length0 && 0 <= x < board.Length1 ==>
      board[y, x] == Gapped(old(Snapshot(board)), board.Length1, board.Length0, style)[y][x]
    ensures AllEdgesGapped(board)
    ensures forall y, x :: 0 <= y < board.Length0 && 0 <= x < board.Length1 ==>
      board[y, x] == old(board[y, x]) || board[y, x] == Empty
    ensures forall y, x :: 0 <= y < board.Length0 && 0 <= x < board.Length1 && board[y, x] != old(board[y, x]) ==>
      x < 4 || board.Length1 - 4 <= x || y < 4 || board.Length0 - 4 <= y
  {
    var height, width := board.Length0, board.Length1;
    ghost var g := Snapshot(board);
    ApplyMidGaps(board, g);
    if style == CircularStyle {
      ClearCorridors(board, MidGapped(g, width, height));
    }
    ghost var r := Gapped(g, width, height, style);
    assert forall y, x :: 0 <= y < height && 0 <= x < width ==> board[y, x] == r[y][x];
    GappedBoard(board, g, style);
    assert old(Snapshot(board)) == g;
  }
}
