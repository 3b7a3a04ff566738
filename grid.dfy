/** Cells, positions and the board as a height-by-width array indexed board[y, x]. */
module Grid {

  /** A grid coordinate; x is the column, y the row. */
  datatype Pos = Pos(x: int, y: int)

  /** The four board styles, in the order of their indices 0 to 3. */
  datatype BoardStyle = GappedStyle | CircularStyle | MazeStyle | BlobStyle

  function StyleIndex(s: BoardStyle): (i: nat)
    ensures i < 4
  {
    match s
    case GappedStyle => 0
    case CircularStyle => 1
    case MazeStyle => 2
    case BlobStyle => 3
  }

  /** Cell classifications used throughout the game. */
  const Empty: int := 0
  const Wall: int := 1
  const Obstacle: int := 2

  predicate OnBoard(board: array2<int>, p: Pos)
  {
    0 <= p.y < board.Length0 && 0 <= p.x < board.Length1
  }

  /** Every cell holds one of the three classifications. */
  ghost predicate CellsValid(board: array2<int>)
    reads board
  {
    forall y, x :: 0 <= y < board.Length0 && 0 <= x < board.Length1 ==>
      board[y, x] == Empty || board[y, x] == Wall || board[y, x] == Obstacle
  }

  /** Row y has an empty cell among its first n columns. */
  ghost predicate RowGapBefore(board: array2<int>, y: int, n: int)
    reads board
    requires 0 <= y < board.Length0
  {
    exists x :: 0 <= x < n && x < board.Length1 && board[y, x] == Empty
  }

  /** Column x has an empty cell among its first n rows. */
  ghost predicate ColumnGapBefore(board: array2<int>, x: int, n: int)
    reads board
    requires 0 <= x < board.Length1
  {
    exists y :: 0 <= y < n && y < board.Length0 && board[y, x] == Empty
  }

  /** Each of the four edges has at least one empty cell. */
  ghost predicate AllEdgesGapped(board: array2<int>)
    reads board
    requires board.Length0 >= 1 && board.Length1 >= 1
  {
    && RowGapBefore(board, 0, board.Length1)
    && RowGapBefore(board, board.Length0 - 1, board.Length1)
    && ColumnGapBefore(board, 0, board.Length0)
    && ColumnGapBefore(board, board.Length1 - 1, board.Length0)
  }

  /** A board as a value: height rows of width cells each. */
  ghost predicate IsBoard(g: seq<seq<int>>, width: int, height: int)
  {
    |g| == height && forall y :: 0 <= y < height ==> |g[y]| == width
  }

  /** Cell (x, y) of the board g; a cell off the board reads as empty. */
  function At(g: seq<seq<int>>, y: int, x: int): int
  {
    if 0 <= y < |g| && 0 <= x < |g[y]| then g[y][x] else Empty
  }

  /** Two boards of the same size that agree on every cell are the same board. */
  lemma SameBoard(g1: seq<seq<int>>, g2: seq<seq<int>>, width: int, height: int)
    requires IsBoard(g1, width, height) && IsBoard(g2, width, height)
    requires forall y, x :: 0 <= y < height && 0 <= x < width ==> g1[y][x] == g2[y][x]
    ensures g1 == g2
  {
    forall y | 0 <= y < height
      ensures g1[y] == g2[y]
    {
      assert forall x :: 0 <= x < width ==> g1[y][x] == g2[y][x];
    }
  }

  /** A board whose every cell holds the cell of v is the value v. */
  lemma SnapshotHolds(board: array2<int>, v: seq<seq<int>>)
    requires IsBoard(v, board.Length1, board.Length0)
    requires forall y, x :: 0 <= y < board.Length0 && 0 <= x < board.Length1 ==> board[y, x] == v[y][x]
    ensures Snapshot(board) == v
  {
    SameBoard(Snapshot(board), v, board.Length1, board.Length0);
  }

  /** The board as a value, row by row. */
  ghost function Snapshot(board: array2<int>): (g: seq<seq<int>>)
    reads board
    ensures |g| == board.Length0
    ensures forall y :: 0 <= y < |g| ==> |g[y]| == board.Length1
    ensures forall y, x :: 0 <= y < board.Length0 && 0 <= x < board.Length1 ==> g[y][x] == board[y, x]
  {
    seq(board.Length0, y requires 0 <= y < board.Length0 reads board =>
      seq(board.Length1, x requires 0 <= x < board.Length1 reads board => board[y, x]))
  }
}
