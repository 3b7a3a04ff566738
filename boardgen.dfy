/** The board generator (lines 581-955): a fresh empty board, one border style, the gap
    guarantee, then the obstacles. The random draws of each style are inputs. */
module BoardGen {
  import opened Grid
  import opened Borders
  import opened Gaps
  import opened Obstacles

  /** The style, chosen by a draw or forced by the caller (line 586), with the draws it consumes. */
  datatype StyleDraws =
    | GapDraws(topGap: seq<bool>, sideGap: seq<bool>)
    | ArenaDraws
    | MazeDraws(segment: (int, int) -> Segment)
    | BlobDraws(blobs: seq<Blob>)

  function StyleOf(d: StyleDraws): BoardStyle
  {
    match d
    case GapDraws(_, _) => GappedStyle
    case ArenaDraws => CircularStyle
    case MazeDraws(_) => MazeStyle
    case BlobDraws(_) => BlobStyle
  }

  /** The gapped border draws once per column and once per row. */
  predicate DrawsFit(width: int, height: int, d: StyleDraws)
  {
    d.GapDraws? ==> |d.topGap| == width && |d.sideGap| == height
  }

  /** No obstacle yet: every cell is empty or a wall. */
  ghost predicate WallsOnly(board: array2<int>)
    reads board
  {
    forall y, x :: 0 <= y < board.Length0 && 0 <= x < board.Length1 ==>
      board[y, x] == Empty || board[y, x] == Wall
  }

  /** The board of height rows of width empty cells that the generator starts from (line 583). */
  ghost function EmptyBoard(width: int, height: int): (g: seq<seq<int>>)
    requires width >= 0 && height >= 0
    ensures IsBoard(g, width, height)
    ensures forall y, x :: 0 <= y < height && 0 <= x < width ==> g[y][x] == Empty
  {
    seq(height, _ => seq(width, _ => Empty))
  }

  /** Lines 589-742: the board g after the border style of the draws. The blobs style runs the
      gap guarantee itself, at line 735. */
  ghost function Bordered(g: seq<seq<int>>, width: int, height: int, draws: StyleDraws): (r: seq<seq<int>>)
    requires width >= 1 && height >= 1 && IsBoard(g, width, height) && DrawsFit(width, height, draws)
    ensures IsBoard(r, width, height)
  {
    match draws
    case GapDraws(topGap, sideGap) =>
      seq(height, y requires 0 <= y < height =>
        seq(width, x requires 0 <= x < width => GappedCell(At(g, y, x), width, height, topGap, sideGap, x, y)))
    case ArenaDraws =>
      seq(height, y requires 0 <= y < height =>
        seq(width, x requires 0 <= x < width => if OutsideArena(width, height, x, y) then Wall else At(g, y, x)))
    case MazeDraws(segment) =>
      seq(height, y requires 0 <= y < height =>
        seq(width, x requires 0 <= x < width => if MazeWall(width, height, segment, x, y) then Wall else At(g, y, x)))
    case BlobDraws(blobs) =>
      Gapped(BlobBoard(g, width, height, blobs), width, height, BlobStyle)
  }

  /** The board g after the blobs are stamped and mirrored, before the gap guarantee. */
  ghost function BlobBoard(g: seq<seq<int>>, width: int, height: int, blobs: seq<Blob>): (r: seq<seq<int>>)
    requires width >= 1 && height >= 1 && IsBoard(g, width, height)
    ensures IsBoard(r, width, height)
  {
    seq(height, y requires 0 <= y < height =>
      seq(width, x requires 0 <= x < width => if BlobWall(blobs, width, height, x, y) then Wall else At(g, y, x)))
  }

  /** Lines 583-949: the board the obstacle pass starts from. */
  ghost function BeforeObstacles(width: int, height: int, draws: StyleDraws): (r: seq<seq<int>>)
    requires width >= 1 && height >= 1 && DrawsFit(width, height, draws)
    ensures IsBoard(r, width, height)
  {
    Gapped(Bordered(EmptyBoard(width, height), width, height, draws), width, height, StyleOf(draws))
  }

  /** The board g with the cells in `cells` turned into obstacles. */
  ghost function WithObstacles(g: seq<seq<int>>, width: int, height: int, cells: set<Pos>): (r: seq<seq<int>>)
    requires width >= 0 && height >= 0 && IsBoard(g, width, height)
    ensures IsBoard(r, width, height)
  {
    seq(height, y requires 0 <= y < height =>
      seq(width, x requires 0 <= x < width => if Pos(x, y) in cells then Obstacle else At(g, y, x)))
  }

  /** Lines 581-955 as written: the board the generator returns. */
  ghost function AsWritten(width: int, height: int, draws: StyleDraws): (r: seq<seq<int>>)
    requires width >= 1 && height >= 1 && DrawsFit(width, height, draws)
    ensures IsBoard(r, width, height)
  {
    var before := BeforeObstacles(width, height, draws);
    WithObstacles(before, width, height, ObstacleCells(before, PlanFor(StyleOf(draws), width, height)))
  }

  /** The corrected generator: the board as written, then the gap guarantee once more. */
  ghost function Generated(width: int, height: int, draws: StyleDraws): (r: seq<seq<int>>)
    requires width >= 1 && height >= 1 && DrawsFit(width, height, draws)
    ensures IsBoard(r, width, height)
  {
    Gapped(AsWritten(width, height, draws), width, height, StyleOf(draws))
  }

  /** Lines 589-742, in place. */
  method MakeBorders(board: array2<int>, draws: StyleDraws)
    requires board.Length0 >= 1 && board.Length1 >= 1
    requires DrawsFit(board.Length1, board.Length0, draws)
    requires WallsOnly(board)
    modifies board
    ensures forall y, x :: 0 <= y < board.Length0 && 0 <= x < board.Length1 ==>
      board[y, x] == Bordered(old(Snapshot(board)), board.Length1, board.Length0, draws)[y][x]
    ensures WallsOnly(board)
  {
    var height, width := board.Length0, board.Length1;
    ghost var g := Snapshot(board);
    ghost var r := Bordered(g, width, height, draws);
    match draws
    case GapDraws(topGap, sideGap) =>
      GappedBorder(board, topGap, sideGap);
      assert forall y, x :: 0 <= y < height && 0 <= x < width ==> board[y, x] == r[y][x];
    case ArenaDraws =>
      CircularArena(board);
      assert forall y, x :: 0 <= y < height && 0 <= x < width ==> board[y, x] == r[y][x];
    case MazeDraws(segment) =>
      MazeSegments(board, segment);
      assert forall y, x :: 0 <= y < height && 0 <= x < width ==> board[y, x] == r[y][x];
    case BlobDraws(blobs) =>
      Blobs(board, blobs);
      ghost var b := BlobBoard(g, width, height, blobs);
      SameBoard(Snapshot(board), b, width, height);
      EnsureGaps(board, BlobStyle);
    assert old(Snapshot(board)) == g;
  }

  /** Lines 945-949, in place: the border style, then the gap guarantee, from the empty board. */
  method BordersAndGaps(board: array2<int>, draws: StyleDraws)
    requires board.Length0 >= 1 && board.Length1 >= 1
    requires DrawsFit(board.Length1, board.Length0, draws)
    requires forall y, x :: 0 <= y < board.Length0 && 0 <= x < board.Length1 ==> board[y, x] == Empty
    modifies board
    ensures forall y, x :: 0 <= y < board.Length0 && 0 <= x < board.Length1 ==>
      board[y, x] == BeforeObstacles(board.Length1, board.Length0, draws)[y][x]
    ensures WallsOnly(board)
    ensures AllEdgesGapped(board)
  {
    var height, width := board.Length0, board.Length1;
    SameBoard(Snapshot(board), EmptyBoard(width, height), width, height);
    MakeBorders(board, draws);
    SameBoard(Snapshot(board), Bordered(EmptyBoard(width, height), width, height, draws), width, height);
    EnsureGaps(board, StyleOf(draws));
  }

  /** Lines 581-955 as written: the obstacles come after the gap guarantee. */
  method GenerateAsWritten(width: nat, height: nat, draws: StyleDraws) returns (board: array2<int>)
    requires width >= 1 && height >= 1 && DrawsFit(width, height, draws)
    ensures fresh(board) && board.Length0 == height && board.Length1 == width
    ensures forall y, x :: 0 <= y < height && 0 <= x < width ==> board[y, x] == AsWritten(width, height, draws)[y][x]
    ensures CellsValid(board)
    ensures forall y, x :: 0 <= y < height && 0 <= x < width && board[y, x] == Obstacle ==>
      Far(PlanFor(StyleOf(draws), width, height), Pos(x, y))
  {
    ghost var before;
    board, before := BorderedBoard(width, height, draws);
    AddObstacles(board, StyleOf(draws));
    AsWrittenBoard(board, before, width, height, draws);
  }

  /** Lines 583 and 945-949: a fresh empty board with its border style and the gap guarantee. */
  method BorderedBoard(width: nat, height: nat, draws: StyleDraws)
    returns (board: array2<int>, ghost before: seq<seq<int>>)
    requires width >= 1 && height >= 1 && DrawsFit(width, height, draws)
    ensures fresh(board) && board.Length0 == height && board.Length1 == width
    ensures before == BeforeObstacles(width, height, draws) && before == Snapshot(board)
    ensures forall y, x :: 0 <= y < height && 0 <= x < width ==> before[y][x] == Empty || before[y][x] == Wall
  {
    board := EmptyArray(width, height);
    BordersAndGaps(board, draws);
    SnapshotHolds(board, BeforeObstacles(width, height, draws));
    before := Snapshot(board);
  }

  /** Line 583: a fresh board of empty cells. */
  method EmptyArray(width: nat, height: nat) returns (board: array2<int>)
    ensures fresh(board) && board.Length0 == height && board.Length1 == width
    ensures forall y, x :: 0 <= y < height && 0 <= x < width ==> board[y, x] == Empty
  {
    board := new int[height, width]((_, _) => Empty);
  }

  /** The board the obstacle pass leaves: the generator's value as written, holding valid cells
      only, with every obstacle away from the centre. */
  lemma AsWrittenBoard(board: array2<int>, before: seq<seq<int>>, width: int, height: int, draws: StyleDraws)
    requires width >= 1 && height >= 1 && DrawsFit(width, height, draws)
    requires board.Length0 == height && board.Length1 == width
    requires before == BeforeObstacles(width, height, draws)
    requires forall y, x :: 0 <= y < height && 0 <= x < width ==> before[y][x] == Empty || before[y][x] == Wall
    requires Matches(board, before, ObstacleCells(before, PlanFor(StyleOf(draws), width, height)))
    ensures forall y, x :: 0 <= y < height && 0 <= x < width ==> board[y, x] == AsWritten(width, height, draws)[y][x]
    ensures CellsValid(board)
    ensures forall y, x :: 0 <= y < height && 0 <= x < width && board[y, x] == Obstacle ==>
      Far(PlanFor(StyleOf(draws), width, height), Pos(x, y))
  {
    var p := PlanFor(StyleOf(draws), width, height);
    PassBoard(board, before, p);
    assert AsWritten(width, height, draws) == WithObstacles(before, width, height, ObstacleCells(before, p));
  }

  /** A walls-only board after the obstacle pass with the plan p: it holds the board with the
      obstacle set added, valid cells only, and every obstacle is away from the centre. */
  lemma PassBoard(board: array2<int>, before: seq<seq<int>>, p: Plan)
    requires IsBoard(before, board.Length1, board.Length0)
    requires forall y, x :: 0 <= y < board.Length0 && 0 <= x < board.Length1 ==>
      before[y][x] == Empty || before[y][x] == Wall
    requires Matches(board, before, ObstacleCells(before, p))
    ensures forall y, x :: 0 <= y < board.Length0 && 0 <= x < board.Length1 ==>
      board[y, x] == WithObstacles(before, board.Length1, board.Length0, ObstacleCells(before, p))[y][x]
    ensures CellsValid(board)
    ensures forall y, x :: 0 <= y < board.Length0 && 0 <= x < board.Length1 && board[y, x] == Obstacle ==>
      Far(p, Pos(x, y))
  {
    var cells := ObstacleCells(before, p);
    ObstaclesSafe(before, p);
    ObstaclesOnWallsOnly(board, before, p, cells);
    var r := WithObstacles(before, board.Length1, board.Length0, cells);
    forall y, x | 0 <= y < board.Length0 && 0 <= x < board.Length1
      ensures board[y, x] == r[y][x]
    {
      assert r[y][x] == if Pos(x, y) in cells then Obstacle else At(before, y, x);
    }
  }

  /** Every edge of the board the obstacle pass starts from is open. */
  lemma BeforeObstaclesOpen(width: int, height: int, draws: StyleDraws)
    requires width >= 1 && height >= 1 && DrawsFit(width, height, draws)
    ensures EdgesOpen(BeforeObstacles(width, height, draws), width, height)
  {
    GappedEdgesOpen(Bordered(EmptyBoard(width, height), width, height, draws), width, height, StyleOf(draws));
  }

  /** A board made of a walls-only board and safe obstacle cells holds valid cells only, and
      each of its obstacles is away from the centre. */
  lemma ObstaclesOnWallsOnly(board: array2<int>, before: seq<seq<int>>, p: Plan, cells: set<Pos>)
    requires Matches(board, before, cells)
    requires forall y, x :: 0 <= y < board.Length0 && 0 <= x < board.Length1 ==>
      before[y][x] == Empty || before[y][x] == Wall
    requires forall c :: c in cells ==> Safe(before, p, c)
    ensures CellsValid(board)
    ensures forall y, x :: 0 <= y < board.Length0 && 0 <= x < board.Length1 && board[y, x] == Obstacle ==>
      Far(p, Pos(x, y))
  {
  }

  /** A gapped border whose draws opened a top column and a side row goes through the gap
      guarantee unchanged. */
  lemma GappedDrawsKept(width: int, height: int, topGap: seq<bool>, sideGap: seq<bool>)
    requires width >= 1 && height >= 1 && |topGap| == width && |sideGap| == height
    requires exists x :: 0 < x < width - 1 && topGap[x]
    requires exists y :: 0 <= y < height && sideGap[y]
    ensures forall y, x :: 0 <= y < height && 0 <= x < width ==>
      BeforeObstacles(width, height, GapDraws(topGap, sideGap))[y][x] ==
        GappedCell(Empty, width, height, topGap, sideGap, x, y)
  {
    var draws := GapDraws(topGap, sideGap);
    var b := Bordered(EmptyBoard(width, height), width, height, draws);
    var tx :| 0 < tx < width - 1 && topGap[tx];
    var sy :| 0 <= sy < height && sideGap[sy];
    assert b[0][tx] == Empty && b[height - 1][tx] == Empty;
    assert b[sy][0] == Empty && b[sy][width - 1] == Empty;
    GappedKeepsOpenBoard(b, width, height, GappedStyle);
  }

  /** The top row of the gapped border with a single top gap at column 5 and no side gap in
      row 0: only (5, 0) is empty. */
  lemma SingleTopGap(topGap: seq<bool>, sideGap: seq<bool>, x: int)
    requires |topGap| == 40 && |sideGap| == 25 && 0 <= x < 40
    requires forall k :: 0 <= k < 40 ==> (topGap[k] <==> k == 5)
    requires !sideGap[0]
    ensures GappedCell(Empty, 40, 25, topGap, sideGap, x, 0) == if x == 5 then Empty else Wall
  {
  }

  /** The draws of the gapped border of the 40 by 25 board with a single top gap, at column 5,
      and a single side gap, at row 12. */
  function SingleGapDraws(): (d: StyleDraws)
    ensures DrawsFit(40, 25, d) && StyleOf(d) == GappedStyle
  {
    GapDraws(seq(40, x => x == 5), seq(25, y => y == 12))
  }

  /** For the single-gap draws the gap guarantee finds every edge open and keeps the board, so
      the top row the obstacle pass starts from is empty at column 5 only. */
  lemma SingleGapTopRow(x: int)
    requires 0 <= x < 40
    ensures BeforeObstacles(40, 25, SingleGapDraws())[0][x] == if x == 5 then Empty else Wall
  {
    var draws := SingleGapDraws();
    var topGap, sideGap := draws.topGap, draws.sideGap;
    assert 0 < 5 < 39 && topGap[5];
    assert 0 <= 12 < 25 && sideGap[12];
    GappedDrawsKept(40, 25, topGap, sideGap);
    SingleTopGap(topGap, sideGap, x);
  }

  /** For the single-gap draws the obstacle pass fills (5, 0), the only empty cell of the top
      row, so the top edge of the board as written has no empty cell. */
  lemma TopEdgeClosedAsWritten()
    ensures !RowOpen(AsWritten(40, 25, SingleGapDraws()), 0)
  {
    var before := BeforeObstacles(40, 25, SingleGapDraws());
    SingleGapTopRow(5);
    TopEdgeCellTaken(before);
    var cells := ObstacleCells(before, PlanFor(GappedStyle, 40, 25));
    var written := AsWritten(40, 25, SingleGapDraws());
    forall x | 0 <= x < 40
      ensures written[0][x] != Empty
    {
      SingleGapTopRow(x);
      assert written[0][x] == if Pos(x, 0) in cells then Obstacle else At(before, 0, x);
    }
  }

  /** The generator with the gap guarantee run once more after the obstacles, so the promise
      of line 948 holds of the board the game is played on. It differs from the board as
      written only in cells turned empty. */
  method Generate(width: nat, height: nat, draws: StyleDraws) returns (board: array2<int>)
    requires width >= 1 && height >= 1 && DrawsFit(width, height, draws)
    ensures fresh(board) && board.Length0 == height && board.Length1 == width
    ensures forall y, x :: 0 <= y < board.Length0 && 0 <= x < board.Length1 ==>
      board[y, x] == Generated(board.Length1, board.Length0, draws)[y][x]
    ensures forall y, x :: 0 <= y < board.Length0 && 0 <= x < board.Length1 ==>
      board[y, x] == AsWritten(board.Length1, board.Length0, draws)[y][x] || board[y, x] == Empty
    ensures AllEdgesGapped(board)
    ensures CellsValid(board)
    ensures forall y, x :: 0 <= y < board.Length0 && 0 <= x < board.Length1 && board[y, x] == Obstacle ==>
      Far(PlanFor(StyleOf(draws), board.Length1, board.Length0), Pos(x, y))
  {
    board := GenerateAsWritten(width, height, draws);
    Regap(board, draws);
  }

  /** Line 949 run once more, on the board as written: the result is the corrected generator's
      value, so every edge is open, cells only become empty, and valid cells and obstacles away
      from the centre stay so. */
  method Regap(board: array2<int>, draws: StyleDraws)
    requires board.Length0 >= 1 && board.Length1 >= 1 && DrawsFit(board.Length1, board.Length0, draws)
    requires forall y, x :: 0 <= y < board.Length0 && 0 <= x < board.Length1 ==>
      board[y, x] == AsWritten(board.Length1, board.Length0, draws)[y][x]
    requires CellsValid(board)
    requires forall y, x :: 0 <= y < board.Length0 && 0 <= x < board.Length1 && board[y, x] == Obstacle ==>
      Far(PlanFor(StyleOf(draws), board.Length1, board.Length0), Pos(x, y))
    modifies board
    ensures forall y, x :: 0 <= y < board.Length0 && 0 <= x < board.Length1 ==>
      board[y, x] == Generated(board.Length1, board.Length0, draws)[y][x]
    ensures forall y, x :: 0 <= y < board.Length0 && 0 <= x < board.Length1 ==>
      board[y, x] == AsWritten(board.Length1, board.Length0, draws)[y][x] || board[y, x] == Empty
    ensures AllEdgesGapped(board)
    ensures CellsValid(board)
    ensures forall y, x :: 0 <= y < board.Length0 && 0 <= x < board.Length1 && board[y, x] == Obstacle ==>
      Far(PlanFor(StyleOf(draws), board.Length1, board.Length0), Pos(x, y))
  {
    SnapshotHolds(board, AsWritten(board.Length1, board.Length0, draws));
    EnsureGaps(board, StyleOf(draws));
  }
}
