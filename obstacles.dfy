/** The obstacle pass of the board generator (lines 849-943): a fixed pseudo-random scatter,
    sector by sector, then a top-up pass. Nothing in it draws on Math.random, so the
    obstacles are a function of the board style and of the board the earlier passes left. */
module Obstacles {
  import opened Grid

  /** The modulus of the pseudo-random generator. */
  const Modulus: nat := 233280

  /** Lines 853-855. The generator yields k / 233280; the model keeps the numerator k. */
  function Lcg(n: nat): (k: nat)
    ensures k < Modulus
  {
    (n * 9301 + 49297) % Modulus
  }

  /** Lines 858-874: the share of the board that becomes obstacles, per mille. */
  function DensityPerMille(s: BoardStyle): (d: nat)
    ensures 15 <= d <= 35
  {
    match s
    case GappedStyle => 25
    case CircularStyle => 30
    case MazeStyle => 15
    case BlobStyle => 35
  }

  /** Everything the pass derives from the style and the board size before it starts. */
  datatype Plan = Plan(width: nat, height: nat, seed: nat, count: nat, perSector: nat)

  /** Lines 852, 858-874 and 883: the seed, the obstacle count (rounded down) and the number of
      attempts per sector (the count shared over 40 sectors, rounded up). */
  function PlanFor(s: BoardStyle, width: nat, height: nat): (p: Plan)
    ensures p.width == width && p.height == height
    ensures p.seed == StyleIndex(s) * 1000
    ensures p.count * 1000 <= width * height * DensityPerMille(s) < (p.count + 1) * 1000
    ensures p.perSector * 40 >= p.count && (p.perSector == 0 || (p.perSector - 1) * 40 < p.count)
  {
    var count := width * height * DensityPerMille(s) / 1000;
    Plan(width, height, StyleIndex(s) * 1000, count, (count + 39) / 40)
  }

  /** Lines 877-878 and 897-900 restated on integers: a sector is skipped when it is one of the four
      around the centre. */
  predicate Central(sX: int, sY: int)
  {
    (sX == 4 || sX == 3) && (sY == 2 || sY == 1)
  }

  /** Lines 892-895 and 907-912: the candidate cell of attempt i in sector (sX, sY). */
  function SectorCandidate(p: Plan, sX: nat, sY: nat, i: nat): Pos
  {
    var startX, endX := sX * p.width / 8, (sX + 1) * p.width / 8;
    var startY, endY := sY * p.height / 5, (sY + 1) * p.height / 5;
    var num := p.seed + (sY * 8 + sX) * 1000 + i * 100;
    Pos(startX + Lcg(num) * (endX - startX) / Modulus, startY + Lcg(num + 50) * (endY - startY) / Modulus)
  }

  /** Lines 930-932: the candidate cell of attempt i of the top-up pass. */
  function TopUpCandidate(p: Plan, i: nat): Pos
  {
    var num := p.seed + 10000 + i * 200;
    Pos(Lcg(num) * p.width / Modulus, Lcg(num + 100) * p.height / Modulus)
  }

  /** Lines 915-917 and 934-936: strictly more than 6 cells from the centre, compared squared. */
  predicate Far(p: Plan, c: Pos)
  {
    var dx, dy := c.x - p.width / 2, c.y - p.height / 2;
    dx * dx + dy * dy > 36
  }

  /** The acceptance test of both passes (lines 919 and 938), on the board before the pass with
      the cells placed so far: an obstacle turns an empty cell into a non-empty one. */
  predicate Accepts(g: seq<seq<int>>, p: Plan, cells: set<Pos>, c: Pos)
  {
    && 0 <= c.y < |g| && 0 <= c.x < |g[c.y]|
    && g[c.y][c.x] == Empty && c !in cells && Far(p, c)
  }

  /** The obstacles placed so far and the counter the sector pass keeps. */
  datatype Tally = Tally(cells: set<Pos>, placed: nat)

  function Place(g: seq<seq<int>>, p: Plan, t: Tally, c: Pos): Tally
  {
    if Accepts(g, p, t.cells, c) then Tally(t.cells + {c}, t.placed + 1) else t
  }

  /** Lines 903-923: attempts i and onward of one sector, stopping once the count is reached. */
  function SlotPass(g: seq<seq<int>>, p: Plan, sX: nat, sY: nat, i: nat, t: Tally): Tally
    decreases p.perSector - i
  {
    if i >= p.perSector || t.placed >= p.count then t
    else SlotPass(g, p, sX, sY, i + 1, Place(g, p, t, SectorCandidate(p, sX, sY, i)))
  }

  /** Lines 890-924: sectors sX and onward of row sY. */
  function ColPass(g: seq<seq<int>>, p: Plan, sX: nat, sY: nat, t: Tally): Tally
    decreases 8 - sX
  {
    if sX >= 8 then t
    else ColPass(g, p, sX + 1, sY, if Central(sX, sY) then t else SlotPass(g, p, sX, sY, 0, t))
  }

  /** Lines 889-925: sector rows sY and onward. */
  function RowPass(g: seq<seq<int>>, p: Plan, sY: nat, t: Tally): Tally
    decreases 5 - sY
  {
    if sY >= 5 then t else RowPass(g, p, sY + 1, ColPass(g, p, 0, sY, t))
  }

  /** The sector pass from an untouched board. */
  function SectorPhase(g: seq<seq<int>>, p: Plan): Tally
  {
    RowPass(g, p, 0, Tally({}, 0))
  }

  /** Lines 928-942: attempts i to n - 1 of the top-up pass, which does not advance the counter. */
  function TopUp(g: seq<seq<int>>, p: Plan, i: nat, n: nat, cells: set<Pos>): set<Pos>
    decreases n - i
  {
    if i >= n then cells
    else
      var c := TopUpCandidate(p, i);
      TopUp(g, p, i + 1, n, if Accepts(g, p, cells, c) then cells + {c} else cells)
  }

  /** Lines 849-943: the cells that become obstacles. The top-up pass runs when fewer than 80%
      of the count were placed, with as many attempts as obstacles are missing. */
  function ObstacleCells(g: seq<seq<int>>, p: Plan): set<Pos>
  {
    var t := SectorPhase(g, p);
    if t.placed * 5 < p.count * 4 then TopUp(g, p, 0, p.count - t.placed, t.cells) else t.cells
  }

  /** A cell that may become an obstacle: on the board, empty before the pass, away from the centre. */
  predicate Safe(g: seq<seq<int>>, p: Plan, c: Pos)
  {
    0 <= c.y < |g| && 0 <= c.x < |g[c.y]| && g[c.y][c.x] == Empty && Far(p, c)
  }

  /** The four sectors around the centre, as cells. */
  predicate InCentralBlock(p: Plan, c: Pos)
  {
    3 * p.width / 8 <= c.x < 5 * p.width / 8 && p.height / 5 <= c.y < 3 * p.height / 5
  }

  /** What the sector pass keeps true of its tally. */
  ghost predicate Sound(g: seq<seq<int>>, p: Plan, t: Tally)
  {
    && |t.cells| == t.placed <= p.count
    && (forall c :: c in t.cells ==> Safe(g, p, c))
  }

  ghost predicate AwayFromCentre(p: Plan, cells: set<Pos>)
  {
    forall c :: c in cells ==> !InCentralBlock(p, c)
  }

  lemma MulMonotone(a: int, b: int, w: nat)
    requires a <= b
    ensures a * w <= b * w
  {
  }

  /** Sector bounds grow with the sector index, and each sector is at least one cell wide. */
  lemma SectorBounds(s: nat, w: nat, d: nat)
    requires 1 <= d <= w
    ensures s * w / d + 1 <= (s + 1) * w / d
  {
    assert (s + 1) * w == s * w + w;
  }

  lemma BoundMonotone(a: nat, b: nat, w: nat)
    requires a <= b
    ensures a * w / 8 <= b * w / 8 && a * w / 5 <= b * w / 5
  {
    MulMonotone(a, b, w);
  }

  /** The pseudo-random offset stays inside a span of at least one cell. */
  lemma OffsetInSpan(k: nat, span: int)
    requires k < Modulus && span >= 1
    ensures 0 <= k * span / Modulus < span
  {
    MulMonotone(k, Modulus - 1, span);
    assert k * span < Modulus * span;
  }

  /** The candidate of a sector lies inside that sector. */
  lemma CandidateInSector(p: Plan, sX: nat, sY: nat, i: nat)
    requires p.width >= 8 && p.height >= 5
    ensures var c := SectorCandidate(p, sX, sY, i);
      && sX * p.width / 8 <= c.x < (sX + 1) * p.width / 8
      && sY * p.height / 5 <= c.y < (sY + 1) * p.height / 5
  {
    var num := p.seed + (sY * 8 + sX) * 1000 + i * 100;
    SectorBounds(sX, p.width, 8);
    SectorBounds(sY, p.height, 5);
    OffsetInSpan(Lcg(num), (sX + 1) * p.width / 8 - sX * p.width / 8);
    OffsetInSpan(Lcg(num + 50), (sY + 1) * p.height / 5 - sY * p.height / 5);
  }

  /** The candidate of a sector that is not skipped lies outside the central block. */
  lemma CandidateAwayFromCentre(p: Plan, sX: nat, sY: nat, i: nat)
    requires p.width >= 8 && p.height >= 5
    requires sX < 8 && sY < 5 && !Central(sX, sY)
    ensures !InCentralBlock(p, SectorCandidate(p, sX, sY, i))
  {
    CandidateInSector(p, sX, sY, i);
    if sX <= 2 {
      BoundMonotone(sX + 1, 3, p.width);
    } else if sX >= 5 {
      BoundMonotone(5, sX, p.width);
    } else if sY == 0 {
    } else {
      BoundMonotone(3, sY, p.height);
    }
  }

  lemma {:induction false} SlotPassKeeps(g: seq<seq<int>>, p: Plan, sX: nat, sY: nat, i: nat, t: Tally)
    requires Sound(g, p, t)
    ensures var r := SlotPass(g, p, sX, sY, i, t);
      && Sound(g, p, r) && t.cells <= r.cells
      && (p.width >= 8 && p.height >= 5 && sX < 8 && sY < 5 && !Central(sX, sY) && AwayFromCentre(p, t.cells)
          ==> AwayFromCentre(p, r.cells))
    decreases p.perSector - i
  {
    if i < p.perSector && t.placed < p.count {
      var c := SectorCandidate(p, sX, sY, i);
      if p.width >= 8 && p.height >= 5 && sX < 8 && sY < 5 && !Central(sX, sY) {
        CandidateAwayFromCentre(p, sX, sY, i);
      }
      if Accepts(g, p, t.cells, c) {
        assert |t.cells + {c}| == |t.cells| + 1;
      }
      SlotPassKeeps(g, p, sX, sY, i + 1, Place(g, p, t, c));
    }
  }

  lemma {:induction false} ColPassKeeps(g: seq<seq<int>>, p: Plan, sX: nat, sY: nat, t: Tally)
    requires Sound(g, p, t)
    ensures var r := ColPass(g, p, sX, sY, t);
      && Sound(g, p, r) && t.cells <= r.cells
      && (p.width >= 8 && p.height >= 5 && sY < 5 && AwayFromCentre(p, t.cells) ==> AwayFromCentre(p, r.cells))
    decreases 8 - sX
  {
    if sX < 8 {
      if !Central(sX, sY) {
        SlotPassKeeps(g, p, sX, sY, 0, t);
      }
      ColPassKeeps(g, p, sX + 1, sY, if Central(sX, sY) then t else SlotPass(g, p, sX, sY, 0, t));
    }
  }

  lemma {:induction false} RowPassKeeps(g: seq<seq<int>>, p: Plan, sY: nat, t: Tally)
    requires Sound(g, p, t)
    ensures var r := RowPass(g, p, sY, t);
      && Sound(g, p, r) && t.cells <= r.cells
      && (p.width >= 8 && p.height >= 5 && AwayFromCentre(p, t.cells) ==> AwayFromCentre(p, r.cells))
    decreases 5 - sY
  {
    if sY < 5 {
      ColPassKeeps(g, p, 0, sY, t);
      RowPassKeeps(g, p, sY + 1, ColPass(g, p, 0, sY, t));
    }
  }

  lemma {:induction false} TopUpKeeps(g: seq<seq<int>>, p: Plan, i: nat, n: nat, cells: set<Pos>)
    requires forall c :: c in cells ==> Safe(g, p, c)
    ensures var r := TopUp(g, p, i, n, cells);
      && (forall c :: c in r ==> Safe(g, p, c))
      && cells <= r
      && |r| <= |cells| + (if i <= n then n - i else 0)
    decreases n - i
  {
    if i < n {
      var c := TopUpCandidate(p, i);
      var next := if Accepts(g, p, cells, c) then cells + {c} else cells;
      assert |next| <= |cells| + 1;
      TopUpKeeps(g, p, i + 1, n, next);
    }
  }

  /** Every obstacle lands on a cell that was empty before the pass, on the board, more than
      6 cells from the centre. */
  lemma ObstaclesSafe(g: seq<seq<int>>, p: Plan)
    ensures forall c :: c in ObstacleCells(g, p) ==> Safe(g, p, c)
  {
    RowPassKeeps(g, p, 0, Tally({}, 0));
    var t := SectorPhase(g, p);
    if t.placed * 5 < p.count * 4 {
      TopUpKeeps(g, p, 0, p.count - t.placed, t.cells);
    }
  }

  /** At most the obstacle count is placed, top-up included. */
  lemma ObstacleCountBound(g: seq<seq<int>>, p: Plan)
    ensures |ObstacleCells(g, p)| <= p.count
  {
    RowPassKeeps(g, p, 0, Tally({}, 0));
    var t := SectorPhase(g, p);
    if t.placed * 5 < p.count * 4 {
      TopUpKeeps(g, p, 0, p.count - t.placed, t.cells);
    }
  }

  /** The sector pass places nothing in the four central sectors. */
  lemma SectorPhaseAvoidsCentre(g: seq<seq<int>>, p: Plan)
    requires p.width >= 8 && p.height >= 5
    ensures AwayFromCentre(p, SectorPhase(g, p).cells)
  {
    RowPassKeeps(g, p, 0, Tally({}, 0));
  }

  /** Every cell of the sector pass is among the final obstacles. */
  lemma SectorPhaseKept(g: seq<seq<int>>, p: Plan)
    ensures SectorPhase(g, p).cells <= ObstacleCells(g, p)
  {
    RowPassKeeps(g, p, 0, Tally({}, 0));
    var t := SectorPhase(g, p);
    if t.placed * 5 < p.count * 4 {
      TopUpKeeps(g, p, 0, p.count - t.placed, t.cells);
    }
  }

  /** The cells of the board, with the cells in `cells` turned into obstacles. */
  ghost predicate Matches(board: array2<int>, g: seq<seq<int>>, cells: set<Pos>)
    reads board
  {
    && |g| == board.Length0
    && (forall y :: 0 <= y < |g| ==> |g[y]| == board.Length1)
    && forall y, x :: 0 <= y < board.Length0 && 0 <= x < board.Length1 ==>
         board[y, x] == if Pos(x, y) in cells then Obstacle else g[y][x]
  }

  /** The board cell of c is empty and c is far from the centre exactly when the pass accepts it. */
  lemma AcceptsOnBoard(board: array2<int>, g: seq<seq<int>>, p: Plan, cells: set<Pos>, c: Pos)
    requires Matches(board, g, cells)
    ensures (0 <= c.y < board.Length0 && 0 <= c.x < board.Length1 && board[c.y, c.x] == Empty && Far(p, c))
            <==> Accepts(g, p, cells, c)
  {
  }

  /** Lines 903-923: the attempts of one sector. */
  method FillSector(board: array2<int>, ghost g: seq<seq<int>>, p: Plan, sX: nat, sY: nat,
                    ghost cells0: set<Pos>, placed0: nat) returns (ghost cells: set<Pos>, placed: nat)
    requires Matches(board, g, cells0)
    modifies board
    ensures Matches(board, g, cells)
    ensures Tally(cells, placed) == SlotPass(g, p, sX, sY, 0, Tally(cells0, placed0))
  {
    cells, placed := cells0, placed0;
    var i := 0;
    while i < p.perSector && placed < p.count
      invariant SlotPass(g, p, sX, sY, i, Tally(cells, placed)) == SlotPass(g, p, sX, sY, 0, Tally(cells0, placed0))
      invariant Matches(board, g, cells)
      decreases p.perSector - i
    {
      var c := SectorCandidate(p, sX, sY, i);
      AcceptsOnBoard(board, g, p, cells, c);
      if 0 <= c.y < board.Length0 && 0 <= c.x < board.Length1 && board[c.y, c.x] == Empty && Far(p, c) {
        board[c.y, c.x] := Obstacle;
        cells := cells + {c};
        placed := placed + 1;
      }
      i := i + 1;
    }
  }

  /** Lines 890-924: the sectors of one row, skipping the central ones. */
  method FillSectorRow(board: array2<int>, ghost g: seq<seq<int>>, p: Plan, sY: nat,
                       ghost cells0: set<Pos>, placed0: nat) returns (ghost cells: set<Pos>, placed: nat)
    requires Matches(board, g, cells0)
    modifies board
    ensures Matches(board, g, cells)
    ensures Tally(cells, placed) == ColPass(g, p, 0, sY, Tally(cells0, placed0))
  {
    cells, placed := cells0, placed0;
    for sX := 0 to 8
      invariant ColPass(g, p, sX, sY, Tally(cells, placed)) == ColPass(g, p, 0, sY, Tally(cells0, placed0))
      invariant Matches(board, g, cells)
    {
      if Central(sX, sY) {
        continue;
      }
      cells, placed := FillSector(board, g, p, sX, sY, cells, placed);
    }
  }

  /** Lines 928-942: the top-up attempts i < n. */
  method FillTopUp(board: array2<int>, ghost g: seq<seq<int>>, p: Plan, n: nat, ghost cells0: set<Pos>)
    returns (ghost cells: set<Pos>)
    requires Matches(board, g, cells0)
    modifies board
    ensures Matches(board, g, cells)
    ensures cells == TopUp(g, p, 0, n, cells0)
  {
    cells := cells0;
    for i := 0 to n
      invariant TopUp(g, p, i, n, cells) == TopUp(g, p, 0, n, cells0)
      invariant Matches(board, g, cells)
    {
      var c := TopUpCandidate(p, i);
      AcceptsOnBoard(board, g, p, cells, c);
      if 0 <= c.y < board.Length0 && 0 <= c.x < board.Length1 && board[c.y, c.x] == Empty && Far(p, c) {
        board[c.y, c.x] := Obstacle;
        cells := cells + {c};
      }
    }
  }

  /** Lines 889-925: the whole sector pass. */
  method FillSectors(board: array2<int>, ghost g: seq<seq<int>>, p: Plan) returns (ghost cells: set<Pos>, placed: nat)
    requires Matches(board, g, {})
    modifies board
    ensures Matches(board, g, cells)
    ensures Tally(cells, placed) == SectorPhase(g, p)
  {
    cells, placed := {}, 0;
    for sY := 0 to 5
      invariant RowPass(g, p, sY, Tally(cells, placed)) == SectorPhase(g, p)
      invariant Matches(board, g, cells)
    {
      cells, placed := FillSectorRow(board, g, p, sY, cells, placed);
    }
  }

  /** Lines 849-943. */
  method AddObstacles(board: array2<int>, style: BoardStyle)
    modifies board
    ensures forall y, x :: 0 <= y < board.Length0 && 0 <= x < board.Length1 ==>
      board[y, x] ==
        if Pos(x, y) in ObstacleCells(old(Snapshot(board)), PlanFor(style, board.Length1, board.Length0))
        then Obstacle else old(board[y, x])
  {
    ghost var g := Snapshot(board);
    var p := PlanFor(style, board.Length1, board.Length0);
    ghost var final := ObstacleCells(g, p);
    ghost var cells;
    var placed;
    cells, placed := FillSectors(board, g, p);
    if placed * 5 < p.count * 4 {
      cells := FillTopUp(board, g, p, p.count - placed, cells);
    }
    assert cells == final;
    assert old(Snapshot(board)) == g;
  }

  /** On the 40 by 25 board with the gapped style, the first attempt of sector (1, 0) is the cell
      (5, 0) of the top edge; it is taken whenever that cell is empty, whatever the sector pass
      did before, so a top-edge gap there is filled after the gap guarantee has run. */
  lemma TopEdgeCellTaken(g: seq<seq<int>>)
    requires |g| == 25 && forall y :: 0 <= y < 25 ==> |g[y]| == 40
    requires g[0][5] == Empty
    ensures Pos(5, 0) in ObstacleCells(g, PlanFor(GappedStyle, 40, 25))
  {
    var p := PlanFor(GappedStyle, 40, 25);
    assert p == Plan(40, 25, 0, 25, 1);
    var t0 := Tally({}, 0);
    assert SectorCandidate(p, 0, 0, 0) == Pos(1, 1);
    var t1 := Place(g, p, t0, Pos(1, 1));
    assert SlotPass(g, p, 0, 0, 0, t0) == t1;
    assert t1.cells <= {Pos(1, 1)} && t1.placed <= 1;
    assert SectorCandidate(p, 1, 0, 0) == Pos(5, 0);
    assert Accepts(g, p, t1.cells, Pos(5, 0));
    var t2 := Place(g, p, t1, Pos(5, 0));
    assert SlotPass(g, p, 1, 0, 0, t1) == t2;
    assert ColPass(g, p, 0, 0, t0) == ColPass(g, p, 2, 0, t2);
    SlotPassKeeps(g, p, 0, 0, 0, t0);
    SlotPassKeeps(g, p, 1, 0, 0, t1);
    ColPassKeeps(g, p, 2, 0, t2);
    RowPassKeeps(g, p, 1, ColPass(g, p, 0, 0, t0));
    SectorPhaseKept(g, p);
  }
}
