/** The four border styles of the board generator, each filling the board in place. */
module Borders {
  import opened Grid

  /** Value of a cell after the top/bottom pass of the gapped border: an edge column gets a
      wall on both rows unless its draw found a gap. */
  ghost function TopBottomPass(v: int, height: int, topGap: seq<bool>, x: int, y: int): int
    requires 0 <= x < |topGap|
  {
    if y == 0 || y == height - 1 then (if topGap[x] then Empty else Wall) else v
  }

  /** Value of a cell after the whole gapped border: the left/right pass comes last, so it
      decides the four corners. */
  ghost function GappedCell(v: int, width: int, height: int, topGap: seq<bool>, sideGap: seq<bool>, x: int, y: int): int
    requires 0 <= x < |topGap| && 0 <= y < |sideGap|
  {
    if x == 0 || x == width - 1 then (if sideGap[y] then Empty else Wall)
    else TopBottomPass(v, height, topGap, x, y)
  }

  /** Gapped border. topGap[x] is the draw for column x (a gap with probability 0.2) and
      sideGap[y] the draw for row y. */
  method GappedBorder(board: array2<int>, topGap: seq<bool>, sideGap: seq<bool>)
    requires board.Length0 >= 1 && board.Length1 >= 1
    requires |topGap| == board.Length1 && |sideGap| == board.Length0
    modifies board
    ensures forall y, x :: 0 <= y < board.Length0 && 0 <= x < board.Length1 ==>
      board[y, x] == GappedCell(old(board[y, x]), board.Length1, board.Length0, topGap, sideGap, x, y)
    ensures forall y :: 0 <= y < board.Length0 ==>
      board[y, 0] == board[y, board.Length1 - 1] && (board[y, 0] == Empty <==> sideGap[y])
    ensures forall x :: 0 < x < board.Length1 - 1 ==>
      board[0, x] == board[board.Length0 - 1, x] && (board[0, x] == Empty <==> topGap[x])
    ensures forall y, x :: 0 < y < board.Length0 - 1 && 0 < x < board.Length1 - 1 ==>
      board[y, x] == old(board[y, x])
  {
    var height, width := board.Length0, board.Length1;
    var topGaps: seq<int> := [];
    for x := 0 to width
      invariant forall k :: 0 <= k < |topGaps| ==> 0 <= topGaps[k] < x && topGap[topGaps[k]]
      invariant forall c :: 0 <= c < x && topGap[c] ==> c in topGaps
      invariant forall y, c :: 0 <= y < height && 0 <= c < width ==>
        board[y, c] == if (y == 0 || y == height - 1) && c < x && !topGap[c] then Wall else old(board[y, c])
    {
      if topGap[x] {
        topGaps := topGaps + [x];
      } else {
        board[0, x] := Wall;
        board[height - 1, x] := Wall;
      }
    }
    for k := 0 to |topGaps|
      invariant forall y, c :: 0 <= y < height && 0 <= c < width ==>
        board[y, c] ==
          if (y == 0 || y == height - 1) && !topGap[c] then Wall
          else if (y == 0 || y == height - 1) && c in topGaps[..k] then Empty
          else old(board[y, c])
    {
      assert topGaps[..k + 1] == topGaps[..k] + [topGaps[k]];
      board[0, topGaps[k]] := Empty;
      board[height - 1, topGaps[k]] := Empty;
    }
    assert topGaps[..|topGaps|] == topGaps;
    var sideGaps: seq<int> := [];
    for y := 0 to height
      invariant forall k :: 0 <= k < |sideGaps| ==> 0 <= sideGaps[k] < y && sideGap[sideGaps[k]]
      invariant forall r :: 0 <= r < y && sideGap[r] ==> r in sideGaps
      invariant forall r, c :: 0 <= r < height && 0 <= c < width ==>
        board[r, c] ==
          if (c == 0 || c == width - 1) && r < y && !sideGap[r] then Wall
          else TopBottomPass(old(board[r, c]), height, topGap, c, r)
    {
      if sideGap[y] {
        sideGaps := sideGaps + [y];
      } else {
        board[y, 0] := Wall;
        board[y, width - 1] := Wall;
      }
    }
    for k := 0 to |sideGaps|
      invariant forall r, c :: 0 <= r < height && 0 <= c < width ==>
        board[r, c] ==
          if (c == 0 || c == width - 1) && !sideGap[r] then Wall
          else if (c == 0 || c == width - 1) && r in sideGaps[..k] then Empty
          else TopBottomPass(old(board[r, c]), height, topGap, c, r)
    {
      assert sideGaps[..k + 1] == sideGaps[..k] + [sideGaps[k]];
      board[sideGaps[k], 0] := Empty;
      board[sideGaps[k], width - 1] := Empty;
    }
    assert sideGaps[..|sideGaps|] == sideGaps;
  }

  /** The arena test with floor(0.45 * width) and floor(0.45 * height) as semi-axes, restated on
      integers: (x - cx)^2 / rx^2 + (y - cy)^2 / ry^2 > 1. A zero semi-axis keeps the floating
      point outcome: 0/0 is NaN, which is never greater than 1, and d/0 is infinite. */
  predicate OutsideArena(width: int, height: int, x: int, y: int)
  {
    var dx, dy := x - width / 2, y - height / 2;
    var rx, ry := width * 45 / 100, height * 45 / 100;
    if (rx == 0 && dx == 0) || (ry == 0 && dy == 0) then false
    else if rx == 0 || ry == 0 then true
    else dx * dx * ry * ry + dy * dy * rx * rx > rx * rx * ry * ry
  }

  /** The centre of the arena is never walled. */
  lemma ArenaCentreOpen(width: int, height: int)
    ensures !OutsideArena(width, height, width / 2, height / 2)
  {
    var rx, ry := width * 45 / 100, height * 45 / 100;
    if rx != 0 && ry != 0 {
      assert 0 <= rx * rx;
      assert 0 <= (rx * rx) * (ry * ry);
      assert (rx * rx) * (ry * ry) == rx * rx * ry * ry;
    }
  }

  /** Circular arena: every cell strictly outside the ellipse becomes a wall, nothing else changes. */
  method CircularArena(board: array2<int>)
    modifies board
    ensures forall y, x :: 0 <= y < board.Length0 && 0 <= x < board.Length1 ==>
      board[y, x] == if OutsideArena(board.Length1, board.Length0, x, y) then Wall else old(board[y, x])
  {
    var height, width := board.Length0, board.Length1;
    for y := 0 to height
      invariant forall r, c :: 0 <= r < height && 0 <= c < width ==>
        board[r, c] == if r < y && OutsideArena(width, height, c, r) then Wall else old(board[r, c])
    {
      for x := 0 to width
        invariant forall r, c :: 0 <= r < height && 0 <= c < width ==>
          board[r, c] ==
            if (r < y || (r == y && c < x)) && OutsideArena(width, height, c, r) then Wall
            else old(board[r, c])
      {
        if OutsideArena(width, height, x, y) {
          board[y, x] := Wall;
        }
      }
    }
  }

  /** The draws at one maze anchor: the segment length, 3 + floor(3 * random), and its axis. */
  type SegmentLength = n: int | 3 <= n <= 5 witness 3

  datatype Segment = Segment(length: SegmentLength, horizontal: bool)

  /** A segment is not placed when it would run along an outer row or column. */
  predicate Skipped(width: int, height: int, ax: int, ay: int, s: Segment)
  {
    (s.horizontal && (ay == 0 || ay == height - 1)) || (!s.horizontal && (ax == 0 || ax == width - 1))
  }

  /** (x, y) is one of the first n cells of a run from (ax, ay) along the given axis. */
  predicate OnRun(ax: int, ay: int, horizontal: bool, n: int, x: int, y: int)
  {
    if horizontal then y == ay && ax <= x < ax + n else x == ax && ay <= y < ay + n
  }

  predicate OnSegment(ax: int, ay: int, s: Segment, x: int, y: int)
  {
    OnRun(ax, ay, s.horizontal, s.length, x, y)
  }

  /** Anchor (ax, ay) comes before (px, py) in the row-major scan. */
  predicate Before(ax: int, ay: int, px: int, py: int)
  {
    ay < py || (ay == py && ax < px)
  }

  /** Cell (x, y) is covered by a placed segment whose anchor comes before (px, py). Only two
      anchors can reach a cell, since segments are shorter than the anchor spacing of 8: the
      anchor starting its row block, for a horizontal segment, and the one starting its column
      block, for a vertical one. */
  predicate MazeWallBefore(width: int, height: int, segment: (int, int) -> Segment, x: int, y: int, px: int, py: int)
    requires x >= 0 && y >= 0
  {
    var hx, vy := x - x % 8, y - y % 8;
    || (y % 8 == 0 && Before(hx, y, px, py) && !Skipped(width, height, hx, y, segment(hx, y))
        && OnSegment(hx, y, segment(hx, y), x, y))
    || (x % 8 == 0 && Before(x, vy, px, py) && !Skipped(width, height, x, vy, segment(x, vy))
        && OnSegment(x, vy, segment(x, vy), x, y))
  }

  /** Cell (x, y) is covered by some segment of the maze. */
  predicate MazeWall(width: int, height: int, segment: (int, int) -> Segment, x: int, y: int)
    requires 0 <= x < width && 0 <= y < height
  {
    MazeWallBefore(width, height, segment, x, y, 0, height)
  }

  /** Maze walls leave open the last three cells of every 8-cell block along anchor rows and
      columns, and none lies off the anchor rows and columns. */
  lemma MazePassages(width: int, height: int, segment: (int, int) -> Segment, x: int, y: int)
    requires 0 <= x < width && 0 <= y < height
    requires MazeWall(width, height, segment, x, y)
    ensures (y % 8 == 0 && x % 8 < 5) || (x % 8 == 0 && y % 8 < 5)
  {
  }

  /** Lines 664-671: one segment, clipped at the right and bottom edges. */
  method PlaceSegment(board: array2<int>, ax: int, ay: int, s: Segment)
    requires ax >= 0 && ay >= 0
    modifies board
    ensures forall y, x :: 0 <= y < board.Length0 && 0 <= x < board.Length1 ==>
      board[y, x] == if OnSegment(ax, ay, s, x, y) then Wall else old(board[y, x])
  {
    for i := 0 to s.length
      invariant forall y, x :: 0 <= y < board.Length0 && 0 <= x < board.Length1 ==>
        board[y, x] == if OnRun(ax, ay, s.horizontal, i, x, y) then Wall else old(board[y, x])
    {
      var nx := if s.horizontal then ax + i else ax;
      var ny := if s.horizontal then ay else ay + i;
      if nx < board.Length1 && ny < board.Length0 {
        board[ny, nx] := Wall;
      }
    }
  }

  /** Maze: at every anchor whose coordinates are both multiples of 8, a segment of the drawn
      length and axis, unless it would run along an outer row or column. segment(x, y) is the
      pair of draws made at anchor (x, y). */
  method MazeSegments(board: array2<int>, segment: (int, int) -> Segment)
    modifies board
    ensures forall y, x :: 0 <= y < board.Length0 && 0 <= x < board.Length1 ==>
      board[y, x] == if MazeWall(board.Length1, board.Length0, segment, x, y) then Wall else old(board[y, x])
  {
    var height, width := board.Length0, board.Length1;
    for y := 0 to height
      invariant forall r, c :: 0 <= r < height && 0 <= c < width ==>
        board[r, c] == if MazeWallBefore(width, height, segment, c, r, 0, y) then Wall else old(board[r, c])
    {
      for x := 0 to width
        invariant forall r, c :: 0 <= r < height && 0 <= c < width ==>
          board[r, c] == if MazeWallBefore(width, height, segment, c, r, x, y) then Wall else old(board[r, c])
      {
        if x % 8 == 0 && y % 8 == 0 {
          var s := segment(x, y);
          if !Skipped(width, height, x, y, s) {
            PlaceSegment(board, x, y, s);
          }
        }
      }
    }
  }

  type BlobSize = n: int | 3 <= n <= 7 witness 3

  /** One blob's draws: its centre, its radius 3 + floor(5 * random), and the set of offsets
      whose fresh random factor admitted them, sqrt(dx^2 + dy^2) <= size * factor. */
  datatype Blob = Blob(x: int, y: int, size: BlobSize, hit: set<Pos>)

  /** What any draw of the factors, which lie in [0, 1), admits: the centre offset always, and
      only offsets strictly inside the radius. */
  ghost predicate BlobDrawn(b: Blob)
  {
    Pos(0, 0) in b.hit && forall o :: o in b.hit ==> o.x * o.x + o.y * o.y < b.size * b.size
  }

  /** Blob b marks cell (x, y): the offset lies in the scanned square and was admitted. */
  predicate Covers(b: Blob, x: int, y: int)
  {
    -(b.size as int) <= x - b.x <= b.size && -(b.size as int) <= y - b.y <= b.size && Pos(x - b.x, y - b.y) in b.hit
  }

  /** Some blob of the sequence marks cell (x, y). */
  predicate Stamped(blobs: seq<Blob>, x: int, y: int)
    decreases |blobs|
  {
    |blobs| > 0 && (Stamped(blobs[..|blobs| - 1], x, y) || Covers(blobs[|blobs| - 1], x, y))
  }

  /** Every marked cell lies strictly within the radius of a blob that marked it. */
  lemma {:induction false} StampedWithinRadius(blobs: seq<Blob>, x: int, y: int)
    requires forall i :: 0 <= i < |blobs| ==> BlobDrawn(blobs[i])
    requires Stamped(blobs, x, y)
    ensures exists i ::
      && 0 <= i < |blobs| && Covers(blobs[i], x, y)
      && (x - blobs[i].x) * (x - blobs[i].x) + (y - blobs[i].y) * (y - blobs[i].y) < blobs[i].size * blobs[i].size
  {
    var n := |blobs| - 1;
    if Covers(blobs[n], x, y) {
      assert BlobDrawn(blobs[n]) && Pos(x - blobs[n].x, y - blobs[n].y) in blobs[n].hit;
    } else {
      StampedWithinRadius(blobs[..n], x, y);
      var i :| 0 <= i < n && (x - blobs[..n][i].x) * (x - blobs[..n][i].x) + (y - blobs[..n][i].y) * (y - blobs[..n][i].y)
        < blobs[..n][i].size * blobs[..n][i].size;
      assert blobs[..n][i] == blobs[i];
    }
  }

  /** Value a cell has after the blob style: marked by a blob, or on an edge opposite a marked
      edge cell (the spill mirroring). */
  predicate BlobWall(blobs: seq<Blob>, width: int, height: int, x: int, y: int)
  {
    || Stamped(blobs, x, y)
    || ((y == 0 || y == height - 1) && (Stamped(blobs, x, 0) || Stamped(blobs, x, height - 1)))
    || ((x == 0 || x == width - 1) && (Stamped(blobs, 0, y) || Stamped(blobs, width - 1, y)))
  }

  /** Lines 704-711: wall one cell and record it in the set of each edge it lies on. */
  method MarkCell(board: array2<int>, x: int, y: int, top0: set<int>, bottom0: set<int>, left0: set<int>, right0: set<int>)
    returns (top: set<int>, bottom: set<int>, left: set<int>, right: set<int>)
    requires 0 <= y < board.Length0 && 0 <= x < board.Length1
    modifies board
    ensures forall r, c :: 0 <= r < board.Length0 && 0 <= c < board.Length1 ==>
      board[r, c] == if r == y && c == x then Wall else old(board[r, c])
    ensures top == if y == 0 then top0 + {x} else top0
    ensures bottom == if y == board.Length0 - 1 then bottom0 + {x} else bottom0
    ensures left == if x == 0 then left0 + {y} else left0
    ensures right == if x == board.Length1 - 1 then right0 + {y} else right0
  {
    board[y, x] := Wall;
    top := if y == 0 then top0 + {x} else top0;
    bottom := if y == board.Length0 - 1 then bottom0 + {x} else bottom0;
    left := if x == 0 then left0 + {y} else left0;
    right := if x == board.Length1 - 1 then right0 + {y} else right0;
  }

  /** Lines 700-711: offset (dx, dy) of the scanned square. */
  method StampOffset(board: array2<int>, b: Blob, dx: int, dy: int,
                     top0: set<int>, bottom0: set<int>, left0: set<int>, right0: set<int>)
    returns (top: set<int>, bottom: set<int>, left: set<int>, right: set<int>)
    requires -(b.size as int) <= dx <= b.size && -(b.size as int) <= dy <= b.size
    modifies board
    ensures forall y, x :: 0 <= y < board.Length0 && 0 <= x < board.Length1 ==>
      board[y, x] == if Covers(b, x, y) && y - b.y == dy && x - b.x == dx then Wall else old(board[y, x])
    ensures forall x :: x in top <==> x in top0 || (0 <= x < board.Length1 && 0 < board.Length0 && Covers(b, x, 0) && 0 - b.y == dy && x - b.x == dx)
    ensures forall x :: x in bottom <==> x in bottom0 || (0 <= x < board.Length1 && 0 < board.Length0 && Covers(b, x, board.Length0 - 1) && board.Length0 - 1 - b.y == dy && x - b.x == dx)
    ensures forall y :: y in left <==> y in left0 || (0 <= y < board.Length0 && 0 < board.Length1 && Covers(b, 0, y) && y - b.y == dy && 0 - b.x == dx)
    ensures forall y :: y in right <==> y in right0 || (0 <= y < board.Length0 && 0 < board.Length1 && Covers(b, board.Length1 - 1, y) && y - b.y == dy && board.Length1 - 1 - b.x == dx)
  {
    top, bottom, left, right := top0, bottom0, left0, right0;
    if Pos(dx, dy) in b.hit {
      var nx, ny := b.x + dx, b.y + dy;
      if 0 <= nx < board.Length1 && 0 <= ny < board.Length0 {
        top, bottom, left, right := MarkCell(board, nx, ny, top, bottom, left, right);
      }
    }
  }

  /** One row of the scanned square (offset dy): mark the admitted cells that lie on the board
      and add the edge cells among them to the four edge sets. */
  method StampRow(board: array2<int>, b: Blob, dy: int, top0: set<int>, bottom0: set<int>, left0: set<int>, right0: set<int>)
    returns (top: set<int>, bottom: set<int>, left: set<int>, right: set<int>)
    requires -(b.size as int) <= dy <= b.size
    modifies board
    ensures forall y, x :: 0 <= y < board.Length0 && 0 <= x < board.Length1 ==>
      board[y, x] == if Covers(b, x, y) && y - b.y == dy then Wall else old(board[y, x])
    ensures forall x :: x in top <==> x in top0 || (0 <= x < board.Length1 && 0 < board.Length0 && Covers(b, x, 0) && 0 - b.y == dy)
    ensures forall x :: x in bottom <==> x in bottom0 || (0 <= x < board.Length1 && 0 < board.Length0 && Covers(b, x, board.Length0 - 1) && board.Length0 - 1 - b.y == dy)
    ensures forall y :: y in left <==> y in left0 || (0 <= y < board.Length0 && 0 < board.Length1 && Covers(b, 0, y) && y - b.y == dy)
    ensures forall y :: y in right <==> y in right0 || (0 <= y < board.Length0 && 0 < board.Length1 && Covers(b, board.Length1 - 1, y) && y - b.y == dy)
  {
    var height, width := board.Length0, board.Length1;
    top, bottom, left, right := top0, bottom0, left0, right0;
    for dx := -(b.size as int) to b.size + 1
      invariant forall y, x :: 0 <= y < height && 0 <= x < width ==>
        board[y, x] == if Covers(b, x, y) && y - b.y == dy && x - b.x < dx then Wall else old(board[y, x])
      invariant forall x :: x in top <==> x in top0 || (0 <= x < width && 0 < height && Covers(b, x, 0) && 0 - b.y == dy && x - b.x < dx)
      invariant forall x :: x in bottom <==> x in bottom0 || (0 <= x < width && 0 < height && Covers(b, x, height - 1) && height - 1 - b.y == dy && x - b.x < dx)
      invariant forall y :: y in left <==> y in left0 || (0 <= y < height && 0 < width && Covers(b, 0, y) && y - b.y == dy && 0 - b.x < dx)
      invariant forall y :: y in right <==> y in right0 || (0 <= y < height && 0 < width && Covers(b, width - 1, y) && y - b.y == dy && width - 1 - b.x < dx)
    {
      top, bottom, left, right := StampOffset(board, b, dx, dy, top, bottom, left, right);
    }
  }

  /** Lines 696-713: mark one blob, and collect which cells of each edge it marked. */
  method StampBlob(board: array2<int>, b: Blob, top0: set<int>, bottom0: set<int>, left0: set<int>, right0: set<int>)
    returns (top: set<int>, bottom: set<int>, left: set<int>, right: set<int>)
    modifies board
    ensures forall y, x :: 0 <= y < board.Length0 && 0 <= x < board.Length1 ==>
      board[y, x] == if Covers(b, x, y) then Wall else old(board[y, x])
    ensures forall x :: x in top <==> x in top0 || (0 <= x < board.Length1 && 0 < board.Length0 && Covers(b, x, 0))
    ensures forall x :: x in bottom <==> x in bottom0 || (0 <= x < board.Length1 && 0 < board.Length0 && Covers(b, x, board.Length0 - 1))
    ensures forall y :: y in left <==> y in left0 || (0 <= y < board.Length0 && 0 < board.Length1 && Covers(b, 0, y))
    ensures forall y :: y in right <==> y in right0 || (0 <= y < board.Length0 && 0 < board.Length1 && Covers(b, board.Length1 - 1, y))
  {
    var height, width := board.Length0, board.Length1;
    top, bottom, left, right := top0, bottom0, left0, right0;
    for dy := -(b.size as int) to b.size + 1
      invariant forall y, x :: 0 <= y < height && 0 <= x < width ==>
        board[y, x] == if Covers(b, x, y) && y - b.y < dy then Wall else old(board[y, x])
      invariant forall x :: x in top <==> x in top0 || (0 <= x < width && 0 < height && Covers(b, x, 0) && 0 - b.y < dy)
      invariant forall x :: x in bottom <==> x in bottom0 || (0 <= x < width && 0 < height && Covers(b, x, height - 1) && height - 1 - b.y < dy)
      invariant forall y :: y in left <==> y in left0 || (0 <= y < height && 0 < width && Covers(b, 0, y) && y - b.y < dy)
      invariant forall y :: y in right <==> y in right0 || (0 <= y < height && 0 < width && Covers(b, width - 1, y) && y - b.y < dy)
    {
      top, bottom, left, right := StampRow(board, b, dy, top, bottom, left, right);
    }
  }

  /** Blobs: mark every blob, then mirror each marked edge cell onto the opposite edge. */
  method Blobs(board: array2<int>, blobs: seq<Blob>)
    requires board.Length0 >= 1 && board.Length1 >= 1
    modifies board
    ensures forall y, x :: 0 <= y < board.Length0 && 0 <= x < board.Length1 ==>
      board[y, x] == if BlobWall(blobs, board.Length1, board.Length0, x, y) then Wall else old(board[y, x])
    ensures forall x :: 0 < x < board.Length1 - 1 && old(board[0, x]) == old(board[board.Length0 - 1, x]) ==>
      board[0, x] == board[board.Length0 - 1, x]
    ensures forall y :: 0 < y < board.Length0 - 1 && old(board[y, 0]) == old(board[y, board.Length1 - 1]) ==>
      board[y, 0] == board[y, board.Length1 - 1]
  {
    var height, width := board.Length0, board.Length1;
    var top: set<int>, bottom: set<int>, left: set<int>, right: set<int> := {}, {}, {}, {};
    for k := 0 to |blobs|
      invariant forall y, x :: 0 <= y < height && 0 <= x < width ==>
        board[y, x] == if Stamped(blobs[..k], x, y) then Wall else old(board[y, x])
      invariant forall x :: x in top <==> 0 <= x < width && Stamped(blobs[..k], x, 0)
      invariant forall x :: x in bottom <==> 0 <= x < width && Stamped(blobs[..k], x, height - 1)
      invariant forall y :: y in left <==> 0 <= y < height && Stamped(blobs[..k], 0, y)
      invariant forall y :: y in right <==> 0 <= y < height && Stamped(blobs[..k], width - 1, y)
    {
      assert blobs[..k + 1][..k] == blobs[..k];
      top, bottom, left, right := StampBlob(board, blobs[k], top, bottom, left, right);
    }
    assert blobs[..|blobs|] == blobs;
    for x := 0 to width
      invariant forall r, c :: 0 <= r < height && 0 <= c < width ==>
        board[r, c] ==
          if || Stamped(blobs, c, r)
             || (c < x && (r == 0 || r == height - 1) && (Stamped(blobs, c, 0) || Stamped(blobs, c, height - 1)))
          then Wall else old(board[r, c])
    {
      if x in top {
        board[height - 1, x] := Wall;
      } else if x in bottom {
        board[0, x] := Wall;
      }
    }
    for y := 0 to height
      invariant forall r, c :: 0 <= r < height && 0 <= c < width ==>
        board[r, c] ==
          if || Stamped(blobs, c, r)
             || ((r == 0 || r == height - 1) && (Stamped(blobs, c, 0) || Stamped(blobs, c, height - 1)))
             || (r < y && (c == 0 || c == width - 1) && (Stamped(blobs, 0, r) || Stamped(blobs, width - 1, r)))
          then Wall else old(board[r, c])
    {
      if y in left {
        board[y, width - 1] := Wall;
      } else if y in right {
        board[y, 0] := Wall;
      }
    }
  }
}
