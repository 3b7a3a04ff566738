/** One tick of the snake: steering, the wrapped head, collisions and growth. */
module Movement {
  import opened Grid

  datatype Direction = Up | Down | Left | Right

  function Opposite(d: Direction): (o: Direction)
    ensures o != d
  {
    match d
    case Up => Down
    case Down => Up
    case Left => Right
    case Right => Left
  }

  /** The key handler: a requested direction is taken unless it reverses the current one. */
  function Steer(current: Direction, requested: Direction): (d: Direction)
    ensures d == requested <==> requested != Opposite(current)
    ensures d != requested ==> d == current
    ensures d != Opposite(current)
  {
    match requested
    case Up => if current != Down then Up else current
    case Down => if current != Up then Down else current
    case Left => if current != Right then Left else current
    case Right => if current != Left then Right else current
  }

  function DeltaX(d: Direction): int
  {
    match d
    case Left => -1
    case Right => 1
    case _ => 0
  }

  function DeltaY(d: Direction): int
  {
    match d
    case Up => -1
    case Down => 1
    case _ => 0
  }

  /** The two wrap-around tests of the move, applied one after the other to one coordinate. */
  function Wrap(v: int, n: int): int
  {
    var low := if v < 0 then n - 1 else v;
    if low >= n then 0 else low
  }

  /** On one step off the board the two wrap tests give the remainder modulo the board size. */
  lemma WrapIsMod(v: int, n: int)
    requires n >= 1
    ensures -1 <= v <= n ==> Wrap(v, n) == v % n
  {
    if v == -1 {
      assert (-1) % n == n - 1;
    } else if v == n {
      assert n % n == 0;
    } else if 0 <= v < n {
      assert v % n == v;
    }
  }

  /** The head one cell further in direction d, wrapped toroidally. */
  function NextHead(head: Pos, d: Direction, width: int, height: int): (p: Pos)
    requires width >= 1 && height >= 1
    ensures 0 <= head.x < width && 0 <= head.y < height ==>
      && 0 <= p.x < width && 0 <= p.y < height
      && p == Pos((head.x + DeltaX(d)) % width, (head.y + DeltaY(d)) % height)
  {
    WrapIsMod(head.x + DeltaX(d), width);
    WrapIsMod(head.y + DeltaY(d), height);
    Pos(Wrap(head.x + DeltaX(d), width), Wrap(head.y + DeltaY(d), height))
  }

  /** Leaving the board on one side re-enters it on the opposite side. */
  lemma WrapAtEdges(width: int, height: int, x: int, y: int)
    requires width >= 1 && height >= 1 && 0 <= x < width && 0 <= y < height
    ensures NextHead(Pos(width - 1, y), Right, width, height) == Pos(0, y)
    ensures NextHead(Pos(0, y), Left, width, height) == Pos(width - 1, y)
    ensures NextHead(Pos(x, height - 1), Down, width, height) == Pos(x, 0)
    ensures NextHead(Pos(x, 0), Up, width, height) == Pos(x, height - 1)
  {
  }

  /** The collision test of the move: the cell is on the board and holds a wall or an obstacle. */
  predicate Blocked(board: array2<int>, p: Pos)
    reads board
  {
    OnBoard(board, p) && (board[p.y, p.x] == Wall || board[p.y, p.x] == Obstacle)
  }

  predicate Distinct(s: seq<Pos>)
  {
    forall i, j :: 0 <= i < j < |s| ==> s[i] != s[j]
  }

  /** What the game keeps true while it runs: no two segments share a cell, each on an empty cell. */
  ghost predicate SnakeOnEmpty(board: array2<int>, snake: seq<Pos>)
    reads board
  {
    && Distinct(snake)
    && forall i :: 0 <= i < |snake| ==> OnBoard(board, snake[i]) && board[snake[i].y, snake[i].x] == Empty
  }

  /** Outcome of one tick: the grown snake and new score, or the end of the round with the
      snake and score as they were before the tick. */
  datatype StepResult = Grown(snake: seq<Pos>, score: int) | GameOver(snake: seq<Pos>, score: int)

  /** One tick of the move loop. */
  method Step(board: array2<int>, snake: seq<Pos>, d: Direction, score: int) returns (r: StepResult)
    requires board.Length0 >= 1 && board.Length1 >= 1
    requires |snake| >= 1
    ensures var head := NextHead(snake[0], d, board.Length1, board.Length0);
      && (r.GameOver? <==> Blocked(board, head) || head in snake)
      && (r.GameOver? ==> r.snake == snake && r.score == score)
      && (r.Grown? ==> r.snake == [head] + snake && r.score == score + 1)
    ensures r.Grown? ==> |r.snake| == |snake| + 1
    ensures CellsValid(board) && SnakeOnEmpty(board, snake) && r.Grown? ==> SnakeOnEmpty(board, r.snake)
  {
    var head := NextHead(snake[0], d, board.Length1, board.Length0);
    if Blocked(board, head) {
      return GameOver(snake, score);
    }
    var i := 0;
    while i < |snake|
      invariant 0 <= i <= |snake|
      invariant head !in snake[..i]
    {
      if head == snake[i] {
        return GameOver(snake, score);
      }
      i := i + 1;
    }
    assert snake[..i] == snake;
    r := Grown([head] + snake, score + 1);
  }

  /** The starting snake: the centre cell when it is empty, otherwise the empty cell that the
      random search supplied. */
  function Spawn(board: array2<int>, found: Pos): (snake: seq<Pos>)
    reads board
    requires board.Length0 >= 1 && board.Length1 >= 1
    requires OnBoard(board, found) && board[found.y, found.x] == Empty
    ensures |snake| == 1 && SnakeOnEmpty(board, snake)
    ensures board[board.Length0 / 2, board.Length1 / 2] == Empty ==>
      snake[0] == Pos(board.Length1 / 2, board.Length0 / 2)
  {
    var centre := Pos(board.Length1 / 2, board.Length0 / 2);
    if board[centre.y, centre.x] != Empty then [found] else [centre]
  }

  /** The empty cells of the board, the denominator of the fill percentage. */
  ghost function EmptyCells(board: array2<int>): set<Pos>
    reads board
  {
    set y, x | 0 <= y < board.Length0 && 0 <= x < board.Length1 && board[y, x] == Empty :: Pos(x, y)
  }

  /** The empty cells that a row-major scan has passed before reaching (x, y). */
  ghost function EmptyBefore(board: array2<int>, y: int, x: int): set<Pos>
    reads board
  {
    set p | p in EmptyCells(board) && (p.y < y || (p.y == y && p.x < x))
  }

  /** The counting loop of the fill percentage. */
  method CountEmpty(board: array2<int>) returns (n: nat)
    ensures n == |EmptyCells(board)|
  {
    n := 0;
    var y := 0;
    while y < board.Length0
      invariant 0 <= y <= board.Length0
      invariant n == |EmptyBefore(board, y, 0)|
    {
      var x := 0;
      while x < board.Length1
        invariant 0 <= x <= board.Length1
        invariant n == |EmptyBefore(board, y, x)|
      {
        if board[y, x] == Empty {
          assert EmptyBefore(board, y, x + 1) == EmptyBefore(board, y, x) + {Pos(x, y)};
          n := n + 1;
        } else {
          assert EmptyBefore(board, y, x + 1) == EmptyBefore(board, y, x);
        }
        x := x + 1;
      }
      assert EmptyBefore(board, y, board.Length1) == EmptyBefore(board, y + 1, 0);
      y := y + 1;
    }
    assert EmptyBefore(board, board.Length0, 0) == EmptyCells(board);
  }

  lemma {:induction false} DistinctCardinality(s: seq<Pos>)
    requires Distinct(s)
    ensures |(set p | p in s)| == |s|
  {
    if s != [] {
      DistinctCardinality(s[1..]);
      assert (set p | p in s) == {s[0]} + (set p | p in s[1..]);
    }
  }

  lemma {:induction false} SubsetCardinality(a: set<Pos>, b: set<Pos>)
    requires a <= b
    ensures |a| <= |b|
  {
    if a != {} {
      var p :| p in a;
      SubsetCardinality(a - {p}, b - {p});
    }
  }

  /** The fill percentage never exceeds 100: a snake kept on distinct empty cells is no longer
      than the number of empty cells. */
  lemma FillAtMostFull(board: array2<int>, snake: seq<Pos>)
    requires SnakeOnEmpty(board, snake)
    ensures |snake| <= |EmptyCells(board)|
  {
    DistinctCardinality(snake);
    forall p | p in snake ensures p in EmptyCells(board) {
      var i :| 0 <= i < |snake| && snake[i] == p;
      assert board[p.y, p.x] == Empty;
    }
    SubsetCardinality((set p | p in snake), EmptyCells(board));
  }

  /** The direction in effect after several key presses between two ticks, as the handler
      computes it: each press is judged against the direction the previous press left. */
  function SteerKeys(current: Direction, keys: seq<Direction>): (d: Direction)
    ensures d == current || d in keys
    decreases |keys|
  {
    if keys == [] then current else SteerKeys(Steer(current, keys[0]), keys[1..])
  }

  /** The last press is judged against the direction the earlier presses left. */
  lemma {:induction false} SteerKeysLast(current: Direction, keys: seq<Direction>)
    requires keys != []
    ensures SteerKeys(current, keys) == Steer(SteerKeys(current, keys[..|keys| - 1]), keys[|keys| - 1])
    decreases |keys|
  {
    if |keys| > 1 {
      SteerKeysLast(Steer(current, keys[0]), keys[1..]);
      assert keys[1..][..|keys| - 2] == keys[..|keys| - 1][1..];
    }
  }

  /** Two presses within one tick reverse the snake: moving right, up then left gives left. */
  lemma TwoPressesReverse()
    ensures SteerKeys(Right, [Up, Left]) == Opposite(Right)
  {
  }

  /** Key presses judged against the direction of the last move, kept as a pending direction
      that the next tick consumes. */
  function SteerPending(moved: Direction, pending: Direction, keys: seq<Direction>): (d: Direction)
    requires pending != Opposite(moved)
    ensures d != Opposite(moved)
    ensures d == pending || d in keys
    ensures keys != [] && keys[|keys| - 1] != Opposite(moved) ==> d == keys[|keys| - 1]
    decreases |keys|
  {
    if keys == [] then pending
    else SteerPending(moved, if keys[0] != Opposite(moved) then keys[0] else pending, keys[1..])
  }

  /** A last press that reverses the last move is rejected: the direction the earlier presses
      left stays pending. */
  lemma {:induction false} SteerPendingLast(moved: Direction, pending: Direction, keys: seq<Direction>)
    requires pending != Opposite(moved) && keys != []
    ensures keys[|keys| - 1] == Opposite(moved) ==>
      SteerPending(moved, pending, keys) == SteerPending(moved, pending, keys[..|keys| - 1])
    decreases |keys|
  {
    if |keys| > 1 {
      SteerPendingLast(moved, if keys[0] != Opposite(moved) then keys[0] else pending, keys[1..]);
      assert keys[1..][..|keys| - 2] == keys[..|keys| - 1][1..];
    }
  }

  /** One tick as written, with the key presses that arrived since the previous tick: each
      press is judged against the direction the previous press left, so the last press never
      reverses that direction, though it may reverse the last move. */
  method Tick(board: array2<int>, snake: seq<Pos>, moved: Direction, keys: seq<Direction>, score: int)
    returns (d: Direction, r: StepResult)
    requires board.Length0 >= 1 && board.Length1 >= 1
    requires |snake| >= 1
    ensures d == moved || d in keys
    ensures keys != [] ==> d != Opposite(SteerKeys(moved, keys[..|keys| - 1]))
    ensures keys != [] && keys[|keys| - 1] != Opposite(SteerKeys(moved, keys[..|keys| - 1])) ==> d == keys[|keys| - 1]
    ensures keys != [] && keys[|keys| - 1] == Opposite(SteerKeys(moved, keys[..|keys| - 1])) ==>
      d == SteerKeys(moved, keys[..|keys| - 1])
    ensures var head := NextHead(snake[0], d, board.Length1, board.Length0);
      && (r.GameOver? <==> Blocked(board, head) || head in snake)
      && (r.GameOver? ==> r.snake == snake && r.score == score)
      && (r.Grown? ==> r.snake == [head] + snake && r.score == score + 1)
  {
    d := SteerKeys(moved, keys);
    if keys != [] {
      SteerKeysLast(moved, keys);
    }
    r := Step(board, snake, d, score);
  }

  /** One tick with the corrected steering: the presses are judged against the last move, so the
      direction of the tick never reverses it. */
  method TickPending(board: array2<int>, snake: seq<Pos>, moved: Direction, keys: seq<Direction>, score: int)
    returns (d: Direction, r: StepResult)
    requires board.Length0 >= 1 && board.Length1 >= 1
    requires |snake| >= 1
    ensures d != Opposite(moved) && (d == moved || d in keys)
    ensures keys != [] && keys[|keys| - 1] != Opposite(moved) ==> d == keys[|keys| - 1]
    ensures keys != [] && keys[|keys| - 1] == Opposite(moved) ==> d == SteerPending(moved, moved, keys[..|keys| - 1])
    ensures var head := NextHead(snake[0], d, board.Length1, board.Length0);
      && (r.GameOver? <==> Blocked(board, head) || head in snake)
      && (r.GameOver? ==> r.snake == snake && r.score == score)
      && (r.Grown? ==> r.snake == [head] + snake && r.score == score + 1)
  {
    d := SteerPending(moved, moved, keys);
    if keys != [] {
      SteerPendingLast(moved, moved, keys);
    }
    r := Step(board, snake, d, score);
  }
}
