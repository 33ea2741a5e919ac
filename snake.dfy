/** Snake: a discrete state machine on a 20 x 20 grid. The component keeps
    its state in refs and React state that its handlers overwrite in place;
    here they are the fields of one `SnakeGame` object. Random food draws
    are parameters. */
module Snake {
  import opened Seqs

  const GridSize := 20
  /** Points per food eaten. */
  const FoodPoints := 10

  datatype Direction = Up | Down | Left | Right

  datatype Pos = Pos(x: int, y: int)

  /** The keys the handlers react to. */
  datatype Key = Arrow(dir: Direction) | Space | OtherKey

  function Opposite(d: Direction): (o: Direction)
    ensures o != d
  {
    match d
    case Up => Down
    case Down => Up
    case Left => Right
    case Right => Left
  }

  function Abs(n: int): nat {
    if n < 0 then -n else n
  }

  /** The cell next to `p` in direction `d`; y grows downwards. */
  function Advance(p: Pos, d: Direction): (q: Pos)
    ensures Abs(q.x - p.x) + Abs(q.y - p.y) == 1
    ensures d == Up || d == Down <==> q.x == p.x
    ensures d == Down || d == Right <==> q.x + q.y > p.x + p.y
  {
    match d
    case Up => Pos(p.x, p.y - 1)
    case Down => Pos(p.x, p.y + 1)
    case Left => Pos(p.x - 1, p.y)
    case Right => Pos(p.x + 1, p.y)
  }

  /** Going back the opposite way undoes a move, and reversing twice is no change. */
  lemma ReverseUndoes(p: Pos, d: Direction)
    ensures Advance(Advance(p, d), Opposite(d)) == p
    ensures Opposite(Opposite(d)) == d
  {
  }

  predicate InGrid(p: Pos) {
    0 <= p.x < GridSize && 0 <= p.y < GridSize
  }

  predicate AllInGrid(s: seq<Pos>) {
    forall i :: 0 <= i < |s| ==> InGrid(s[i])
  }

  predicate NoRepeats(s: seq<Pos>) {
    forall i, j :: 0 <= i < j < |s| ==> s[i] != s[j]
  }

  /** The arrow rule of both key handlers: a pressed direction replaces the
      queued one unless it reverses the direction of the last step. */
  function Turn(current: Direction, queued: Direction, pressed: Direction): (r: Direction)
    ensures r == pressed || r == queued
    ensures pressed != Opposite(current) ==> r == pressed
    ensures queued != Opposite(current) ==> r != Opposite(current)
  {
    if pressed != Opposite(current) then pressed else queued
  }

  /** The snake `initGame` lays down: head at the centre, body trailing left. */
  function StartSnake(): (s: seq<Pos>)
    ensures |s| == 3 && s[0] == Pos(GridSize / 2, GridSize / 2)
    ensures AllInGrid(s) && NoRepeats(s)
    ensures forall i :: 0 < i < |s| ==> s[i - 1] == Advance(s[i], Right)
  {
    [Pos(10, 10), Pos(9, 10), Pos(8, 10)]
  }

  /** The step ends the game: the new head is off the grid or on a segment of
      the snake other than its current head. */
  predicate Crashes(snake: seq<Pos>, head: Pos)
    requires |snake| >= 1
  {
    !InGrid(head) || head in snake[1..]
  }

  /** Some draw lands on a free cell, so the retry loop of `generateFood` ends. */
  predicate HasFreeDraw(draws: seq<Pos>, occupied: seq<Pos>) {
    exists i :: 0 <= i < |draws| && draws[i] !in occupied
  }

  /** `generateFood`'s retries: the index of the first draw that is not on
      `occupied`. */
  function FirstFreeIndex(draws: seq<Pos>, occupied: seq<Pos>): (k: nat)
    requires HasFreeDraw(draws, occupied)
    ensures k < |draws| && draws[k] !in occupied
    ensures forall j :: 0 <= j < k ==> draws[j] in occupied
  {
    if draws[0] !in occupied then 0
    else
      assert HasFreeDraw(draws[1..], occupied) by {
        var i :| 0 <= i < |draws| && draws[i] !in occupied;
        assert draws[1..][i - 1] == draws[i];
      }
      1 + FirstFreeIndex(draws[1..], occupied)
  }

  /** Lines 284-292 as written: on an eating step the new food is drawn against
      the snake from before the move, because `snakeRef.current` is replaced
      only after `generateFood` returns. */
  function FoodAfterEatingAsWritten(snake: seq<Pos>, draws: seq<Pos>): (food: Pos)
    requires HasFreeDraw(draws, snake)
    ensures food !in snake
  {
    draws[FirstFreeIndex(draws, snake)]
  }

  /** The stale check lets the new food land under the head that just ate:
      from the start position with food right of the head, a first draw on
      the eaten cell is accepted, and that cell is the new head. */
  lemma StaleFoodCheckCounterexample()
    ensures var snake := StartSnake();
      var head := Advance(snake[0], Right);
      HasFreeDraw([head], snake) && FoodAfterEatingAsWritten(snake, [head]) in [head] + snake
  {
    var snake := StartSnake();
    var head := Advance(snake[0], Right);
    assert head == Pos(11, 10);
    assert [head][0] !in snake;
  }

  lemma ConsKeepsNoRepeats(h: Pos, s: seq<Pos>)
    requires NoRepeats(s) && h !in s
    ensures NoRepeats([h] + s)
  {
  }

  class SnakeGame {
    var snake: seq<Pos>
    var food: Pos
    var direction: Direction
    var nextDirection: Direction
    var score: int
    var highScore: int
    var isPlaying: bool
    var gameOver: bool

    /** The snake is a non-empty chain of distinct cells on the grid, the food
        is on a free cell of the grid, and the queued direction never reverses
        the current one. */
    ghost predicate Valid()
      reads this
    {
      && |snake| >= 1
      && AllInGrid(snake)
      && NoRepeats(snake)
      && InGrid(food)
      && food !in snake
      && nextDirection != Opposite(direction)
    }

    /** Mount: a fresh component followed by `initGame`. */
    constructor (draws: seq<Pos>)
      requires AllInGrid(draws) && HasFreeDraw(draws, StartSnake())
      ensures Valid()
      ensures snake == StartSnake() && food == draws[FirstFreeIndex(draws, StartSnake())]
      ensures direction == Right && nextDirection == Right
      ensures score == 0 && highScore == 0 && !isPlaying && !gameOver
    {
      snake := StartSnake();
      food := draws[FirstFreeIndex(draws, StartSnake())];
      direction, nextDirection := Right, Right;
      score, highScore := 0, 0;
      isPlaying, gameOver := false, false;
    }

    /** `generateFood`: draw cells until one is off the snake. */
    method GenerateFood(draws: seq<Pos>)
      requires HasFreeDraw(draws, snake)
      modifies this`food
      ensures food == draws[FirstFreeIndex(draws, snake)]
    {
      var k := FirstFreeIndex(draws, snake);
      var i := 0;
      while draws[i] in snake
        invariant 0 <= i <= k
        decreases k - i
      {
        i := i + 1;
      }
      food := draws[i];
    }

    /** `initGame`: the start snake heading right, fresh food, score zero. */
    method InitGame(draws: seq<Pos>)
      requires AllInGrid(draws) && HasFreeDraw(draws, StartSnake())
      modifies this
      ensures Valid()
      ensures snake == StartSnake() && food == draws[FirstFreeIndex(draws, StartSnake())]
      ensures direction == Right && nextDirection == Right
      ensures score == 0 && !gameOver
      ensures highScore == old(highScore) && isPlaying == old(isPlaying)
    {
      snake := StartSnake();
      GenerateFood(draws);
      direction := Right;
      nextDirection := Right;
      score := 0;
      gameOver := false;
    }

    /** `startGame`: `initGame`, then play. */
    method StartGame(draws: seq<Pos>)
      requires AllInGrid(draws) && HasFreeDraw(draws, StartSnake())
      modifies this
      ensures Valid()
      ensures snake == StartSnake() && food == draws[FirstFreeIndex(draws, StartSnake())]
      ensures direction == Right && nextDirection == Right
      ensures score == 0 && isPlaying && !gameOver && highScore == old(highScore)
    {
      InitGame(draws);
      isPlaying := true;
      gameOver := false;
    }

    /** A key press, as both registered handlers see it: space starts a game
        when none is running; an arrow queues a turn unless it reverses the
        current direction. */
    method KeyDown(key: Key, draws: seq<Pos>)
      requires Valid()
      requires key == Space && !isPlaying ==> AllInGrid(draws) && HasFreeDraw(draws, StartSnake())
      modifies this
      ensures Valid()
      ensures key.Arrow? ==>
        (&& nextDirection == Turn(old(direction), old(nextDirection), key.dir)
         && snake == old(snake) && food == old(food) && direction == old(direction)
         && score == old(score) && highScore == old(highScore)
         && isPlaying == old(isPlaying) && gameOver == old(gameOver))
      ensures key == Space && !old(isPlaying) ==>
        (&& snake == StartSnake() && food == draws[FirstFreeIndex(draws, StartSnake())]
         && direction == Right && nextDirection == Right
         && score == 0 && highScore == old(highScore) && isPlaying && !gameOver)
      ensures key == OtherKey || (key == Space && old(isPlaying)) ==>
        (&& snake == old(snake) && food == old(food)
         && direction == old(direction) && nextDirection == old(nextDirection)
         && score == old(score) && highScore == old(highScore)
         && isPlaying == old(isPlaying) && gameOver == old(gameOver))
    {
      if key == Space && !isPlaying {
        StartGame(draws);
      } else if key.Arrow? {
        nextDirection := Turn(direction, nextDirection, key.dir);
      }
    }

    /** `gameStep`, one 100 ms tick of a running game. On a crash nothing but
        the flags and the high score change; otherwise the head advances one
        cell, growing the snake by one and scoring 10 when it reaches the food,
        and dropping the tail when it does not. Unlike lines 284-292, the new
        food is drawn against the snake after the move. */
    method Step(draws: seq<Pos>)
      requires Valid() && isPlaying
      requires AllInGrid(draws)
      requires Advance(snake[0], nextDirection) == food ==>
        HasFreeDraw(draws, [Advance(snake[0], nextDirection)] + snake)
      modifies this
      ensures Valid()
      ensures direction == old(nextDirection) && nextDirection == old(nextDirection)
      ensures var head := Advance(old(snake)[0], old(nextDirection));
        if Crashes(old(snake), head) then
          && snake == old(snake) && food == old(food) && score == old(score)
          && gameOver && !isPlaying && highScore == Max(old(highScore), old(score))
        else
          && isPlaying == old(isPlaying) && gameOver == old(gameOver) && highScore == old(highScore)
          && snake[0] == head
          && (if head == old(food) then
                && snake == [head] + old(snake)
                && score == old(score) + FoodPoints
                && food == draws[FirstFreeIndex(draws, snake)]
              else
                && snake == [head] + old(snake)[..|old(snake)| - 1]
                && score == old(score) && food == old(food))
    {
      direction := nextDirection;
      var head := Advance(snake[0], direction);
      if Crashes(snake, head) {
        gameOver := true;
        isPlaying := false;
        highScore := Max(highScore, score);
        return;
      }
      assert head != snake[0] && head !in snake[1..];
      assert snake == [snake[0]] + snake[1..];
      ConsKeepsNoRepeats(head, snake);
      var newSnake := [head] + snake;
      if head == food {
        score := score + FoodPoints;
        snake := newSnake;
        GenerateFood(draws);
      } else {
        newSnake := newSnake[..|newSnake| - 1];
        assert newSnake == [head] + snake[..|snake| - 1];
        snake := newSnake;
      }
    }
  }
}
