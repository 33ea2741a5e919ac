/** Bubble Tap: the difficulty curve (four functions of the current score)
    and the construction of a freshly spawned bubble. Every random draw is a
    parameter in [0, 1), as `Math.random()` returns. */
module BubbleCurve {
  import opened Seqs

  datatype BubbleKind = Normal | Bonus | Bomb

  /** A bubble; `color` is rendering only and is not kept. */
  datatype Bubble = Bubble(id: string, x: real, y: real, size: real, speed: real,
                           kind: BubbleKind, points: int)

  /** Probability of a bonus bubble, on top of the bomb probability. */
  const BonusChance: real := 0.08

  /** Rising speed in pixels per physics tick: 2 plus one per 100 points, at most 7.
      (`Math.floor(score / 100)` equals Dafny's `/` for a positive divisor.) */
  function BubbleSpeed(score: int): (r: int)
    ensures r <= 7
    ensures score >= 0 ==> 2 <= r
    ensures score >= 500 ==> r == 7
  {
    Min(2 + score / 100, 7)
  }

  /** Milliseconds between spawn attempts: 1000 minus 70 per 50 points, at least 350. */
  function SpawnInterval(score: int): (r: int)
    ensures r >= 350
    ensures score >= 0 ==> r <= 1000
    ensures score >= 500 ==> r == 350
  {
    Max(1000 - (score / 50) * 70, 350)
  }

  /** Bomb probability: 0.08 plus one per mille per point, at most 0.25. */
  function BombChance(score: int): (r: real)
    ensures r <= 0.25
    ensures score >= 0 ==> 0.08 <= r
    ensures score >= 170 ==> r == 0.25
  {
    var c := 0.08 + score as real / 1000.0;
    if c <= 0.25 then c else 0.25
  }

  /** Base diameter in pixels: 60 minus 4 per 50 points, at least 18. */
  function BubbleSize(score: int): (r: int)
    ensures r >= 18
    ensures score >= 0 ==> r <= 60
    ensures score >= 550 ==> r == 18
  {
    Max(60 - (score / 50) * 4, 18)
  }

  /** All four curves move towards harder play as the score grows. */
  lemma DifficultyMonotone(s1: int, s2: int)
    requires s1 <= s2
    ensures BubbleSpeed(s1) <= BubbleSpeed(s2)
    ensures SpawnInterval(s1) >= SpawnInterval(s2)
    ensures BombChance(s1) <= BombChance(s2)
    ensures BubbleSize(s1) >= BubbleSize(s2)
  {
    assert s1 / 100 <= s2 / 100;
    assert s1 / 50 <= s2 / 50;
  }

  /** The kind of a new bubble from one draw: bomb below the bomb chance,
      bonus in the next 0.08, normal otherwise. */
  function ChooseKind(score: int, draw: real): (k: BubbleKind)
    ensures k == Bomb <==> draw < BombChance(score)
    ensures k == Bonus <==> BombChance(score) <= draw < BombChance(score) + BonusChance
  {
    if draw < BombChance(score) then Bomb
    else if draw < BombChance(score) + BonusChance then Bonus
    else Normal
  }

  /** Whatever the score, every kind stays possible: a draw below 0.08 is a
      bomb and a draw of 0.33 or more is a normal bubble. */
  lemma {:induction false} EveryKindPossible(score: int, draw: real)
    requires score >= 0
    ensures draw < 0.08 ==> ChooseKind(score, draw) == Bomb
    ensures draw >= 0.33 ==> ChooseKind(score, draw) == Normal
  {
  }

  /** The four random draws `createBubble` consumes (the color draw is not kept). */
  datatype SpawnDraws = SpawnDraws(size: real, kind: real, x: real, speed: real)
  {
    predicate Valid() {
      0.0 <= size < 1.0 && 0.0 <= kind < 1.0 && 0.0 <= x < 1.0 && 0.0 <= speed < 1.0
    }
  }

  /** Dimensions of the play area, read from the page. */
  datatype Area = Area(width: real, height: real)

  lemma MulNonneg(a: real, b: real)
    requires a >= 0.0 && b >= 0.0
    ensures a * b >= 0.0
  {
  }

  /** A draw in [0, 1) scaling the free width `width - size` places the left
      edge so that the whole bubble fits. */
  lemma ScaledDrawFits(draw: real, width: real, size: real)
    requires 0.0 <= draw < 1.0
    ensures width >= size ==> 0.0 <= draw * (width - size) && draw * (width - size) + size <= width
  {
    if width >= size {
      MulNonneg(1.0 - draw, width - size);
      MulNonneg(draw, width - size);
    }
  }

  /** `createBubble`: spawned at the bottom edge, with the size and speed of the
      curve jittered by the draws and a kind chosen by `ChooseKind`. */
  function CreateBubble(score: int, area: Area, id: string, d: SpawnDraws): (b: Bubble)
    requires d.Valid()
    ensures b.id == id && b.y == area.height && b.kind == ChooseKind(score, d.kind)
    ensures BubbleSize(score) as real - 5.0 <= b.size < BubbleSize(score) as real + 5.0
    ensures score >= 0 ==> 13.0 <= b.size < 65.0
    ensures BubbleSpeed(score) as real <= b.speed < BubbleSpeed(score) as real + 1.0
    ensures area.width >= b.size ==> 0.0 <= b.x && b.x + b.size <= area.width
    ensures b.points == match b.kind case Bonus => 5 case Bomb => -3 case Normal => 1
  {
    var size := BubbleSize(score) as real + d.size * 10.0 - 5.0;
    var kind := ChooseKind(score, d.kind);
    ScaledDrawFits(d.x, area.width, size);
    Bubble(id, d.x * (area.width - size), area.height, size,
           BubbleSpeed(score) as real + d.speed, kind,
           match kind case Bonus => 5 case Bomb => -3 case Normal => 1)
  }
}
