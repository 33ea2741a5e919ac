/** Crypto Dodger: the falling objects and one pass of `handleObjectLogic`.
    The pass is a loop over the objects that moves each one, resolves a catch
    by the player's box and rebuilds the list of objects still falling; here
    it is the method `ResolveObjects`, specified by the function `Resolve`,
    whose consequences are the lemmas below. */
module DodgerTick {
  import opened Seqs

  const PlayerSize := 40
  const GameWidth := 300
  const GameHeight := 500
  /** Objects are 30 x 30 pixel boxes. */
  const ObjectSize := 30
  /** Points per caught coin. */
  const CoinPoints := 10

  datatype ObjectKind = Coin | Bomb | Freeze

  datatype FallingObject = FallingObject(id: string, x: real, y: real, speed: real, kind: ObjectKind)

  /** The three or four random draws `spawnObject` consumes, each in [0, 1). */
  datatype ObjectDraws = ObjectDraws(freeze: real, coin: real, x: real, speed: real)
  {
    predicate Valid() {
      0.0 <= freeze < 1.0 && 0.0 <= coin < 1.0 && 0.0 <= x < 1.0 && 0.0 <= speed < 1.0
    }
  }

  /** `spawnObject`: a freeze one time in ten, otherwise a coin 70% and a bomb
      30% of the time; it starts at the top edge, fully inside the field, and
      falls at 2 (freeze) or between 3 and 5 pixels per frame. */
  function SpawnObject(id: string, d: ObjectDraws): (o: FallingObject)
    requires d.Valid()
    ensures o.id == id && o.y == 0.0
    ensures o.kind == Freeze <==> d.freeze < 0.1
    ensures o.kind == Coin <==> d.freeze >= 0.1 && d.coin < 0.7
    ensures 0.0 <= o.x < (GameWidth - ObjectSize) as real
    ensures o.kind == Freeze ==> o.speed == 2.0
    ensures o.kind != Freeze ==> 3.0 <= o.speed < 5.0
  {
    var kind := if d.freeze < 0.1 then Freeze else if d.coin < 0.7 then Coin else Bomb;
    FallingObject(id, d.x * (GameWidth - ObjectSize) as real, 0.0,
                  if kind == Freeze then 2.0 else 3.0 + d.speed * 2.0, kind)
  }

  /** An object after one frame: it falls by its speed, or half of it while
      the freeze is active. */
  function Fall(o: FallingObject, freeze: bool): FallingObject {
    o.(y := o.y + (if freeze then o.speed / 2.0 else o.speed))
  }

  /** Under the freeze an object covers exactly half the distance, and a fall
      never moves an object up. */
  lemma FreezeHalvesFall(o: FallingObject)
    requires o.speed >= 0.0
    ensures Fall(o, true).y - o.y == (Fall(o, false).y - o.y) / 2.0
    ensures o.y <= Fall(o, true).y <= Fall(o, false).y
  {
  }

  /** The fallen object overlaps the player's box, which sits on the bottom
      edge with its left side at `playerX`. */
  predicate Caught(playerX: int, o: FallingObject) {
    && o.x < (playerX + PlayerSize) as real
    && o.x + ObjectSize as real > playerX as real
    && o.y + ObjectSize as real > (GameHeight - PlayerSize) as real
  }

  /** What the pass has built so far: the objects still falling, the running
      lives and score, whether a freeze was caught, and the score of each coin
      report sent, in order. */
  datatype TickResult = TickResult(objects: seq<FallingObject>, lives: int, score: int,
                                   freezeTriggered: bool, reports: seq<int>)

  /** One loop iteration applied to the accumulators. */
  function Absorb(acc: TickResult, o: FallingObject, freeze: bool, playerX: int): TickResult {
    var m := Fall(o, freeze);
    if Caught(playerX, m) then
      match o.kind
      case Coin => acc.(score := acc.score + CoinPoints, reports := acc.reports + [acc.score + CoinPoints])
      case Bomb => acc.(lives := Max(0, acc.lives - 1))
      case Freeze => acc.(freezeTriggered := true)
    else if m.y < GameHeight as real then acc.(objects := acc.objects + [m])
    else acc
  }

  /** The whole pass over `objects`, first to last. */
  function Resolve(objects: seq<FallingObject>, freeze: bool, playerX: int, lives: int, score: int): TickResult
  {
    if objects == [] then TickResult([], lives, score, false, [])
    else Absorb(Resolve(objects[..|objects| - 1], freeze, playerX, lives, score),
                objects[|objects| - 1], freeze, playerX)
  }

  /** Extending the prefix by one object is one more loop iteration. */
  lemma ResolveStep(objects: seq<FallingObject>, i: nat, freeze: bool, playerX: int, lives: int, score: int)
    requires i < |objects|
    ensures Resolve(objects[..i + 1], freeze, playerX, lives, score)
         == Absorb(Resolve(objects[..i], freeze, playerX, lives, score), objects[i], freeze, playerX)
  {
    assert objects[..i + 1][..i] == objects[..i];
  }

  /** The loop of `handleObjectLogic` (lines 69-94), without touching any state. */
  method ResolveObjects(objects: seq<FallingObject>, freeze: bool, playerX: int, lives: int, score: int)
    returns (r: TickResult)
    ensures r == Resolve(objects, freeze, playerX, lives, score)
  {
    var newObjects: seq<FallingObject> := [];
    var newLives := lives;
    var newScore := score;
    var freezeTriggered := false;
    var reports: seq<int> := [];
    for i := 0 to |objects|
      invariant TickResult(newObjects, newLives, newScore, freezeTriggered, reports)
                == Resolve(objects[..i], freeze, playerX, lives, score)
    {
      ResolveStep(objects, i, freeze, playerX, lives, score);
      var obj := objects[i];
      var newY := obj.y + (if freeze then obj.speed / 2.0 else obj.speed);
      var inXRange := obj.x < (playerX + PlayerSize) as real && obj.x + ObjectSize as real > playerX as real;
      var inYRange := newY + ObjectSize as real > (GameHeight - PlayerSize) as real;
      assert Fall(obj, freeze) == obj.(y := newY);
      assert Caught(playerX, Fall(obj, freeze)) == (inXRange && inYRange);
      if inXRange && inYRange {
        if obj.kind == Coin {
          newScore := newScore + CoinPoints;
          reports := reports + [newScore];
        } else if obj.kind == Bomb {
          newLives := Max(0, newLives - 1);
        } else {
          freezeTriggered := true;
        }
      } else if newY < GameHeight as real {
        newObjects := newObjects + [obj.(y := newY)];
      }
    }
    assert objects[..|objects|] == objects;
    r := TickResult(newObjects, newLives, newScore, freezeTriggered, reports);
  }

  // ------------------------------------------- independent descriptions

  function FallAll(objects: seq<FallingObject>, freeze: bool): (r: seq<FallingObject>)
    ensures |r| == |objects|
    ensures forall i :: 0 <= i < |objects| ==> r[i] == Fall(objects[i], freeze)
  {
    seq(|objects|, i requires 0 <= i < |objects| => Fall(objects[i], freeze))
  }

  /** Not caught and still above the bottom edge. */
  function StillFalling(playerX: int): FallingObject -> bool {
    (m: FallingObject) => !Caught(playerX, m) && m.y < GameHeight as real
  }

  function CaughtOf(playerX: int, kind: ObjectKind): FallingObject -> bool {
    (m: FallingObject) => Caught(playerX, m) && m.kind == kind
  }

  /** How many objects of `kind` the player catches this frame. */
  function Catches(objects: seq<FallingObject>, freeze: bool, playerX: int, kind: ObjectKind): nat {
    |Filter(FallAll(objects, freeze), CaughtOf(playerX, kind))|
  }

  lemma FallAllSnoc(objects: seq<FallingObject>, freeze: bool)
    requires objects != []
    ensures FallAll(objects, freeze)
         == FallAll(objects[..|objects| - 1], freeze) + [Fall(objects[|objects| - 1], freeze)]
  {
  }

  /** One iteration keeps the fallen object exactly when it is still falling. */
  lemma AbsorbObjects(acc: TickResult, o: FallingObject, freeze: bool, playerX: int)
    ensures Absorb(acc, o, freeze, playerX).objects
         == acc.objects + Filter([Fall(o, freeze)], StillFalling(playerX))
  {
  }

  /** One iteration raises the freeze flag exactly when it catches a freeze. */
  lemma AbsorbFreeze(acc: TickResult, o: FallingObject, freeze: bool, playerX: int)
    ensures Absorb(acc, o, freeze, playerX).freezeTriggered
        <==> acc.freezeTriggered || |Filter([Fall(o, freeze)], CaughtOf(playerX, Freeze))| > 0
  {
  }

  /** One iteration adds 10 points exactly when it catches a coin. */
  lemma AbsorbScore(acc: TickResult, o: FallingObject, freeze: bool, playerX: int)
    ensures Absorb(acc, o, freeze, playerX).score
         == acc.score + CoinPoints * |Filter([Fall(o, freeze)], CaughtOf(playerX, Coin))|
  {
  }

  /** One iteration takes a life, floored at zero, exactly when it catches a bomb. */
  lemma AbsorbLives(acc: TickResult, o: FallingObject, freeze: bool, playerX: int)
    ensures Absorb(acc, o, freeze, playerX).lives
         == if |Filter([Fall(o, freeze)], CaughtOf(playerX, Bomb))| > 0 then Max(0, acc.lives - 1) else acc.lives
  {
  }

  /** The objects kept by a pass are exactly the fallen objects that were
      neither caught nor past the bottom edge, in their original order. */
  lemma {:induction false} ResolveKeeps(objects: seq<FallingObject>, freeze: bool, playerX: int, lives: int, score: int)
    ensures Resolve(objects, freeze, playerX, lives, score).objects
         == Filter(FallAll(objects, freeze), StillFalling(playerX))
  {
    if objects != [] {
      var init := objects[..|objects| - 1];
      var last := objects[|objects| - 1];
      ResolveKeeps(init, freeze, playerX, lives, score);
      AbsorbObjects(Resolve(init, freeze, playerX, lives, score), last, freeze, playerX);
      FallAllSnoc(objects, freeze);
      FilterAppend(FallAll(init, freeze), [Fall(last, freeze)], StillFalling(playerX));
    }
  }

  /** A pass adds exactly 10 points per caught coin; the score never drops. */
  lemma {:induction false} ResolveScore(objects: seq<FallingObject>, freeze: bool, playerX: int, lives: int, score: int)
    ensures Resolve(objects, freeze, playerX, lives, score).score
         == score + CoinPoints * Catches(objects, freeze, playerX, Coin)
  {
    if objects != [] {
      var init := objects[..|objects| - 1];
      var last := objects[|objects| - 1];
      ResolveScore(init, freeze, playerX, lives, score);
      AbsorbScore(Resolve(init, freeze, playerX, lives, score), last, freeze, playerX);
      FallAllSnoc(objects, freeze);
      FilterAppend(FallAll(init, freeze), [Fall(last, freeze)], CaughtOf(playerX, Coin));
    }
  }

  /** A pass takes one life per caught bomb, floored at zero. */
  lemma {:induction false} ResolveLives(objects: seq<FallingObject>, freeze: bool, playerX: int, lives: int, score: int)
    requires lives >= 0
    ensures Resolve(objects, freeze, playerX, lives, score).lives
         == Max(0, lives - Catches(objects, freeze, playerX, Bomb))
  {
    if objects != [] {
      var init := objects[..|objects| - 1];
      var last := objects[|objects| - 1];
      ResolveLives(init, freeze, playerX, lives, score);
      AbsorbLives(Resolve(init, freeze, playerX, lives, score), last, freeze, playerX);
      FallAllSnoc(objects, freeze);
      FilterAppend(FallAll(init, freeze), [Fall(last, freeze)], CaughtOf(playerX, Bomb));
    }
  }

  /** A pass reports a freeze exactly when some freeze object is caught. */
  lemma {:induction false} ResolveFreeze(objects: seq<FallingObject>, freeze: bool, playerX: int, lives: int, score: int)
    ensures Resolve(objects, freeze, playerX, lives, score).freezeTriggered
        <==> Catches(objects, freeze, playerX, Freeze) > 0
  {
    if objects != [] {
      var init := objects[..|objects| - 1];
      var last := objects[|objects| - 1];
      ResolveFreeze(init, freeze, playerX, lives, score);
      AbsorbFreeze(Resolve(init, freeze, playerX, lives, score), last, freeze, playerX);
      FallAllSnoc(objects, freeze);
      FilterAppend(FallAll(init, freeze), [Fall(last, freeze)], CaughtOf(playerX, Freeze));
    }
  }

  /** The k-th report of a pass carries the score right after the k-th
      caught coin, and the final score counts 10 per report. */
  lemma {:induction false} ReportsRunningScore(objects: seq<FallingObject>, freeze: bool, playerX: int, lives: int, score: int)
    ensures var r := Resolve(objects, freeze, playerX, lives, score);
      && r.score == score + CoinPoints * |r.reports|
      && (forall k :: 0 <= k < |r.reports| ==> r.reports[k] == score + CoinPoints * (k + 1))
  {
    if objects != [] {
      ReportsRunningScore(objects[..|objects| - 1], freeze, playerX, lives, score);
    }
  }

  /** One report per caught coin, the k-th carrying the score right after
      that coin, the last one the final score. */
  lemma ResolveReports(objects: seq<FallingObject>, freeze: bool, playerX: int, lives: int, score: int)
    ensures var r := Resolve(objects, freeze, playerX, lives, score);
      && |r.reports| == Catches(objects, freeze, playerX, Coin)
      && (forall k :: 0 <= k < |r.reports| ==> r.reports[k] == score + CoinPoints * (k + 1))
      && (r.reports != [] ==> r.reports[|r.reports| - 1] == r.score)
  {
    ReportsRunningScore(objects, freeze, playerX, lives, score);
    ResolveScore(objects, freeze, playerX, lives, score);
  }

  /** The reports of a pass carry strictly increasing scores. */
  lemma ReportsIncrease(objects: seq<FallingObject>, freeze: bool, playerX: int, lives: int, score: int)
    ensures var r := Resolve(objects, freeze, playerX, lives, score);
      forall i, j :: 0 <= i < j < |r.reports| ==> r.reports[i] < r.reports[j]
  {
    ResolveReports(objects, freeze, playerX, lives, score);
  }

  /** A pass never clears an active freeze by itself: the flag it leaves is
      the old flag or a caught freeze. */
  lemma {:induction false} FreezeNeverCleared(objects: seq<FallingObject>, freeze: bool, playerX: int, lives: int, score: int)
    ensures var r := Resolve(objects, freeze, playerX, lives, score);
      (r.freezeTriggered || freeze) == (freeze || Catches(objects, freeze, playerX, Freeze) > 0)
  {
    ResolveFreeze(objects, freeze, playerX, lives, score);
  }
}
