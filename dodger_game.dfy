/** Crypto Dodger: the component's state, the player position and the
    session refs as the fields of one object. Each animation frame, key
    press and timer callback is one method. */
module DodgerGame {
  import opened Seqs
  import opened Telemetry
  import opened DodgerTick

  /** Milliseconds between two spawns. */
  const SpawnGap := 1000
  /** Pixels per arrow-key press. */
  const PlayerStep := 30
  /** Rightmost left edge of the player's box. */
  const PlayerMaxX := GameWidth - PlayerSize

  datatype Arrow = LeftKey | RightKey

  /** An arrow press moves the player's box by 30 pixels, clamped to the field. */
  function MovePlayer(x: int, key: Arrow): (r: int)
    requires 0 <= x <= PlayerMaxX
    ensures 0 <= r <= PlayerMaxX
    ensures key == LeftKey ==> r <= x && (r == x - PlayerStep || (r == 0 && x < PlayerStep))
    ensures key == RightKey ==> r >= x && (r == x + PlayerStep || (r == PlayerMaxX && x + PlayerStep > PlayerMaxX))
  {
    match key
    case LeftKey => Max(0, x - PlayerStep)
    case RightKey => Min(PlayerMaxX, x + PlayerStep)
  }

  /** Away from the edges, a press one way is undone by a press the other way;
      at an edge, pressing towards it again changes nothing. */
  lemma {:induction false} MoveBackAndForth(x: int)
    requires 0 <= x <= PlayerMaxX
    ensures PlayerStep <= x ==> MovePlayer(MovePlayer(x, LeftKey), RightKey) == x
    ensures x + PlayerStep <= PlayerMaxX ==> MovePlayer(MovePlayer(x, RightKey), LeftKey) == x
    ensures MovePlayer(0, LeftKey) == 0 && MovePlayer(PlayerMaxX, RightKey) == PlayerMaxX
  {
  }

  class CryptoDodger {
    var score: int
    var lives: int
    var isPlaying: bool
    var isPaused: bool
    var hasStarted: bool
    var objects: seq<FallingObject>
    var freezeActive: bool
    var playerX: int
    /** `gameIdRef.current`: null until the first session starts. */
    var gameId: Option<string>
    /** `lastObjectTimeRef.current`, in milliseconds. */
    var lastObjectTime: int
    /** Every report handed to the chain, oldest first. */
    var outbox: seq<Report>

    /** The player is inside the field, score and lives are never negative,
        and a running game always has a session token. */
    ghost predicate Valid()
      reads this
    {
      && 0 <= playerX <= PlayerMaxX
      && score >= 0
      && lives >= 0
      && (isPlaying ==> gameId.Some?)
    }

    constructor ()
      ensures Valid()
      ensures score == 0 && lives == 3 && !isPlaying && !isPaused && !hasStarted
      ensures objects == [] && !freezeActive && playerX == 150
      ensures gameId == None && lastObjectTime == 0 && outbox == []
    {
      score, lives := 0, 3;
      isPlaying, isPaused, hasStarted := false, false, false;
      objects := [];
      freezeActive := false;
      playerX := 150;
      gameId := None;
      lastObjectTime := 0;
      outbox := [];
    }

    /** `startGame`: a new session token, a fresh state, the player centred. */
    method StartGame(freshId: string, now: int)
      requires Valid()
      modifies this
      ensures Valid()
      ensures score == 0 && lives == 3 && isPlaying && !isPaused && hasStarted
      ensures objects == [] && !freezeActive
      ensures playerX == GameWidth / 2 - PlayerSize / 2 && playerX == 130
      ensures gameId == Some(freshId) && lastObjectTime == now && outbox == old(outbox)
    {
      gameId := Some(freshId);
      score, lives := 0, 3;
      isPlaying, isPaused, hasStarted := true, false, true;
      objects := [];
      freezeActive := false;
      playerX := GameWidth / 2 - PlayerSize / 2;
      lastObjectTime := now;
    }

    /** `resetGame`: stop and clear the session; the player stays where it is. */
    method ResetGame()
      requires Valid()
      modifies this
      ensures Valid()
      ensures score == 0 && lives == 3 && !isPlaying && !isPaused && !hasStarted
      ensures objects == [] && !freezeActive
      ensures playerX == old(playerX) && gameId == old(gameId)
      ensures lastObjectTime == old(lastObjectTime) && outbox == old(outbox)
    {
      score, lives := 0, 3;
      isPlaying, isPaused, hasStarted := false, false, false;
      objects := [];
      freezeActive := false;
    }

    /** The arrow-key handler: ignored unless a game is running. */
    method KeyDown(key: Arrow)
      requires Valid()
      modifies this`playerX
      ensures Valid()
      ensures playerX == if isPlaying then MovePlayer(old(playerX), key) else old(playerX)
    {
      if isPlaying {
        playerX := MovePlayer(playerX, key);
      }
    }

    /** The 4-second timeout that ends a freeze. */
    method ExpireFreeze()
      requires Valid()
      modifies this`freezeActive
      ensures Valid() && !freezeActive
    {
      freezeActive := false;
    }

    /** `handleObjectLogic`: one pass over the falling objects, sending one
        coin report per caught coin with the score right after that coin. */
    method HandleObjectLogic()
      requires Valid() && gameId.Some?
      modifies this`objects, this`lives, this`score, this`freezeActive, this`outbox
      ensures Valid()
      ensures var r := Resolve(old(objects), old(freezeActive), playerX, old(lives), old(score));
        && objects == r.objects && lives == r.lives && score == r.score
        && freezeActive == (r.freezeTriggered || old(freezeActive))
        && outbox == old(outbox) + Tagged(gameId.value, CoinEvent, r.reports)
    {
      ResolveScore(objects, freezeActive, playerX, lives, score);
      ResolveLives(objects, freezeActive, playerX, lives, score);
      var r := ResolveObjects(objects, freezeActive, playerX, lives, score);
      outbox := outbox + Tagged(gameId.value, CoinEvent, r.reports);
      objects, lives, score := r.objects, r.lives, r.score;
      freezeActive := if r.freezeTriggered then true else freezeActive;
    }

    /** One animation frame of `gameLoop`: spawn when more than a second has
        passed since the last spawn, run the object pass, and end the game
        once no lives are left. */
    method GameLoop(now: int, id: string, d: ObjectDraws)
      requires Valid() && isPlaying && d.Valid()
      modifies this
      ensures Valid()
      ensures var spawned := now - old(lastObjectTime) > SpawnGap;
        var before := if spawned then old(objects) + [SpawnObject(id, d)] else old(objects);
        var r := Resolve(before, old(freezeActive), old(playerX), old(lives), old(score));
        && lastObjectTime == (if spawned then now else old(lastObjectTime))
        && objects == r.objects && lives == r.lives && score == r.score
        && freezeActive == (r.freezeTriggered || old(freezeActive))
        && outbox == old(outbox) + Tagged(old(gameId).value, CoinEvent, r.reports)
        && isPlaying == (r.lives > 0)
        && playerX == old(playerX) && gameId == old(gameId)
        && isPaused == old(isPaused) && hasStarted == old(hasStarted)
    {
      if now - lastObjectTime > SpawnGap {
        objects := objects + [SpawnObject(id, d)];
        lastObjectTime := now;
      }
      HandleObjectLogic();
      if lives <= 0 {
        isPlaying := false;
      }
    }
  }
}
