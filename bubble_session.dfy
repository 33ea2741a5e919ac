/** Bubble Tap: the session controller. The component's `gameState`, the
    `gameIdRef` session token, the current view and the outbound report log
    are the fields of one object; each handler and each timer callback is
    one method that replaces the state by an updater of `BubbleEngine`. */
module BubbleSession {
  import opened Seqs
  import opened Telemetry
  import opened BubbleCurve
  import opened BubbleEngine

  datatype View = Menu | Game

  class BubbleTap {
    var state: GameState
    var view: View
    /** `gameIdRef.current`: null until the first session starts. */
    var gameId: Option<string>
    /** Every report handed to the chain, oldest first. */
    var outbox: seq<Report>

    /** Score and lives are never negative, and before the first session
        there is neither a running game nor a bubble. */
    ghost predicate Valid()
      reads this
    {
      && state.score >= 0
      && state.lives >= 0
      && (gameId.None? ==> !state.isPlaying && state.bubbles == [])
    }

    constructor ()
      ensures Valid()
      ensures state == InitialState() && view == Menu && gameId == None && outbox == []
    {
      state := InitialState();
      view := Menu;
      gameId := None;
      outbox := [];
    }

    /** `startGame(mode)`: mint a session token and start a fresh session. */
    method StartGame(mode: Mode, freshId: string)
      requires Valid()
      modifies this
      ensures Valid()
      ensures state == StartState(mode) && view == Game && gameId == Some(freshId)
      ensures outbox == old(outbox)
    {
      gameId := Some(freshId);
      state := StartState(mode);
      view := Game;
    }

    /** `pauseGame`. */
    method PauseGame()
      requires Valid()
      modifies this`state
      ensures Valid()
      ensures state == TogglePause(old(state))
    {
      state := TogglePause(state);
    }

    /** `endGame`: stop the session; its timers are cancelled with it. */
    method EndGame()
      requires Valid()
      modifies this`state
      ensures Valid()
      ensures state == BubbleEngine.EndGame(old(state))
    {
      state := BubbleEngine.EndGame(state);
    }

    /** `resetGame`: end the session and go back to the menu. */
    method ResetGame()
      requires Valid()
      modifies this`state, this`view
      ensures Valid()
      ensures state == BubbleEngine.EndGame(old(state)) && view == Menu
    {
      EndGame();
      view := Menu;
    }

    /** One call of the spawn interval. */
    method Spawn(coin: real, area: Area, id: string, d: SpawnDraws)
      requires Valid() && d.Valid()
      modifies this`state
      ensures Valid()
      ensures state == SpawnBubble(old(state), coin, area, id, d)
    {
      state := SpawnBubble(state, coin, area, id, d);
    }

    /** One call of the 50 ms physics interval. */
    method Tick()
      requires Valid()
      modifies this`state
      ensures Valid()
      ensures state == UpdateBubbles(old(state))
    {
      if Running(state) {
        UpdateBubblesEffect(state);
      }
      state := UpdateBubbles(state);
    }

    /** One call of the one-second timer, which exists only in a running
        time-attack session. */
    method TimerTick()
      requires Valid() && Running(state) && state.mode == TimeAttack
      modifies this`state
      ensures Valid()
      ensures state == BubbleEngine.TimerTick(old(state))
    {
      state := BubbleEngine.TimerTick(state);
    }

    /** The game-over watcher, run whenever `isPlaying` or `lives` changes.
        It also stands for the deferred `endGame` a fatal bomb tap schedules,
        which has the same effect. */
    method CheckLives()
      requires Valid()
      modifies this`state
      ensures Valid()
      ensures state == LivesCheck(old(state))
    {
      state := LivesCheck(state);
    }

    /** `popBubble(id)`: resolve the tap and, when a bubble was hit, append one
        report carrying this session's token and the new score. */
    method Pop(id: string)
      requires Valid()
      modifies this`state, this`outbox
      ensures Valid()
      ensures state == PopBubble(old(state), id).0
      ensures PopBubble(old(state), id).1.None? ==> outbox == old(outbox)
      ensures PopBubble(old(state), id).1.Some? ==>
        gameId.Some? && outbox == old(outbox) + [Report(gameId.value, TapEvent, state.score)]
    {
      var (next, report) := PopBubble(state, id);
      if report.Some? {
        outbox := outbox + [Report(gameId.value, TapEvent, report.value)];
      }
      state := next;
    }
  }
}
