/** Bubble Tap: the game state and the pure `prev => next` updaters that the
    component hands to `setGameState` — spawning, the physics tick, the tap
    resolver, the session transitions and the time-attack countdown. */
module BubbleEngine {
  import opened Seqs
  import opened BubbleCurve

  datatype Mode = Classic | TimeAttack | Survival

  datatype GameState = GameState(
    bubbles: seq<Bubble>,
    score: int,
    lives: int,
    timeLeft: int,
    isPlaying: bool,
    isPaused: bool,
    mode: Mode,
    level: int,
    hasStarted: bool)

  /** Seconds of a time-attack session. */
  const GameDuration := 60

  /** The state the component mounts with. */
  function InitialState(): (s: GameState)
    ensures s.bubbles == [] && s.score == 0 && s.lives == 3 && s.timeLeft == GameDuration
    ensures !s.isPlaying && !s.isPaused && s.mode == Classic
  {
    GameState([], 0, 3, GameDuration, false, false, Classic, 1, false)
  }

  /** The tick-driven updaters act only while playing and not paused. */
  predicate Running(s: GameState) {
    s.isPlaying && !s.isPaused
  }

  // ---------------------------------------------------------------- spawning

  /** `spawnBubble`: while running, append a new bubble when the field is empty
      or the coin draw exceeds 0.5; otherwise leave the state alone. */
  function SpawnBubble(s: GameState, coin: real, area: Area, id: string, d: SpawnDraws): (r: GameState)
    requires d.Valid()
    ensures !Running(s) ==> r == s
    ensures r == s.(bubbles := r.bubbles)
    ensures r.bubbles == s.bubbles || r.bubbles == s.bubbles + [CreateBubble(s.score, area, id, d)]
    ensures |r.bubbles| == |s.bubbles| + 1 <==> Running(s) && (s.bubbles == [] || coin > 0.5)
  {
    if !Running(s) then s
    else if |s.bubbles| == 0 || coin > 0.5 then
      s.(bubbles := s.bubbles + [CreateBubble(s.score, area, id, d)])
    else s
  }

  // ----------------------------------------------------------- physics tick

  /** One bubble moved up by its own speed. */
  function Rise(b: Bubble): Bubble {
    b.(y := b.y - b.speed)
  }

  function RiseAll(bs: seq<Bubble>): (r: seq<Bubble>)
    ensures |r| == |bs|
    ensures forall i :: 0 <= i < |bs| ==> r[i] == Rise(bs[i])
  {
    seq(|bs|, i requires 0 <= i < |bs| => Rise(bs[i]))
  }

  /** Still (partly) on screen: the bottom edge is below the top of the area. */
  predicate Visible(b: Bubble) {
    b.y + b.size > 0.0
  }

  /** The escape filter of lines 125-127, which also carries the mode test. */
  function EscapedIn(mode: Mode): Bubble -> bool {
    (b: Bubble) => b.y + b.size < 0.0 && (mode == Survival && b.kind != Bomb)
  }

  /** The bubbles that survive a tick, moved, in their original order. */
  function Survivors(bs: seq<Bubble>): seq<Bubble> {
    Filter(RiseAll(bs), Visible)
  }

  /** `updateBubbles`: move every bubble, drop the ones no longer visible and,
      in survival mode, take a life per escaped non-bomb bubble. */
  function UpdateBubbles(s: GameState): (r: GameState)
    ensures !Running(s) ==> r == s
  {
    if !Running(s) then s
    else
      var moved := RiseAll(s.bubbles);
      var escaped := Filter(moved, EscapedIn(s.mode));
      s.(bubbles := Filter(moved, Visible),
         lives := if s.mode == Survival then Max(0, s.lives - |escaped|) else s.lives)
  }

  /** The number of non-bomb bubbles whose bottom edge ends strictly above the
      area after moving, counted on the bubbles before the move. */
  function Escapes(bs: seq<Bubble>): (n: nat)
    ensures n <= |bs|
  {
    if bs == [] then 0
    else
      (if bs[0].kind != Bomb && bs[0].y - bs[0].speed + bs[0].size < 0.0 then 1 else 0)
      + Escapes(bs[1..])
  }

  lemma {:induction false} EscapedCount(bs: seq<Bubble>)
    ensures |Filter(RiseAll(bs), EscapedIn(Survival))| == Escapes(bs)
  {
    if bs != [] {
      var moved := RiseAll(bs);
      assert moved[1..] == RiseAll(bs[1..]);
      assert moved == [moved[0]] + moved[1..];
      EscapedCount(bs[1..]);
    }
  }

  /** The physics tick moves each bubble by its own speed, keeps exactly the
      moved bubbles that are still visible, never touches the score, and
      charges one life (floored at zero) per escaped non-bomb bubble in
      survival mode only. */
  lemma UpdateBubblesEffect(s: GameState)
    requires Running(s)
    ensures var r := UpdateBubbles(s);
      && r == s.(bubbles := r.bubbles, lives := r.lives)
      && r.bubbles == Survivors(s.bubbles)
      && (forall i :: 0 <= i < |s.bubbles| && Visible(Rise(s.bubbles[i])) ==> Rise(s.bubbles[i]) in r.bubbles)
      && (forall b :: b in r.bubbles ==> Visible(b) && exists i :: 0 <= i < |s.bubbles| && b == Rise(s.bubbles[i]))
      && r.lives == (if s.mode == Survival then Max(0, s.lives - Escapes(s.bubbles)) else s.lives)
  {
    EscapedCount(s.bubbles);
    var moved := RiseAll(s.bubbles);
    forall b | b in Filter(moved, Visible)
      ensures exists i :: 0 <= i < |s.bubbles| && b == Rise(s.bubbles[i])
    {
      var i :| 0 <= i < |moved| && moved[i] == b;
    }
  }

  /** The physics tick keeps relative order: survivors of a prefix of the
      list all come before the survivors of the rest. */
  lemma {:induction false} SurvivorsAppend(a: seq<Bubble>, b: seq<Bubble>)
    ensures Survivors(a + b) == Survivors(a) + Survivors(b)
  {
    assert RiseAll(a + b) == RiseAll(a) + RiseAll(b);
    FilterAppend(RiseAll(a), RiseAll(b), Visible);
  }

  /** A bubble whose bottom edge lands exactly on the top edge is removed but
      costs no life, even in survival mode. */
  lemma TouchingTopIsNotPenalised(s: GameState, b: Bubble)
    requires Running(s) && s.mode == Survival && s.lives >= 0 && s.bubbles == [b]
    requires b.y - b.speed + b.size == 0.0
    ensures UpdateBubbles(s).bubbles == []
    ensures UpdateBubbles(s).lives == s.lives
  {
    UpdateBubblesEffect(s);
    assert Escapes(s.bubbles) == 0 by { assert s.bubbles[1..] == []; }
  }

  /** Survival mode: a normal bubble escaping costs exactly one life, a bomb
      escaping costs none. */
  lemma SurvivalEscape(s: GameState, b: Bubble)
    requires Running(s) && s.mode == Survival && s.lives >= 1 && s.bubbles == [b]
    requires b.y - b.speed + b.size < 0.0
    ensures UpdateBubbles(s).bubbles == []
    ensures UpdateBubbles(s).lives == if b.kind == Bomb then s.lives else s.lives - 1
  {
    UpdateBubblesEffect(s);
    assert Escapes(s.bubbles) == (if b.kind == Bomb then 0 else 1) by { assert s.bubbles[1..] == []; }
  }

  // ----------------------------------------------------------- tap resolver

  /** Points for popping a bubble: 50 for a bonus, -20 for a bomb, and for a
      normal bubble 10 plus 0.8 per pixel below a 60-pixel diameter, rounded down.
      The bubble's own spawn-time `points` field is not consulted. */
  function TapPoints(b: Bubble): (p: int)
    ensures b.kind == Bonus ==> p == 50
    ensures b.kind == Bomb ==> p == -20
    ensures b.kind == Normal && b.size <= 60.0 ==> p >= 10
    ensures b.kind == Normal && 13.0 <= b.size < 65.0 ==> 6 <= p <= 47
  {
    match b.kind
    case Bonus => 50
    case Bomb => -20
    case Normal => 10 + ((60.0 - b.size) * 0.8).Floor
  }

  /** Smaller normal bubbles are worth at least as much as bigger ones. */
  lemma SmallerIsWorthMore(b1: Bubble, b2: Bubble)
    requires b1.kind == Normal && b2.kind == Normal && b1.size <= b2.size
    ensures TapPoints(b1) >= TapPoints(b2)
  {
    assert (60.0 - b1.size) * 0.8 >= (60.0 - b2.size) * 0.8;
  }

  /** `Array.prototype.find` on the id: the first bubble carrying it. */
  function FindById(bs: seq<Bubble>, id: string): (r: Option<Bubble>)
    ensures r.None? <==> forall b :: b in bs ==> b.id != id
    ensures r.Some? ==> r.value in bs && r.value.id == id
    ensures r.Some? ==> exists i :: 0 <= i < |bs| && bs[i] == r.value && forall j :: 0 <= j < i ==> bs[j].id != id
  {
    if bs == [] then None
    else if bs[0].id == id then Some(bs[0])
    else
      var r := FindById(bs[1..], id);
      assert forall b :: b in bs ==> b == bs[0] || b in bs[1..];
      if r.Some? then
        var i :| 0 <= i < |bs[1..]| && bs[1..][i] == r.value && forall j :: 0 <= j < i ==> bs[1..][j].id != id;
        assert bs[i + 1] == r.value && forall j :: 0 <= j < i + 1 ==> bs[j].id != id;
        r
      else r
  }

  /** The filter that keeps every bubble except those carrying `id`. */
  function OtherIds(id: string): Bubble -> bool {
    (b: Bubble) => b.id != id
  }

  /** `popBubble`: resolve a tap on `id`. Returns the new state and the score
      the tap reports to the chain, or the unchanged state and no report when
      no live bubble has that id. */
  function PopBubble(s: GameState, id: string): (r: (GameState, Option<int>))
    ensures r.1.None? <==> forall b :: b in s.bubbles ==> b.id != id
    ensures r.1.None? ==> r.0 == s
    ensures r.1.Some? ==> r.1.value == r.0.score && r.0.hasStarted
    ensures s.score >= 0 || r.1.Some? ==> r.0.score >= 0
    ensures r.0.bubbles == Filter(s.bubbles, OtherIds(id))
    ensures forall b :: b in r.0.bubbles <==> b in s.bubbles && b.id != id
    ensures r.0 == s.(bubbles := r.0.bubbles, score := r.0.score, lives := r.0.lives, hasStarted := r.0.hasStarted)
    ensures s.lives >= 0 ==> 0 <= r.0.lives <= s.lives
  {
    match FindById(s.bubbles, id)
    case None =>
      FilterKeepsAll(s.bubbles, OtherIds(id));
      (s, None)
    case Some(b) =>
      var newScore := s.score + TapPoints(b);
      var newLives := if b.kind == Bomb then Max(0, s.lives - 1) else s.lives;
      (s.(bubbles := Filter(s.bubbles, OtherIds(id)), score := Max(0, newScore),
          lives := newLives, hasStarted := true),
       Some(Max(0, newScore)))
  }

  /** What a successful tap does by kind: a bonus adds 50, a bomb takes 20
      and one life (both floored at zero), a normal bubble adds its
      size-dependent points; only a bomb touches the lives. */
  lemma PopScoring(s: GameState, id: string)
    requires s.score >= 0
    requires exists b :: b in s.bubbles && b.id == id
    ensures var b := FindById(s.bubbles, id).value;
      var (r, report) := PopBubble(s, id);
      && report == Some(r.score)
      && (b.kind == Bonus ==> r.score == s.score + 50 && r.lives == s.lives)
      && (b.kind == Bomb ==> r.score == Max(0, s.score - 20) && r.lives == Max(0, s.lives - 1))
      && (b.kind == Normal ==> r.score == Max(0, s.score + 10 + ((60.0 - b.size) * 0.8).Floor) && r.lives == s.lives)
  {
  }

  /** A successful tap removes at least one bubble (every bubble carrying the id). */
  lemma PopShrinks(s: GameState, id: string)
    requires exists b :: b in s.bubbles && b.id == id
    ensures |PopBubble(s, id).0.bubbles| < |s.bubbles|
  {
    var i :| 0 <= i < |s.bubbles| && s.bubbles[i].id == id;
    FilterDrops(s.bubbles, OtherIds(id), i);
  }

  /** A second tap on the same id finds nothing: no double scoring. */
  lemma PopTwiceIsNoOp(s: GameState, id: string)
    ensures var (r, _) := PopBubble(s, id);
      PopBubble(r, id) == (r, None)
  {
  }

  /** A bonus tapped at 1000 points leaves 1050 and reports exactly 1050. */
  lemma BonusAtThousand(s: GameState, b: Bubble)
    requires s.score == 1000 && s.bubbles == [b] && b.kind == Bonus
    ensures PopBubble(s, b.id).0.score == 1050 && PopBubble(s, b.id).1 == Some(1050)
  {
  }

  // ----------------------------------------------------- session transitions

  /** `startGame(mode)`: a fresh running session. */
  function StartState(mode: Mode): (s: GameState)
    ensures Running(s) && s.mode == mode && s.bubbles == [] && s.score == 0 && !s.hasStarted
    ensures s.lives == (if mode == Survival then 3 else 999)
    ensures s.timeLeft == (if mode == TimeAttack then GameDuration else 999)
  {
    GameState([], 0, if mode == Survival then 3 else 999,
              if mode == TimeAttack then GameDuration else 999,
              true, false, mode, 1, false)
  }

  /** `endGame`'s state update: clear the two flags, keep everything else. */
  function EndGame(s: GameState): (r: GameState)
    ensures !r.isPlaying && !r.isPaused
    ensures r.(isPlaying := s.isPlaying, isPaused := s.isPaused) == s
  {
    s.(isPlaying := false, isPaused := false)
  }

  /** `pauseGame`: flip the paused flag only. */
  function TogglePause(s: GameState): (r: GameState)
    ensures r.isPaused == !s.isPaused
    ensures r.(isPaused := s.isPaused) == s
  {
    s.(isPaused := !s.isPaused)
  }

  /** Ending twice is the same as ending once, and pausing twice is no change. */
  lemma EndAndPauseAlgebra(s: GameState)
    ensures EndGame(EndGame(s)) == EndGame(s)
    ensures TogglePause(TogglePause(s)) == s
  {
  }

  /** Neither a paused nor an ended session moves, spawns or loses lives. */
  lemma StoppedIsFrozen(s: GameState, coin: real, area: Area, id: string, d: SpawnDraws)
    requires !Running(s) && d.Valid()
    ensures UpdateBubbles(s) == s
    ensures SpawnBubble(s, coin, area, id, d) == s
  {
  }

  /** One second of the time-attack timer: count down, or end the session
      (leaving the clock at its value) once it shows one second or less. */
  function TimerTick(s: GameState): (r: GameState)
    ensures s.timeLeft > 1 ==> r == s.(timeLeft := s.timeLeft - 1)
    ensures s.timeLeft <= 1 ==> r == EndGame(s)
  {
    if s.timeLeft <= 1 then EndGame(s) else s.(timeLeft := s.timeLeft - 1)
  }

  function TimerTicks(s: GameState, n: nat): GameState {
    if n == 0 then s else TimerTick(TimerTicks(s, n - 1))
  }

  /** Before the clock reaches one, each tick only takes a second off. */
  lemma {:induction false} CountdownPhase(s: GameState, n: nat)
    requires n < s.timeLeft
    ensures TimerTicks(s, n) == s.(timeLeft := s.timeLeft - n)
  {
    if n > 0 {
      CountdownPhase(s, n - 1);
    }
  }

  /** The tick that finds one second left ends the session. */
  lemma LastTick(s: GameState, n: nat)
    requires n >= 1 && TimerTicks(s, n - 1) == s.(timeLeft := 1)
    ensures TimerTicks(s, n) == EndGame(s.(timeLeft := 1))
  {
  }

  /** A running clock showing t >= 1 seconds still runs after t - 1 ticks,
      showing one second, and the t-th tick ends the session; a fresh
      time-attack session therefore lasts exactly 60 ticks. */
  lemma ClockRunsOut(s: GameState, t: nat)
    requires t >= 1 && s.timeLeft == t
    ensures TimerTicks(s, t - 1) == s.(timeLeft := 1)
    ensures TimerTicks(s, t) == EndGame(s.(timeLeft := 1))
  {
    CountdownPhase(s, t - 1);
    LastTick(s, t);
  }

  /** The game-over watcher: a playing session with no lives left ends. */
  function LivesCheck(s: GameState): (r: GameState)
    ensures s.isPlaying && s.lives <= 0 ==> r == EndGame(s)
    ensures !(s.isPlaying && s.lives <= 0) ==> r == s
  {
    if s.isPlaying && s.lives <= 0 then EndGame(s) else s
  }
}
