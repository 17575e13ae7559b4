/** The game's state as one value, and what each part of the game loop and each
    handler does to it (script.js:53-78, 185, 284-294, 345-415, 441-566, 596-635,
    685-798). The `Game` class of `GameModel` keeps the same state in fields and is
    proved to change it exactly as these functions say. */
module Simulation {
  import opened Wrappers
  import opened Geometry
  import opened Difficulty
  import opened Names
  import opened HighScores
  import opened Entities
  import opened Splice

  /** The globals of the game that the simulation reads or writes. `currentDifficulty`
      names the row of the difficulty table bound to `currentSettings`. */
  datatype State = State(
    gameWidth: nat,
    gameHeight: nat,
    playerX: real,
    playerY: real,
    obstacles: seq<Obstacle>,
    lasers: seq<Laser>,
    stars: seq<Star>,
    gameRunning: bool,
    gamePaused: bool,
    score: int,
    frameCount: int,
    highScores: seq<Entry>,
    highScoreBeatenThisRun: bool,
    currentDifficulty: Difficulty,
    selectedDifficulty: Difficulty,
    playerName: string)

  /** The direction sources held during one frame: the keyboard (arrow keys or WASD)
      and the on-screen arrow buttons. */
  datatype Input = Input(
    keyLeft: bool, keyRight: bool, keyUp: bool, keyDown: bool,
    touchLeft: bool, touchRight: bool, touchUp: bool, touchDown: bool)

  /** The distance one held source moves the player in a frame. */
  function Held(b: bool): real
  {
    if b then PlayerSpeed else 0.0
  }

  /** Where the player's centre starts, and where the restarts put it. */
  function StartX(width: nat): real { width as real / 2.0 }
  function StartY(height: nat): real { height as real - 100.0 }

  // ---------------------------------------------------------------------------
  // One frame of `update`

  /** The game loop does nothing unless a game is running and not paused. */
  predicate Active(st: State)
  {
    st.gameRunning && !st.gamePaused
  }

  /** Keyboard and on-screen buttons add up, each held source moving the player 7;
      then both coordinates are clamped to the field. */
  function MovePlayer(st: State, input: Input): (r: State)
    ensures r == st.(playerX := r.playerX, playerY := r.playerY)
    ensures st.gameWidth >= 60 ==> Inset <= r.playerX <= st.gameWidth as real - Inset
    ensures st.gameHeight >= 60 ==> Inset <= r.playerY <= st.gameHeight as real - Inset
  {
    var x := st.playerX - Held(input.keyLeft) + Held(input.keyRight) - Held(input.touchLeft) + Held(input.touchRight);
    var y := st.playerY - Held(input.keyUp) + Held(input.keyDown) - Held(input.touchUp) + Held(input.touchDown);
    st.(playerX := Clamp(x, st.gameWidth), playerY := Clamp(y, st.gameHeight))
  }

  /** An asteroid is due when the frame counter is a multiple of the spawn rate. */
  predicate SpawnDue(st: State)
  {
    st.frameCount % DifficultySettings(st.currentDifficulty).spawnRate == 0
  }

  /** `createObstacle` when due: exactly one asteroid is appended. */
  function Spawn(st: State, draws: SpawnDraws): (r: State)
    ensures r == st.(obstacles := r.obstacles)
    ensures |r.obstacles| == |st.obstacles| + (if SpawnDue(st) then 1 else 0)
    ensures r.obstacles[..|st.obstacles|] == st.obstacles
    ensures SpawnDue(st) ==>
      r.obstacles[|st.obstacles|] == NewObstacle(DifficultySettings(st.currentDifficulty), st.gameWidth, st.gameHeight, draws)
  {
    if SpawnDue(st) then
      st.(obstacles := st.obstacles + [NewObstacle(DifficultySettings(st.currentDifficulty), st.gameWidth, st.gameHeight, draws)])
    else st
  }

  /** Every star moves down by its speed times the difficulty's multiplier, wrapping
      past the bottom edge. */
  function MoveStars(st: State): (r: State)
    ensures r == st.(stars := r.stars)
    ensures |r.stars| == |st.stars|
    ensures forall i :: 0 <= i < |st.stars| ==>
      r.stars[i] == MoveStar(st.stars[i], DifficultySettings(st.currentDifficulty).starSpeedMultiplier, st.gameHeight)
  {
    var m := DifficultySettings(st.currentDifficulty).starSpeedMultiplier;
    st.(stars := seq(|st.stars|, i requires 0 <= i < |st.stars| => MoveStar(st.stars[i], m, st.gameHeight)))
  }

  /** The reaping test of a field of the given size, as a value to pass to a pass. */
  function OffScreenIn(width: nat, height: nat): Obstacle -> bool
  {
    o => OffScreen(o, width, height)
  }

  /** The asteroid pass of the game loop: move, then splice out what is off-screen. */
  function ReapObstacles(obstacles: seq<Obstacle>, width: nat, height: nat): seq<Obstacle>
  {
    SplicePass(obstacles, MoveObstacle, OffScreenIn(width, height))
  }

  /** The laser pass of the game loop: move up, then splice out what is past the top. */
  function ReapLasers(lasers: seq<Laser>): seq<Laser>
  {
    SplicePass(lasers, MoveLaser, LaserGone)
  }

  /** Both reaping passes; they never lengthen either array and change nothing else. */
  function Reap(st: State): (r: State)
    ensures r == st.(obstacles := r.obstacles, lasers := r.lasers)
    ensures |r.obstacles| <= |st.obstacles| && |r.lasers| <= |st.lasers|
  {
    SplicePassSurvivors(st.obstacles, MoveObstacle, OffScreenIn(st.gameWidth, st.gameHeight));
    SplicePassSurvivors(st.lasers, MoveLaser, LaserGone);
    st.(obstacles := ReapObstacles(st.obstacles, st.gameWidth, st.gameHeight), lasers := ReapLasers(st.lasers))
  }

  // ---------------------------------------------------------------------------
  // `checkCollisions`

  /** Some asteroid touches the player. */
  predicate PlayerStruck(st: State)
  {
    exists k :: 0 <= k < |st.obstacles| && PlayerHits(st.playerX, st.playerY, st.obstacles[k])
  }

  /** The player pass: every touching asteroid ends the game and records the score, and
      recording the same score again changes nothing, so the result is that of one
      recording. */
  function PlayerPass(st: State): State
  {
    if PlayerStruck(st) then
      st.(gameRunning := false, highScores := UpdatedTable(st.highScores, st.score, st.playerName))
    else st
  }

  /** A touching asteroid ends the run with the score either in the table or beaten by
      all five entries; without one nothing changes; and running the pass again, as the
      source does for each further touching asteroid, changes nothing more. */
  lemma PlayerPassRecordsScore(st: State)
    ensures PlayerStruck(st) ==> !PlayerPass(st).gameRunning && PlayerPass(st).score == st.score
    ensures PlayerStruck(st) ==> var t := PlayerPass(st).highScores;
      ScoreExists(t, st.score) || (|t| == MaxEntries && forall i :: 0 <= i < |t| ==> t[i].score > st.score)
    ensures !PlayerStruck(st) ==> PlayerPass(st) == st
    ensures PlayerPass(PlayerPass(st)) == PlayerPass(st)
  {
    RecordedOrOutranked(st.highScores, st.score, st.playerName);
    UpdateTwiceIsUpdateOnce(st.highScores, st.score, st.playerName);
  }

  /** One visit of the inner `forEach`: when `laser` touches the asteroid at `o`,
      `lasers.splice(l, 1)` (which removes whatever is at `l`, or nothing), the asteroid
      is spliced out, 10 points are scored and the achievement latch is set if the new
      score beats a positive best score. */
  function HitStep(st: State, laser: Laser, l: nat, o: nat): (r: State)
    requires o < |st.obstacles|
  {
    if LaserHits(laser, st.obstacles[o]) then
      var score := st.score + 10;
      st.(lasers := SpliceAt(st.lasers, l), obstacles := SpliceAt(st.obstacles, o), score := score,
          highScoreBeatenThisRun := st.highScoreBeatenThisRun || BeatsPositiveHighScore(st.highScores, score))
    else st
  }

  /** What a collision pass may do: it removes asteroids, each for 10 points; it
      removes at most as many lasers; it never clears the latch and sets it exactly
      when the final score is above the start score and beats a positive best score;
      it changes nothing else. */
  ghost predicate HitsAccounted(st: State, r: State)
  {
    r == st.(obstacles := r.obstacles, lasers := r.lasers, score := r.score,
             highScoreBeatenThisRun := r.highScoreBeatenThisRun) &&
    |r.obstacles| <= |st.obstacles| &&
    r.score == st.score + 10 * (|st.obstacles| - |r.obstacles|) &&
    |st.lasers| - |r.lasers| <= |st.obstacles| - |r.obstacles| &&
    |r.lasers| <= |st.lasers| &&
    multiset(r.obstacles) <= multiset(st.obstacles) &&
    multiset(r.lasers) <= multiset(st.lasers) &&
    (r.highScoreBeatenThisRun <==>
      st.highScoreBeatenThisRun || (r.score > st.score && BeatsPositiveHighScore(st.highScores, r.score)))
  }

  /** A better score still beats a positive best. */
  lemma BeatsIsMonotone(t: seq<Entry>, a: int, b: int)
    requires BeatsPositiveHighScore(t, a) && a <= b
    ensures BeatsPositiveHighScore(t, b)
  {
  }

  /** Accounting is transitive. */
  lemma HitsAccountedTrans(a: State, b: State, c: State)
    requires HitsAccounted(a, b) && HitsAccounted(b, c)
    ensures HitsAccounted(a, c)
  {
    if c.highScoreBeatenThisRun && !a.highScoreBeatenThisRun {
      if b.highScoreBeatenThisRun {
        BeatsIsMonotone(a.highScores, b.score, c.score);
      }
    }
  }

  lemma HitStepAccounted(st: State, laser: Laser, l: nat, o: nat)
    requires o < |st.obstacles|
    ensures HitsAccounted(st, HitStep(st, laser, l, o))
  {
  }

  /** The inner `forEach` from index `o` on, for the laser visited at `l`. Its bound
      is the starting length, but the array only shrinks, so visiting while `o` is
      below the current length is the same. */
  function InnerPass(st: State, laser: Laser, l: nat, o: nat): (r: State)
    ensures HitsAccounted(st, r)
    decreases |st.obstacles| - o
  {
    if o >= |st.obstacles| then st
    else
      var next := HitStep(st, laser, l, o);
      HitStepAccounted(st, laser, l, o);
      var r := InnerPass(next, laser, l, o + 1);
      HitsAccountedTrans(st, next, r);
      r
  }

  /** Visiting the asteroid at `o` is one hit step followed by the rest of the pass;
      the step never lengthens the array. */
  lemma InnerPassVisits(st: State, laser: Laser, l: nat, o: nat)
    requires o < |st.obstacles|
    ensures InnerPass(st, laser, l, o) == InnerPass(HitStep(st, laser, l, o), laser, l, o + 1)
    ensures |HitStep(st, laser, l, o).obstacles| <= |st.obstacles|
  {
  }

  /** Past the end of the array the pass changes nothing. */
  lemma InnerPassEnds(st: State, laser: Laser, l: nat, o: nat)
    requires o >= |st.obstacles|
    ensures InnerPass(st, laser, l, o) == st && InnerPass(st, laser, l, o + 1) == st
  {
  }

  /** The outer `forEach` from index `l` on: the laser at `l`, if there still is one,
      is tested against every asteroid. */
  function OuterPass(st: State, l: nat): (r: State)
    ensures HitsAccounted(st, r)
    decreases |st.lasers| - l
  {
    if l >= |st.lasers| then st
    else
      var next := InnerPass(st, st.lasers[l], l, 0);
      var r := OuterPass(next, l + 1);
      HitsAccountedTrans(st, next, r);
      r
  }

  function LaserPass(st: State): State
  {
    OuterPass(st, 0)
  }

  /** `checkCollisions`: the player pass, then the laser pass, which runs even when the
      player pass has just ended the game. */
  function CheckCollisions(st: State): State
  {
    LaserPass(PlayerPass(st))
  }

  /** Collision resolution ends the game at most, adds 10 per asteroid removed, and
      sets the latch only for a score that rose to beat a positive best of the table it
      leaves; the player, the frame counter, the field and the settings are kept. */
  lemma CollisionsAccounted(st: State)
    ensures var r := CheckCollisions(st);
      r.playerX == st.playerX && r.playerY == st.playerY && r.frameCount == st.frameCount &&
      r.gameWidth == st.gameWidth && r.gameHeight == st.gameHeight && r.stars == st.stars &&
      r.currentDifficulty == st.currentDifficulty && r.selectedDifficulty == st.selectedDifficulty &&
      r.playerName == st.playerName && r.gamePaused == st.gamePaused &&
      (r.gameRunning ==> st.gameRunning) &&
      |r.obstacles| <= |st.obstacles| &&
      r.score == st.score + 10 * (|st.obstacles| - |r.obstacles|) &&
      (st.highScoreBeatenThisRun ==> r.highScoreBeatenThisRun) &&
      (r.highScoreBeatenThisRun && !st.highScoreBeatenThisRun ==>
        r.score > st.score && BeatsPositiveHighScore(r.highScores, r.score))
  {
    var p := PlayerPass(st);
    assert HitsAccounted(p, OuterPass(p, 0));
  }

  /** The movement half of `update()`: count the frame, move the player, spawn when
      due, move the stars, move and reap asteroids and lasers. The score, the table,
      the latch and the game flags are untouched. */
  function Advance(st: State, input: Input, draws: SpawnDraws): (r: State)
    ensures r.frameCount == st.frameCount + 1
    ensures r.score == st.score && r.highScores == st.highScores
    ensures r.highScoreBeatenThisRun == st.highScoreBeatenThisRun
    ensures r.gameRunning == st.gameRunning && r.gamePaused == st.gamePaused
    ensures r.gameWidth == st.gameWidth && r.gameHeight == st.gameHeight
    ensures r.currentDifficulty == st.currentDifficulty && r.selectedDifficulty == st.selectedDifficulty
    ensures r.playerName == st.playerName
    ensures r.playerX == MovePlayer(st, input).playerX && r.playerY == MovePlayer(st, input).playerY
  {
    var counted := st.(frameCount := st.frameCount + 1);
    Reap(MoveStars(Spawn(MovePlayer(counted, input), draws)))
  }

  /** `update()`: nothing when not active; otherwise move everything, then resolve
      collisions. */
  function Tick(st: State, input: Input, draws: SpawnDraws): State
  {
    if !Active(st) then st
    else CheckCollisions(Advance(st, input, draws))
  }

  // ---------------------------------------------------------------------------
  // Handlers

  /** `startGame()`: binds the selected difficulty, clears the latch, starts, runs a frame. */
  function StartGame(st: State, input: Input, draws: SpawnDraws): State
  {
    Tick(st.(currentDifficulty := st.selectedDifficulty, highScoreBeatenThisRun := false, gameRunning := true), input, draws)
  }

  /** `togglePause()`: nothing unless running; pausing only sets the flag, resuming
      clears it and runs a frame. */
  function TogglePause(st: State, input: Input, draws: SpawnDraws): State
  {
    if !st.gameRunning then st
    else if !st.gamePaused then st.(gamePaused := true)
    else Tick(st.(gamePaused := false), input, draws)
  }

  /** `restartGame()`: back to the start screen with an empty field. */
  function RestartGame(st: State): State
  {
    st.(playerX := StartX(st.gameWidth), playerY := StartY(st.gameHeight), score := 0,
        gameRunning := false, gamePaused := false, frameCount := 0, obstacles := [], lasers := [])
  }

  /** The pause menu's restart: an empty field and a cleared latch, then `togglePause()`. */
  function RestartFromPause(st: State, input: Input, draws: SpawnDraws): State
  {
    TogglePause(st.(score := 0, playerX := StartX(st.gameWidth), playerY := StartY(st.gameHeight),
                    obstacles := [], lasers := [], frameCount := 0, highScoreBeatenThisRun := false), input, draws)
  }

  /** The pause menu's main-menu button: unpause, then `restartGame()`. */
  function MainMenu(st: State): State
  {
    RestartGame(st.(gamePaused := false))
  }

  /** `shoot()`: while playing, a laser appears 30 above the player's centre. */
  function Shoot(st: State): State
  {
    if !Active(st) then st
    else st.(lasers := st.lasers + [Laser(st.playerX, st.playerY - LaserOffset)])
  }

  /** A difficulty button records the choice; it is bound at the next start. */
  function SelectDifficulty(st: State, d: Difficulty): State
  {
    st.(selectedDifficulty := d)
  }

  /** The play button: without a name the name dialog opens and nothing changes here;
      with one the game starts. */
  function PressPlay(st: State, input: Input, draws: SpawnDraws): State
  {
    if st.playerName == [] then st else StartGame(st, input, draws)
  }

  /** The name dialog's start button: a refused name leaves everything as it was; an
      accepted one is stored upper-cased and the game starts. */
  function SubmitName(st: State, typed: string, input: Input, draws: SpawnDraws): State
  {
    match ValidateName(typed)
    case Rejected(_) => st
    case Accepted(name) => StartGame(st.(playerName := name), input, draws)
  }

  /** A window resize: new dimensions, portrait swapped, and the player clamped. */
  function Resize(st: State, innerWidth: nat, innerHeight: nat): State
  {
    var d := Viewport(innerWidth, innerHeight);
    st.(gameWidth := d.width, gameHeight := d.height,
        playerX := Clamp(st.playerX, d.width), playerY := Clamp(st.playerY, d.height))
  }

  /** `loadHighScores()`: a stored table replaces the current one; a missing or
      unreadable one (`None`) leaves it. */
  function LoadHighScores(st: State, saved: Option<seq<Entry>>): State
  {
    match saved
    case None => st
    case Some(t) => st.(highScores := t)
  }

  /** The number of stars `initStars()` creates for a window. */
  function InitialStarCount(innerWidth: nat, innerHeight: nat): nat
  {
    var d := Viewport(innerWidth, innerHeight);
    StarCount(d.width, d.height)
  }

  /** The state when the page has loaded: the viewport, the player near the bottom
      centre, `initStars()` making the formula's number of stars from the first draws
      of `starDraws`, and the stored table if any. */
  function Initial(innerWidth: nat, innerHeight: nat, starDraws: seq<StarDraws>, saved: Option<seq<Entry>>): State
    requires |starDraws| >= InitialStarCount(innerWidth, innerHeight)
  {
    var d := Viewport(innerWidth, innerHeight);
    var h: nat := d.height;
    var n := InitialStarCount(innerWidth, innerHeight);
    var st := State(d.width, h, StartX(d.width), StartY(h), [], [],
      seq(n, i requires 0 <= i < n => NewStar(starDraws[i], h)),
      false, false, 0, 0, InitialTable, false, Easy, Easy, "");
    LoadHighScores(st, saved)
  }
}
