/** The game's global state as an object whose methods update it in place, as the
    script's functions and event handlers do (script.js:53-78, 103-114, 235-294,
    345-415, 441-635, 687-799). Every method is proved to leave the state that the
    corresponding function of `Simulation` computes from the state before the call. */
module GameModel {
  import opened Wrappers
  import opened Geometry
  import opened Difficulty
  import opened Names
  import opened HighScores
  import opened Entities
  import opened Splice
  import opened Simulation

  class Game {
    var gameWidth: nat
    var gameHeight: nat
    var playerX: real
    var playerY: real
    var obstacles: seq<Obstacle>
    var lasers: seq<Laser>
    var stars: seq<Star>
    var gameRunning: bool
    var gamePaused: bool
    var score: int
    var frameCount: int
    var highScores: seq<Entry>
    var highScoreBeatenThisRun: bool
    var currentDifficulty: Difficulty
    var selectedDifficulty: Difficulty
    var playerName: string

    /** The fields as one value of the model. */
    function Snapshot(): State
      reads this
    {
      State(gameWidth, gameHeight, playerX, playerY, obstacles, lasers, stars, gameRunning, gamePaused,
            score, frameCount, highScores, highScoreBeatenThisRun, currentDifficulty, selectedDifficulty,
            playerName)
    }

    /** Page load: the viewport, the player near the bottom centre, `initStars()`
        making the formula's number of stars from the first draws, then
        `loadHighScores()`. */
    constructor (innerWidth: nat, innerHeight: nat, starDraws: seq<StarDraws>, saved: Option<seq<Entry>>)
      requires |starDraws| >= InitialStarCount(innerWidth, innerHeight)
      ensures Snapshot() == Initial(innerWidth, innerHeight, starDraws, saved)
    {
      var d := Viewport(innerWidth, innerHeight);
      var n := StarCount(d.width, d.height);
      var field: seq<Star> := [];
      var i := 0;
      while i < n
        invariant 0 <= i <= n && |field| == i
        invariant forall k :: 0 <= k < i ==> field[k] == NewStar(starDraws[k], d.height)
      {
        field := field + [NewStar(starDraws[i], d.height)];
        i := i + 1;
      }
      gameWidth, gameHeight := d.width, d.height;
      playerX, playerY := StartX(d.width), StartY(d.height);
      obstacles, lasers, stars := [], [], field;
      gameRunning, gamePaused := false, false;
      score, frameCount := 0, 0;
      highScores, highScoreBeatenThisRun := InitialTable, false;
      currentDifficulty, selectedDifficulty := Easy, Easy;
      playerName := "";
      new;
      LoadHighScores(saved);
    }

    /** `loadHighScores()`: a stored table, when there is one, replaces the current one. */
    method LoadHighScores(saved: Option<seq<Entry>>)
      modifies this
      ensures Snapshot() == Simulation.LoadHighScores(old(Snapshot()), saved)
    {
      if saved.Some? {
        highScores := saved.value;
      }
    }

    /** `updateHighScores(newScore, name)`: a score already in the table changes
        nothing; otherwise it is pushed, the table sorted best first and cut to five. */
    method UpdateHighScores(newScore: int, name: string)
      modifies this
      ensures Snapshot() == old(Snapshot()).(highScores := UpdatedTable(old(highScores), newScore, name))
    {
      if !ScoreExists(highScores, newScore) {
        highScores := highScores + [Entry(newScore, name)];
        highScores := SortDesc(highScores);
        highScores := Top(highScores);
      }
    }

    /** `createObstacle()`: one asteroid of the bound difficulty is pushed. */
    method CreateObstacle(draws: SpawnDraws)
      modifies this
      ensures Snapshot() == old(Snapshot()).(obstacles := old(obstacles) +
        [NewObstacle(DifficultySettings(currentDifficulty), gameWidth, gameHeight, draws)])
    {
      obstacles := obstacles + [NewObstacle(DifficultySettings(currentDifficulty), gameWidth, gameHeight, draws)];
    }

    /** `shoot()`. */
    method Shoot()
      modifies this
      ensures Snapshot() == Simulation.Shoot(old(Snapshot()))
    {
      if !gameRunning || gamePaused {
        return;
      }
      lasers := lasers + [Laser(playerX, playerY - LaserOffset)];
    }

    /** The star loop of `update()`: each star in turn moves down, wrapping to the top.
        The stars are updated in a local copy that then replaces the field. */
    method MoveStarField()
      modifies this
      ensures Snapshot() == MoveStars(old(Snapshot()))
    {
      var m := DifficultySettings(currentDifficulty).starSpeedMultiplier;
      var field := stars;
      var i := 0;
      while i < |field|
        invariant 0 <= i <= |field| == |stars|
        invariant forall k :: 0 <= k < i ==> field[k] == MoveStar(stars[k], m, gameHeight)
        invariant forall k :: i <= k < |field| ==> field[k] == stars[k]
      {
        var star := field[i];
        var y := star.y + star.baseSpeed * m;
        if y > gameHeight as real + 10.0 {
          y := -10.0;
        }
        assert star.(y := y) == MoveStar(star, m, gameHeight);
        field := field[i := star.(y := y)];
        i := i + 1;
      }
      assert field == MoveStars(Snapshot()).stars;
      stars := field;
    }

    /** The player pass of `checkCollisions()`: every asteroid touching the player
        ends the game and records the score. */
    method CheckPlayer()
      modifies this
      ensures Snapshot() == PlayerPass(old(Snapshot()))
    {
      ghost var s0 := Snapshot();
      ghost var struck := false;
      var i := 0;
      while i < |obstacles|
        invariant 0 <= i <= |obstacles| == |s0.obstacles|
        invariant struck <==> exists k :: 0 <= k < i && PlayerHits(s0.playerX, s0.playerY, s0.obstacles[k])
        invariant Snapshot() == if struck then PlayerPass(s0) else s0
      {
        if PlayerHits(playerX, playerY, obstacles[i]) {
          EndRun();
          if struck {
            UpdateTwiceIsUpdateOnce(s0.highScores, s0.score, s0.playerName);
          } else {
            assert PlayerStruck(s0);
          }
          struck := true;
        }
        i := i + 1;
      }
    }

    /** What a hit on the player does: the game stops and the score is recorded. */
    method EndRun()
      modifies this
      ensures Snapshot() == old(Snapshot()).(gameRunning := false,
        highScores := UpdatedTable(old(highScores), old(score), old(playerName)))
    {
      gameRunning := false;
      UpdateHighScores(score, playerName);
    }

    /** One visit of the inner `forEach`: on a hit, `lasers.splice(l, 1)` and
        `obstacles.splice(o, 1)`, 10 points, and the latch when the new score beats a
        positive best score for the first time in the run. */
    method HitObstacle(laser: Laser, l: nat, o: nat)
      requires o < |obstacles|
      modifies this
      ensures Snapshot() == HitStep(old(Snapshot()), laser, l, o)
    {
      if LaserHits(laser, obstacles[o]) {
        lasers := SpliceAt(lasers, l);
        obstacles := SpliceAt(obstacles, o);
        AddHitPoints();
      }
    }

    /** The scoring of a hit: 10 points, and the latch when the new score beats a
        positive best score for the first time in the run. */
    method AddHitPoints()
      modifies this
      ensures Snapshot() == old(Snapshot()).(score := old(score) + 10,
        highScoreBeatenThisRun := old(highScoreBeatenThisRun) || BeatsPositiveHighScore(old(highScores), old(score) + 10))
    {
      score := score + 10;
      if !highScoreBeatenThisRun && BeatsPositiveHighScore(highScores, score) {
        highScoreBeatenThisRun := true;
      }
    }

    /** The inner `forEach` of the laser pass for the laser visited at `l`. The bound
        is the length of `obstacles` when it starts; an index the splices have moved
        past the end is not visited. */
    method CheckLaser(laser: Laser, l: nat)
      modifies this
      ensures Snapshot() == InnerPass(old(Snapshot()), laser, l, 0)
    {
      ghost var s0 := Snapshot();
      var m := |obstacles|;
      var o := 0;
      while o < m
        invariant InnerPass(s0, laser, l, 0) == InnerPass(Snapshot(), laser, l, o)
        invariant |obstacles| <= m
      {
        if o < |obstacles| {
          InnerPassVisits(Snapshot(), laser, l, o);
          HitObstacle(laser, l, o);
        } else {
          InnerPassEnds(Snapshot(), laser, l, o);
        }
        o := o + 1;
      }
    }

    /** `checkCollisions()`: the player pass, then the laser pass. */
    method CheckCollisions()
      modifies this
      ensures Snapshot() == Simulation.CheckCollisions(old(Snapshot()))
    {
      CheckPlayer();
      ghost var p := Snapshot();
      var n := |lasers|;
      var l := 0;
      while l < n
        invariant OuterPass(p, 0) == OuterPass(Snapshot(), l)
        invariant |lasers| <= n
      {
        if l < |lasers| {
          ghost var before := Snapshot();
          CheckLaser(lasers[l], l);
          assert |lasers| <= |before.lasers| by {
            assert HitsAccounted(before, InnerPass(before, before.lasers[l], l, 0));
          }
        }
        l := l + 1;
      }
    }

    /** The keyboard block of `update()`: each held direction moves the player 7. */
    method SteerByKeys(input: Input)
      modifies this
      ensures Snapshot() == old(Snapshot()).(
        playerX := old(playerX) - Held(input.keyLeft) + Held(input.keyRight),
        playerY := old(playerY) - Held(input.keyUp) + Held(input.keyDown))
    {
      if input.keyLeft { playerX := playerX - PlayerSpeed; }
      if input.keyRight { playerX := playerX + PlayerSpeed; }
      if input.keyUp { playerY := playerY - PlayerSpeed; }
      if input.keyDown { playerY := playerY + PlayerSpeed; }
    }

    /** The on-screen arrow block of `update()`, the same for the touch buttons. */
    method SteerByButtons(input: Input)
      modifies this
      ensures Snapshot() == old(Snapshot()).(
        playerX := old(playerX) - Held(input.touchLeft) + Held(input.touchRight),
        playerY := old(playerY) - Held(input.touchUp) + Held(input.touchDown))
    {
      if input.touchLeft { playerX := playerX - PlayerSpeed; }
      if input.touchRight { playerX := playerX + PlayerSpeed; }
      if input.touchUp { playerY := playerY - PlayerSpeed; }
      if input.touchDown { playerY := playerY + PlayerSpeed; }
    }

    /** The movement part of `update()`: keyboard, then on-screen buttons, then the
        clamp to the field. */
    method MovePlayer(input: Input)
      modifies this
      ensures Snapshot() == Simulation.MovePlayer(old(Snapshot()), input)
    {
      SteerByKeys(input);
      SteerByButtons(input);
      ClampPlayer();
    }

    /** The player's centre is held at least 30 inside every edge of the field. */
    method ClampPlayer()
      modifies this
      ensures Snapshot() == old(Snapshot()).(playerX := Clamp(old(playerX), gameWidth),
        playerY := Clamp(old(playerY), gameHeight))
    {
      playerX := Clamp(playerX, gameWidth);
      playerY := Clamp(playerY, gameHeight);
    }

    /** The asteroid and laser loops of `update()`, each a `forEach` that splices. */
    method MoveAndReap()
      modifies this
      ensures Snapshot() == Reap(old(Snapshot()))
    {
      var w, h := gameWidth, gameHeight;
      obstacles := ForEachSplice(obstacles, MoveObstacle, OffScreenIn(w, h));
      lasers := ForEachSplice(lasers, MoveLaser, LaserGone);
    }

    /** `update()`: one frame of the game loop. */
    method Update(input: Input, draws: SpawnDraws)
      modifies this
      ensures Snapshot() == Tick(old(Snapshot()), input, draws)
    {
      if !gameRunning || gamePaused {
        return;
      }
      frameCount := frameCount + 1;
      MovePlayer(input);
      ghost var moved := Snapshot();
      if frameCount % DifficultySettings(currentDifficulty).spawnRate == 0 {
        CreateObstacle(draws);
      }
      assert Snapshot() == Spawn(moved, draws);
      MoveStarField();
      MoveAndReap();
      assert Snapshot() == Advance(old(Snapshot()), input, draws);
      CheckCollisions();
    }

    /** `startGame()`. */
    method StartGame(input: Input, draws: SpawnDraws)
      modifies this
      ensures Snapshot() == Simulation.StartGame(old(Snapshot()), input, draws)
    {
      BeginRun();
      Update(input, draws);
    }

    /** The selected difficulty is bound for the run, the latch cleared and the game
        marked running. */
    method BeginRun()
      modifies this
      ensures Snapshot() == old(Snapshot()).(currentDifficulty := old(selectedDifficulty),
        highScoreBeatenThisRun := false, gameRunning := true)
    {
      currentDifficulty := selectedDifficulty;
      highScoreBeatenThisRun := false;
      gameRunning := true;
    }

    /** `togglePause()`. */
    method TogglePause(input: Input, draws: SpawnDraws)
      modifies this
      ensures Snapshot() == Simulation.TogglePause(old(Snapshot()), input, draws)
    {
      if !gameRunning {
        return;
      }
      gamePaused := !gamePaused;
      if !gamePaused {
        Update(input, draws);
      }
    }

    /** `restartGame()`. */
    method RestartGame()
      modifies this
      ensures Snapshot() == Simulation.RestartGame(old(Snapshot()))
    {
      PlaceAtStart();
      score := 0;
      gameRunning := false;
      gamePaused := false;
      ClearField();
    }

    /** The player back at the bottom centre. */
    method PlaceAtStart()
      modifies this
      ensures Snapshot() == old(Snapshot()).(playerX := StartX(gameWidth), playerY := StartY(gameHeight))
    {
      playerX := StartX(gameWidth);
      playerY := StartY(gameHeight);
    }

    /** No asteroids, no shots and the frame counter back at 0. */
    method ClearField()
      modifies this
      ensures Snapshot() == old(Snapshot()).(frameCount := 0, obstacles := [], lasers := [])
    {
      frameCount := 0;
      obstacles := [];
      lasers := [];
    }

    /** The pause menu's restart button. */
    method RestartFromPause(input: Input, draws: SpawnDraws)
      modifies this
      ensures Snapshot() == Simulation.RestartFromPause(old(Snapshot()), input, draws)
    {
      score := 0;
      PlaceAtStart();
      ClearField();
      highScoreBeatenThisRun := false;
      TogglePause(input, draws);
    }

    /** The pause menu's main-menu button. */
    method MainMenu()
      modifies this
      ensures Snapshot() == Simulation.MainMenu(old(Snapshot()))
    {
      gamePaused := false;
      RestartGame();
    }

    /** A difficulty button. */
    method SelectDifficulty(d: Difficulty)
      modifies this
      ensures Snapshot() == Simulation.SelectDifficulty(old(Snapshot()), d)
    {
      selectedDifficulty := d;
    }

    /** The play button. */
    method PressPlay(input: Input, draws: SpawnDraws)
      modifies this
      ensures Snapshot() == Simulation.PressPlay(old(Snapshot()), input, draws)
    {
      if playerName != [] {
        StartGame(input, draws);
      }
    }

    /** The name dialog's start button, with the text typed into the field. */
    method SubmitName(typed: string, input: Input, draws: SpawnDraws)
      modifies this
      ensures Snapshot() == Simulation.SubmitName(old(Snapshot()), typed, input, draws)
    {
      match ValidateName(typed)
      case Rejected(_) =>
      case Accepted(name) =>
        playerName := name;
        StartGame(input, draws);
    }

    /** The window's resize handler. */
    method Resize(innerWidth: nat, innerHeight: nat)
      modifies this
      ensures Snapshot() == Simulation.Resize(old(Snapshot()), innerWidth, innerHeight)
    {
      var d := Viewport(innerWidth, innerHeight);
      gameWidth := d.width;
      gameHeight := d.height;
      ClampPlayer();
    }
  }
}
