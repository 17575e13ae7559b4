/** What the game loop and the handlers promise, stated over the `Simulation` model. */
module Properties {
  import opened Wrappers
  import opened Geometry
  import opened Difficulty
  import opened HighScores
  import opened Entities
  import opened Splice
  import opened Simulation

  // ---------------------------------------------------------------------------
  // One frame

  /** A frame of a game that is not running, or is paused, changes nothing. */
  lemma TickWhenInactive(st: State, input: Input, draws: SpawnDraws)
    requires !Active(st)
    ensures Tick(st, input, draws) == st
  {
  }

  /** The frame counter rises by exactly one per active frame. */
  lemma TickCountsFrame(st: State, input: Input, draws: SpawnDraws)
    requires Active(st)
    ensures Tick(st, input, draws).frameCount == st.frameCount + 1
  {
    CollisionsAccounted(Advance(st, input, draws));
  }

  /** After an active frame the player's centre is at least 30 inside each edge of a
      field that is at least 60 wide and high. */
  lemma TickKeepsPlayerInField(st: State, input: Input, draws: SpawnDraws)
    requires Active(st) && st.gameWidth >= 60 && st.gameHeight >= 60
    ensures var r := Tick(st, input, draws);
      Inset <= r.playerX <= r.gameWidth as real - Inset && Inset <= r.playerY <= r.gameHeight as real - Inset
  {
    CollisionsAccounted(Advance(st, input, draws));
  }

  /** `after` has the score of `before` raised by some number of 10-point hits. */
  predicate RaisedInTens(before: State, after: State)
  {
    after.score >= before.score && MultipleOfTen(after.score - before.score)
  }

  /** Score is only ever raised by a frame, in steps of 10. */
  lemma TickScoresInTens(st: State, input: Input, draws: SpawnDraws)
    ensures RaisedInTens(st, Tick(st, input, draws))
  {
    if Active(st) {
      CollisionsScoreInTens(Advance(st, input, draws), st);
    } else {
      assert MultipleOfTen(0);
    }
  }

  /** Collision resolution raises the score of `a`, the same as that of `base`, by 10
      per asteroid removed. */
  lemma CollisionsScoreInTens(a: State, base: State)
    requires a.score == base.score
    ensures RaisedInTens(base, CheckCollisions(a))
  {
    CollisionsAccounted(a);
    HitsRaiseInTens(base, CheckCollisions(a), |a.obstacles| - |CheckCollisions(a).obstacles|);
  }

  lemma HitsRaiseInTens(base: State, r: State, removed: int)
    requires removed >= 0 && r.score == base.score + 10 * removed
    ensures RaisedInTens(base, r)
  {
    TensAreMultiplesOfTen(r.score - base.score, removed);
  }

  /** A raise in tens is measured from the score alone. */
  lemma RaisedFromSameScore(a: State, b: State, r: State)
    requires a.score == b.score && RaisedInTens(a, r)
    ensures RaisedInTens(b, r)
  {
  }

  /** A frame never clears the achievement latch, and sets it only when the score rose
      in that frame to beat a positive best score of the table as it then stands. */
  lemma TickLatch(st: State, input: Input, draws: SpawnDraws)
    ensures var r := Tick(st, input, draws);
      (st.highScoreBeatenThisRun ==> r.highScoreBeatenThisRun) &&
      (r.highScoreBeatenThisRun && !st.highScoreBeatenThisRun ==>
        r.score > st.score && BeatsPositiveHighScore(r.highScores, r.score))
  {
    if Active(st) {
      CollisionsAccounted(Advance(st, input, draws));
    }
  }

  /** When an asteroid touches the player, the table records the score from before the
      laser pass of the same frame, which may still add to the score afterwards. */
  lemma GameOverRecordsScoreBeforeLasers(st: State)
    requires PlayerStruck(st)
    ensures var r := CheckCollisions(st);
      !r.gameRunning && r.highScores == UpdatedTable(st.highScores, st.score, st.playerName) && r.score >= st.score
  {
    var p := PlayerPass(st);
    assert HitsAccounted(p, OuterPass(p, 0));
  }

  /** The laser pass still scores in the frame that ends the game: an asteroid on the
      player stops the run and records the score, and a laser then destroys another
      asteroid for 10 points that the table never sees. */
  lemma GameOverThenLaserHit(st: State)
    requires st.playerX == 400.0 && st.playerY == 500.0
    requires st.obstacles == [Obstacle(380.0, 480.0, 0.0, 3.0, 40.0), Obstacle(80.0, 80.0, 0.0, 3.0, 40.0)]
    requires st.lasers == [Laser(100.0, 100.0)]
    ensures var r := CheckCollisions(st);
      !r.gameRunning && r.highScores == UpdatedTable(st.highScores, st.score, st.playerName) &&
      r.score == st.score + 10 && r.obstacles == [Obstacle(380.0, 480.0, 0.0, 3.0, 40.0)] && r.lasers == []
  {
    assert PlayerHits(st.playerX, st.playerY, st.obstacles[0]);
    var p := PlayerPass(st);
    assert p == st.(gameRunning := false, highScores := UpdatedTable(st.highScores, st.score, st.playerName));
    SecondObstacleHit(p);
  }

  /** The laser pass of the scenario above: the laser misses the asteroid on the
      player and destroys the other one. */
  lemma SecondObstacleHit(p: State)
    requires p.obstacles == [Obstacle(380.0, 480.0, 0.0, 3.0, 40.0), Obstacle(80.0, 80.0, 0.0, 3.0, 40.0)]
    requires p.lasers == [Laser(100.0, 100.0)]
    ensures var r := LaserPass(p);
      r == p.(obstacles := [Obstacle(380.0, 480.0, 0.0, 3.0, 40.0)], lasers := [], score := p.score + 10,
              highScoreBeatenThisRun := p.highScoreBeatenThisRun || BeatsPositiveHighScore(p.highScores, p.score + 10))
  {
    var laser := Laser(100.0, 100.0);
    assert !LaserHits(laser, p.obstacles[0]);
    assert HitStep(p, laser, 0, 0) == p;
    assert LaserHits(laser, p.obstacles[1]);
    var hit := HitStep(p, laser, 0, 1);
    assert InnerPass(hit, laser, 0, 2) == hit;
    assert InnerPass(p, laser, 0, 0) == hit;
    assert OuterPass(hit, 1) == hit;
  }

  /** Because the laser pass reads the table the game-over has just written, a run
      whose best score before it started was 0 can still set the achievement latch:
      the score 50 is recorded over a table of zeros, and the laser hit that follows
      takes it to 60, above that new best of 50. */
  lemma LatchAgainstScoreJustRecorded(st: State)
    requires st.playerX == 400.0 && st.playerY == 500.0
    requires st.obstacles == [Obstacle(380.0, 480.0, 0.0, 3.0, 40.0), Obstacle(80.0, 80.0, 0.0, 3.0, 40.0)]
    requires st.lasers == [Laser(100.0, 100.0)]
    requires st.highScores == InitialTable && st.score == 50 && !st.highScoreBeatenThisRun
    ensures GetHighScore(st.highScores) == Some(0) && !BeatsPositiveHighScore(st.highScores, 60)
    ensures var r := CheckCollisions(st); r.score == 60 && r.highScoreBeatenThisRun
  {
    InitialTableHasDuplicates();
    GameOverThenLaserHit(st);
    var recorded := UpdatedTable(st.highScores, st.score, st.playerName);
    RecordingKeepsTheBest(st.highScores, st.score, st.playerName);
    assert GetHighScore(recorded) == Some(50);
    var p := PlayerPass(st);
    assert p.highScores == recorded;
    SecondObstacleHit(p);
  }

  // ---------------------------------------------------------------------------
  // Reaping

  /** The asteroid pass never lengthens the list; its survivors are the original
      asteroids at increasing indices, each moved unless the splice skipped it; and it
      only removes an asteroid that was off-screen after its move. */
  lemma ReapedObstaclesWereOffScreen(obstacles: seq<Obstacle>, width: nat, height: nat)
    ensures var idx := KeptFrom(obstacles, MoveObstacle, OffScreenIn(width, height), 0);
      |ReapObstacles(obstacles, width, height)| == |idx| <= |obstacles| &&
      Increasing(idx, 0, |obstacles|) &&
      SurvivorValues(obstacles, MoveObstacle, 0, idx, ReapObstacles(obstacles, width, height)) &&
      forall k :: 0 <= k < |obstacles| && k !in idx ==> OffScreen(MoveObstacle(obstacles[k]), width, height)
  {
    SplicePassSurvivors(obstacles, MoveObstacle, OffScreenIn(width, height));
  }

  /** The laser pass never lengthens the list; its survivors are the original lasers
      at increasing indices, each moved unless the splice skipped it; and it only
      removes a laser that was past the top after its move. */
  lemma ReapedLasersWereGone(lasers: seq<Laser>)
    ensures var idx := KeptFrom(lasers, MoveLaser, LaserGone, 0);
      |ReapLasers(lasers)| == |idx| <= |lasers| &&
      Increasing(idx, 0, |lasers|) &&
      SurvivorValues(lasers, MoveLaser, 0, idx, ReapLasers(lasers)) &&
      forall k :: 0 <= k < |lasers| && k !in idx ==> MoveLaser(lasers[k]).y < -20.0
  {
    SplicePassSurvivors(lasers, MoveLaser, LaserGone);
  }

  /** Of two neighbouring asteroids that both leave the field, the second survives the
      frame unmoved: the splice shifts it into the index already visited. */
  lemma ReapSkipsTheNextObstacle()
    ensures var first, second := Obstacle(0.0, 700.0, 0.0, 10.0, 50.0), Obstacle(100.0, 705.0, 0.0, 10.0, 50.0);
      OffScreen(MoveObstacle(first), 800, 600) && OffScreen(MoveObstacle(second), 800, 600) &&
      ReapObstacles([first, second], 800, 600) == [second]
  {
    var first, second := Obstacle(0.0, 700.0, 0.0, 10.0, 50.0), Obstacle(100.0, 705.0, 0.0, 10.0, 50.0);
    var drop := OffScreenIn(800, 600);
    assert SpliceFrom([first, second], MoveObstacle, drop, 0) == [second] + SpliceFrom([first, second], MoveObstacle, drop, 2);
  }

  // ---------------------------------------------------------------------------
  // The laser pass

  /** One laser touching three asteroids in a row: the first hit also splices out the
      other laser (the one that moved into its index), the second asteroid is skipped,
      and the third is hit by the same laser; 20 points, no lasers left. */
  lemma LaserPassDoubleHit(st: State)
    requires st.lasers == [Laser(100.0, 100.0), Laser(500.0, 500.0)]
    requires st.obstacles == [Obstacle(80.0, 80.0, 0.0, 3.0, 40.0), Obstacle(81.0, 80.0, 0.0, 3.0, 40.0),
                              Obstacle(82.0, 80.0, 0.0, 3.0, 40.0)]
    ensures var r := LaserPass(st);
      r.lasers == [] && r.obstacles == [Obstacle(81.0, 80.0, 0.0, 3.0, 40.0)] && r.score == st.score + 20
  {
    var s2 := InnerPass(st, st.lasers[0], 0, 0);
    FirstLaserHitsTwice(st);
    assert OuterPass(st, 0) == OuterPass(s2, 1);
  }

  /** The inner pass of the first laser in the scenario above. */
  lemma FirstLaserHitsTwice(st: State)
    requires st.lasers == [Laser(100.0, 100.0), Laser(500.0, 500.0)]
    requires st.obstacles == [Obstacle(80.0, 80.0, 0.0, 3.0, 40.0), Obstacle(81.0, 80.0, 0.0, 3.0, 40.0),
                              Obstacle(82.0, 80.0, 0.0, 3.0, 40.0)]
    ensures var r := InnerPass(st, Laser(100.0, 100.0), 0, 0);
      r.lasers == [] && r.obstacles == [Obstacle(81.0, 80.0, 0.0, 3.0, 40.0)] && r.score == st.score + 20
  {
    var laser := Laser(100.0, 100.0);
    var o2, o3 := Obstacle(81.0, 80.0, 0.0, 3.0, 40.0), Obstacle(82.0, 80.0, 0.0, 3.0, 40.0);
    assert LaserHits(laser, st.obstacles[0]);
    var s1 := HitStep(st, laser, 0, 0);
    assert s1.lasers == [Laser(500.0, 500.0)] && s1.obstacles == [o2, o3] && s1.score == st.score + 10;
    LastObstacleHit(s1, laser);
  }

  /** The same laser meets the asteroid that was third, now at index 1. */
  lemma LastObstacleHit(s1: State, laser: Laser)
    requires laser == Laser(100.0, 100.0) && s1.lasers == [Laser(500.0, 500.0)]
    requires s1.obstacles == [Obstacle(81.0, 80.0, 0.0, 3.0, 40.0), Obstacle(82.0, 80.0, 0.0, 3.0, 40.0)]
    ensures var r := InnerPass(s1, laser, 0, 1);
      r.lasers == [] && r.obstacles == [Obstacle(81.0, 80.0, 0.0, 3.0, 40.0)] && r.score == s1.score + 10
  {
    assert LaserHits(laser, s1.obstacles[1]);
    var s2 := HitStep(s1, laser, 0, 1);
    assert s2.lasers == [] && s2.obstacles == [Obstacle(81.0, 80.0, 0.0, 3.0, 40.0)];
    assert InnerPass(s2, laser, 0, 2) == s2;
  }

  /** With a best score of 100 and a score of 90, the first hit reaches 100 and does
      not set the latch; the second reaches 110, beats it and sets it. */
  lemma AchievementNeedsAStrictlyBetterScore(st: State)
    requires st.lasers == [Laser(100.0, 100.0), Laser(500.0, 500.0)]
    requires st.obstacles == [Obstacle(80.0, 80.0, 0.0, 3.0, 40.0), Obstacle(81.0, 80.0, 0.0, 3.0, 40.0),
                              Obstacle(82.0, 80.0, 0.0, 3.0, 40.0)]
    requires st.highScores == [Entry(100, "ACE")] && st.score == 90 && !st.highScoreBeatenThisRun
    ensures var r := LaserPass(st); r.score == 110 && r.highScoreBeatenThisRun
    ensures !BeatsPositiveHighScore(st.highScores, 100)
  {
    LaserPassDoubleHit(st);
    assert GetHighScore(st.highScores) == Some(100);
  }

  // ---------------------------------------------------------------------------
  // Handlers

  /** Pausing and resuming an active game is one frame. */
  lemma PauseThenResume(st: State, input: Input, draws: SpawnDraws, other: Input, otherDraws: SpawnDraws)
    requires Active(st)
    ensures TogglePause(TogglePause(st, other, otherDraws), input, draws) == Tick(st, input, draws)
  {
    assert TogglePause(st, other, otherDraws) == st.(gamePaused := true);
    assert st.(gamePaused := true).(gamePaused := false) == st;
  }

  /** A finished game cannot be paused or resumed. */
  lemma TogglePauseWhenStopped(st: State, input: Input, draws: SpawnDraws)
    requires !st.gameRunning
    ensures TogglePause(st, input, draws) == st
  {
  }

  /** The score is a non-negative multiple of 10: every change to it adds 10 or sets
      it to 0. */
  predicate ScoreInvariant(st: State)
  {
    MultipleOfTen(st.score)
  }

  /** `x` is reached from 0 in steps of 10. */
  predicate MultipleOfTen(x: int)
    decreases if x < 0 then 0 else x
  {
    x == 0 || (x >= 10 && MultipleOfTen(x - 10))
  }

  /** The steps of 10 are the non-negative numbers with remainder 0. */
  lemma {:induction false} MultipleOfTenIsRemainderZero(x: int)
    ensures MultipleOfTen(x) <==> x >= 0 && x % 10 == 0
    decreases if x < 0 then 0 else x
  {
    if x >= 10 {
      MultipleOfTenIsRemainderZero(x - 10);
      assert (x - 10) % 10 == x % 10;
    }
  }

  /** `n` steps of 10. */
  lemma {:induction false} TensAreMultiplesOfTen(d: int, n: nat)
    requires d == 10 * n
    ensures MultipleOfTen(d)
  {
    if n > 0 {
      TensAreMultiplesOfTen(d - 10, n - 1);
    }
  }

  /** Steps of 10 from a multiple of 10 end on one. */
  lemma {:induction false} RaisedByTens(before: int, after: int)
    requires MultipleOfTen(before) && MultipleOfTen(after - before)
    ensures MultipleOfTen(after)
    decreases if before < 0 then 0 else before
  {
    if before != 0 {
      RaisedByTens(before - 10, after - 10);
    }
  }

  /** A frame keeps the score a non-negative multiple of 10. */
  lemma TickKeepsScoreInvariant(st: State, input: Input, draws: SpawnDraws)
    requires ScoreInvariant(st)
    ensures ScoreInvariant(Tick(st, input, draws))
  {
    TickScoresInTens(st, input, draws);
    RaiseKeepsScoreInvariant(st, Tick(st, input, draws));
  }

  lemma RaiseKeepsScoreInvariant(before: State, after: State)
    requires ScoreInvariant(before) && RaisedInTens(before, after)
    ensures ScoreInvariant(after)
  {
    RaisedByTens(before.score, after.score);
  }

  /** Starting a game raises the score in tens (its first frame may score). */
  lemma StartGameScoresInTens(st: State, input: Input, draws: SpawnDraws)
    ensures RaisedInTens(st, StartGame(st, input, draws))
  {
    var started := st.(currentDifficulty := st.selectedDifficulty, highScoreBeatenThisRun := false, gameRunning := true);
    TickScoresInTens(started, input, draws);
    RaisedFromSameScore(started, st, Tick(started, input, draws));
  }

  /** Pausing or resuming raises the score in tens (resuming runs a frame). */
  lemma TogglePauseScoresInTens(st: State, input: Input, draws: SpawnDraws)
    ensures RaisedInTens(st, TogglePause(st, input, draws))
  {
    if st.gameRunning && st.gamePaused {
      var resumed := st.(gamePaused := false);
      TickScoresInTens(resumed, input, draws);
      RaisedFromSameScore(resumed, st, Tick(resumed, input, draws));
    } else {
      assert MultipleOfTen(0);
    }
  }

  /** The handlers that may run a frame keep the score a non-negative multiple of 10. */
  lemma FrameHandlersKeepScoreInvariant(st: State, input: Input, draws: SpawnDraws, typed: string)
    requires ScoreInvariant(st)
    ensures ScoreInvariant(StartGame(st, input, draws))
    ensures ScoreInvariant(TogglePause(st, input, draws))
    ensures ScoreInvariant(PressPlay(st, input, draws))
    ensures ScoreInvariant(SubmitName(st, typed, input, draws))
  {
    StartGameScoresInTens(st, input, draws);
    RaiseKeepsScoreInvariant(st, StartGame(st, input, draws));
    TogglePauseScoresInTens(st, input, draws);
    RaiseKeepsScoreInvariant(st, TogglePause(st, input, draws));
    match Names.ValidateName(typed)
    case Rejected(_) =>
    case Accepted(name) =>
      var named := st.(playerName := name);
      StartGameScoresInTens(named, input, draws);
      RaiseKeepsScoreInvariant(named, StartGame(named, input, draws));
  }

  /** The restarts reset the score to 0, whatever it was, and the pause menu's restart
      then only runs a frame. */
  lemma RestartsResetScoreInvariant(st: State, input: Input, draws: SpawnDraws)
    ensures RestartGame(st).score == 0 && MainMenu(st).score == 0
    ensures RestartFromPause(st, input, draws).score == 0
    ensures ScoreInvariant(RestartGame(st)) && ScoreInvariant(MainMenu(st))
    ensures ScoreInvariant(RestartFromPause(st, input, draws))
  {
    var cleared := st.(score := 0, playerX := StartX(st.gameWidth), playerY := StartY(st.gameHeight),
                       obstacles := [], lasers := [], frameCount := 0, highScoreBeatenThisRun := false);
    assert MultipleOfTen(0);
    ResumeAfterClearScoresNothing(cleared, input, draws);
  }

  /** The frame that resumes a cleared field is frame 1: no spawn rate divides 1, so
      no asteroid appears, nothing is hit and the score stays where it was. */
  lemma ResumeAfterClearScoresNothing(cleared: State, input: Input, draws: SpawnDraws)
    requires cleared.obstacles == [] && cleared.lasers == [] && cleared.frameCount == 0
    ensures TogglePause(cleared, input, draws).score == cleared.score
  {
    if cleared.gameRunning && cleared.gamePaused {
      var resumed := cleared.(gamePaused := false);
      var moved := Advance(resumed, input, draws);
      var counted := resumed.(frameCount := 1);
      assert !SpawnDue(MovePlayer(counted, input));
      assert moved.obstacles == [] && moved.lasers == [];
      assert !PlayerStruck(moved);
      assert CheckCollisions(moved) == moved;
    }
  }

  /** The handlers that never run a frame leave the score as it is. */
  lemma OtherHandlersKeepScore(st: State, d: Difficulty, w: nat, h: nat, saved: Option<seq<Entry>>)
    ensures Shoot(st).score == st.score && SelectDifficulty(st, d).score == st.score
    ensures Resize(st, w, h).score == st.score && LoadHighScores(st, saved).score == st.score
  {
  }

  /** Only the restarts set the score back: a frame, a start, a pause or resume, the
      play button and the name dialog never lower it. */
  lemma FramesNeverLowerTheScore(st: State, input: Input, draws: SpawnDraws, typed: string)
    ensures Tick(st, input, draws).score >= st.score
    ensures StartGame(st, input, draws).score >= st.score
    ensures TogglePause(st, input, draws).score >= st.score
    ensures PressPlay(st, input, draws).score >= st.score
    ensures SubmitName(st, typed, input, draws).score >= st.score
  {
    TickScoresInTens(st, input, draws);
    StartGameScoresInTens(st, input, draws);
    TogglePauseScoresInTens(st, input, draws);
    match Names.ValidateName(typed)
    case Rejected(_) =>
    case Accepted(name) =>
      StartGameScoresInTens(st.(playerName := name), input, draws);
  }

  /** Only starting a game and the pause menu's restart clear the achievement latch;
      every other handler keeps it set. */
  lemma OnlyStartsClearTheLatch(st: State, input: Input, draws: SpawnDraws, d: Difficulty,
                                w: nat, h: nat, saved: Option<seq<Entry>>)
    requires st.highScoreBeatenThisRun
    ensures Tick(st, input, draws).highScoreBeatenThisRun
    ensures TogglePause(st, input, draws).highScoreBeatenThisRun
    ensures RestartGame(st).highScoreBeatenThisRun
    ensures MainMenu(st).highScoreBeatenThisRun
    ensures Shoot(st).highScoreBeatenThisRun
    ensures SelectDifficulty(st, d).highScoreBeatenThisRun
    ensures Resize(st, w, h).highScoreBeatenThisRun
    ensures LoadHighScores(st, saved).highScoreBeatenThisRun
  {
    TickLatch(st, input, draws);
    TickLatch(st.(gamePaused := false), input, draws);
  }

  /** Starting clears the latch; the frame that follows may set it again only by
      beating a positive best score. */
  lemma StartGameLatch(st: State, input: Input, draws: SpawnDraws)
    ensures var r := StartGame(st, input, draws);
      r.highScoreBeatenThisRun ==> r.score > st.score && BeatsPositiveHighScore(r.highScores, r.score)
  {
    var started := st.(currentDifficulty := st.selectedDifficulty, highScoreBeatenThisRun := false, gameRunning := true);
    TickLatch(started, input, draws);
  }

  /** A shot is added only while playing, at the player's position, and survives its
      first move when the player is inside the field. */
  lemma ShootAddsOneLaser(st: State)
    requires Active(st) && st.playerY >= Inset
    ensures Shoot(st).lasers == st.lasers + [Laser(st.playerX, st.playerY - LaserOffset)]
    ensures !LaserGone(MoveLaser(Shoot(st).lasers[|st.lasers|]))
  {
    FreshLaserSurvivesFirstMove(st.playerX, st.playerY);
  }

  /** After a resize the player is inside the new field, and resizing twice to the
      same window is resizing once. */
  lemma ResizeKeepsPlayerInField(st: State, w: nat, h: nat)
    ensures var r := Resize(st, w, h);
      (r.gameWidth >= 60 ==> Inset <= r.playerX <= r.gameWidth as real - Inset) &&
      (r.gameHeight >= 60 ==> Inset <= r.playerY <= r.gameHeight as real - Inset)
    ensures Resize(Resize(st, w, h), w, h) == Resize(st, w, h)
  {
    var d := Viewport(w, h);
    ClampIdempotent(st.playerX, d.width);
    ClampIdempotent(st.playerY, d.height);
  }

  /** The pause menu's main-menu button and the restart button end in the same state. */
  lemma MainMenuIsRestart(st: State)
    ensures MainMenu(st) == RestartGame(st)
  {
  }

  /** The loaded page: the star field holds the formula's number of stars, all on the
      field with speeds in [1, 3); nothing is running and the score is 0; the table is
      the stored one or, failing that, five zero scores. */
  lemma InitialState(innerWidth: nat, innerHeight: nat, starDraws: seq<StarDraws>, saved: Option<seq<Entry>>)
    requires |starDraws| >= InitialStarCount(innerWidth, innerHeight)
    requires forall i :: 0 <= i < |starDraws| ==> ValidStarDraws(starDraws[i])
    ensures var st := Initial(innerWidth, innerHeight, starDraws, saved);
      |st.stars| == StarCount(st.gameWidth, st.gameHeight) && 50 <= |st.stars| <= 200 &&
      (forall i :: 0 <= i < |st.stars| ==>
        0.0 <= st.stars[i].y <= st.gameHeight as real && 1.0 <= st.stars[i].baseSpeed < 3.0) &&
      !st.gameRunning && !st.gamePaused && st.score == 0 && st.frameCount == 0 &&
      st.highScores == (if saved.Some? then saved.value else InitialTable)
  {
    var st := Initial(innerWidth, innerHeight, starDraws, saved);
    forall i | 0 <= i < |st.stars|
      ensures 0.0 <= st.stars[i].y <= st.gameHeight as real && 1.0 <= st.stars[i].baseSpeed < 3.0
    {
      NewStarOnField(starDraws[i], st.gameHeight);
    }
  }

  /** On EASY, frame 65 of a game with an empty field spawns an asteroid of size 50;
      from the top edge it falls at 3 per frame and is on the field after its move. */
  lemma EasySpawnFromTop(st: State, input: Input)
    requires Active(st) && st.currentDifficulty == Easy && st.frameCount == 64
    requires st.gameWidth == 800 && st.gameHeight == 600 && st.playerX == 400.0 && st.playerY == 500.0
    requires st.obstacles == [] && st.lasers == []
    requires input == Input(false, false, false, false, false, false, false, false)
    ensures var r := Tick(st, input, SpawnDraws(0.0, 0.5, 0.5));
      r.frameCount == 65 && r.obstacles == [Obstacle(400.0, -47.0, 0.0, 3.0, 50.0)] && r.gameRunning
  {
    var counted := st.(frameCount := 65);
    var moved := MovePlayer(counted, input);
    assert moved == counted;
    var spawned := Spawn(moved, SpawnDraws(0.0, 0.5, 0.5));
    assert spawned.obstacles == [Obstacle(400.0, -50.0, 0.0, 3.0, 50.0)];
    var reaped := Advance(st, input, SpawnDraws(0.0, 0.5, 0.5));
    assert reaped == Reap(MoveStars(spawned));
    assert reaped.obstacles == [Obstacle(400.0, -47.0, 0.0, 3.0, 50.0)] by {
      assert !OffScreen(Obstacle(400.0, -47.0, 0.0, 3.0, 50.0), 800, 600);
      assert SpliceFrom(spawned.obstacles, MoveObstacle, OffScreenIn(800, 600), 0) ==
        [Obstacle(400.0, -47.0, 0.0, 3.0, 50.0)] + SpliceFrom(spawned.obstacles, MoveObstacle, OffScreenIn(800, 600), 1);
    }
    assert reaped.lasers == [];
    assert !PlayerStruck(reaped) by {
      assert !PlayerHits(400.0, 500.0, Obstacle(400.0, -47.0, 0.0, 3.0, 50.0));
    }
    assert LaserPass(reaped) == reaped;
  }
}
