# Space shooter core, modelled in Dafny

This project models the game logic of `script.js`, a browser asteroid shooter. The
player's ship moves around a fixed-size field. Asteroids spawn at the top and sides
at a difficulty-dependent rate and drift across the field. Laser shots climb from
the ship. A touching asteroid ends the run and records the score in a five-entry
high-score table. Each asteroid a laser destroys is worth 10 points. An achievement
latch goes up the first time in a run that the score beats a positive best score.

The model has these modules:

- `Geometry` (geometry.dfy): the circle-overlap test and the clamp that keeps the
  player 30 pixels inside the field.
- `Difficulty` (difficulty.dfy): the three difficulty profiles, the star-count
  formula, and the portrait-to-landscape swap of the viewport.
- `Names` (names.dfy): the name dialog. It trims the input, checks it is
  letters-only and upper-cases it.
- `HighScores` (high_scores.dfy): `getHighScore` and `updateHighScores`. The update
  skips a score already present, pushes the entry, sorts stably by descending score
  and keeps the first five.
- `Entities` (entities.dfy): asteroids, lasers and stars. Covers how each is
  created from the `Math.random()` draws it uses, how it moves, and when it counts
  as off-screen.
- `Splice` (splice.dfy): JavaScript's `forEach` over an array that the callback
  shrinks with `splice(index, 1)`. This is the pattern behind both reaping loops.
  It is given as a function, together with a method that walks the indices as the
  engine does and is proved equal to it.
- `Simulation` (simulation.dfy): the game's globals as one `State` value, with one
  function per part of `update()`, per collision pass and per event handler.
- `Properties` (properties.dfy): the properties of the whole game proved about
  those functions.
- `GameModel` (game.dfy): class `Game`, which holds the same globals in mutable
  fields. Its methods update the fields step by step, with the loops of the
  source. Each method that models a script function or handler is proved to leave
  `Snapshot()` equal to the corresponding `Simulation` function applied to the old
  snapshot. The smaller step methods (`EndRun`, `AddHitPoints`, `BeginRun`,
  `PlaceAtStart`, `ClearField`, `SteerByKeys`, `SteerByButtons`, `ClampPlayer`,
  `CreateObstacle`, `UpdateHighScores`) instead state their new state as an
  explicit update of the old one.

Three things about the source are modelled exactly as written, and lemmas pin
them down:

- **Both reaping loops skip an element after each removal.** Splicing during
  `forEach` shifts the next element into the index just visited. That element is
  neither moved nor tested in that frame.
- **One laser can destroy several asteroids in one pass.** `lasers.splice(lIndex, 1)`
  inside the inner loop does not stop it. Once the laser array has shrunk, the same
  call may remove a different laser, or none.
- **The laser pass runs after a game-over in the same frame.** It can still add
  points after the table has recorded the score, and its achievement test then
  compares against a table that already holds that score, so a run can set the
  latch against its own recorded score.

The code is followed wherever a plain reading of the game's rules would differ:

- The high-score table is not free of duplicate scores. It starts as five entries
  of 0.
- Removal during iteration does skip elements.
- The player pass does not stop at the first touching asteroid. It records the
  score once per touching asteroid, and the model proves the later recordings
  change nothing.
- The achievement test compares against the table as it stands during the run,
  not a best score fixed when the run started.

## Model

| member | source | states |
|---|---|---|
| Geometry.CheckCircleCollision | script.js:337-342 | the overlap test, compared squared; its meaning is stated by `CollisionIsDistanceBelowRadii`, `CollisionIsSymmetric` and `CollisionExamples` |
| Geometry.CollisionIsDistanceBelowRadii | script.js:337-342 | the squared-distance test holds exactly when the Euclidean distance between the centres is below the sum of the radii |
| Geometry.CollisionIsSymmetric | script.js:337-342 | swapping the two circles never changes the outcome |
| Geometry.CollisionExamples | script.js:337-342 | a laser inside an asteroid's circle hits it; the same laser 97 pixels away does not |
| Geometry.Clamp | script.js:722-723 | on a field at least 60 wide the result lies in [30, dim - 30], a value below 30 goes to 30, a value above dim - 30 goes to dim - 30, and a value already inside is unchanged; on a narrower field it is 30 |
| Geometry.ClampIdempotent | script.js:722-723 | clamping twice is clamping once |
| Difficulty.DifficultySettings | script.js:160-182 | every profile has positive speed, spawn rate, size and star multiplier, with size at most 50 and speed at most 7 |
| Difficulty.HarderIsHarder | script.js:160-182 | moving from easy to medium to hard makes asteroids strictly faster, smaller and more frequent, and stars faster |
| Difficulty.StarCount | script.js:216-222 | the star count lies between 50 and 200, and equals the floored area formula whenever that is in range |
| Difficulty.Viewport | script.js:38-50 | a narrow portrait window has its dimensions swapped, so the field is landscape; any other window is kept as it is |
| Names.TrimStart | script.js:472 | the result is a suffix of the input that starts with a non-whitespace character or is empty, and only whitespace was removed |
| Names.TrimEnd | script.js:472 | the result is a prefix of the input that ends with a non-whitespace character or is empty, and only whitespace was removed |
| Names.Trim | script.js:472 | `trim()`, as `TrimEnd` of `TrimStart`; stated by `TrimStart`, `TrimEnd`, `TrimOfTrimmed` and `TrimIsIdempotent` |
| Names.TrimOfTrimmed | script.js:472 | a string with no whitespace at either end is its own trim |
| Names.TrimIsIdempotent | script.js:472 | trimming twice is trimming once |
| Names.IsLettersOnly | script.js:481 | the `/^[a-zA-Z]+$/` test: non-empty and ASCII letters only; used by the contract of `ValidateName` |
| Names.ToUpperLetters | script.js:487 | same length; each letter is upper-cased in place; the result is letters-only capitals |
| Names.ValidateName | script.js:471-490 | the name is refused as empty exactly when it trims to nothing; it is refused as not letters-only exactly when the trimmed name is non-empty with a non-letter; otherwise it is accepted, and the accepted name is the trimmed input with each letter upper-cased in its place |
| Names.AcceptedNameIsStable | script.js:471-490 | submitting an accepted name again accepts the same name |
| Names.UpperCaseNameIsAccepted | script.js:480-487 | a name of capital letters is accepted unchanged |
| Names.NameWithDigitIsRejected | script.js:481-484 | the example "John3" is refused with the letters-only message (the general case is stated by `ValidateName`) |
| Names.LowerCaseNameIsUpperCased | script.js:486-487 | "john" is accepted as "JOHN" |
| Names.BlankNameIsEmpty | script.js:472-478 | the example " \t " is refused with the empty-name message (the general case is stated by `ValidateName`) |
| HighScores.Insert | script.js:109-110 | the stable descending insertion keeps every entry and adds exactly the new one (as a multiset) |
| HighScores.SortDesc | script.js:110 | the sort returns a permutation of its input in descending order of score |
| HighScores.Top | script.js:111 | the result is the first min(5, length) entries |
| HighScores.UpdatedTable | script.js:103-114 | a score already present leaves the table unchanged; otherwise the result has min(length + 1, 5) entries, is sorted by descending score, and holds only old entries and the new one |
| HighScores.GetHighScore | script.js:98-100 | the result is the maximum score of the table, or none for an empty table |
| HighScores.BeatsPositiveHighScore | script.js:399-403 | the achievement test `score > getHighScore() && getHighScore() > 0`, false for an empty table; stated by `Properties.AchievementNeedsAStrictlyBetterScore` and `Properties.TickLatch` |
| HighScores.SortDescIsStable | script.js:110 | for each score, the entries with that score keep their relative order |
| HighScores.StableSortIsUnique | script.js:110 | two descending tables with the same entries per score, in the same order, are equal, so any stable descending sort gives `SortDesc`'s result |
| HighScores.InsertIsStable | script.js:109-110 | insertion puts the new entry after every equal-scored entry already present |
| HighScores.WithScoreFinds | script.js:105 | a score is present exactly when the entries with that score are non-empty |
| HighScores.UpdatedTableIsTopOfStableSort | script.js:103-114 | for a new score, the update is the first five of any stable descending sort of the pushed table |
| HighScores.InsertKeepsSorted | script.js:110 | inserting into a descending table keeps it descending |
| HighScores.InsertIsBounded | script.js:110 | inserting an entry under a bound into a table under that bound keeps every score under it |
| HighScores.SortOfSorted | script.js:110 | sorting an already descending table returns it unchanged |
| HighScores.SortOfPushed | script.js:109-110 | sorting a table with one entry pushed is inserting that entry into the sorted table |
| HighScores.SortKeepsScores | script.js:110 | a score is in the sorted table exactly when it is in the table |
| HighScores.RecordedOrOutranked | script.js:103-114 | after the update, for any table, the new score is present, or the table holds five entries all with strictly higher scores |
| HighScores.NewScoreKeptWhenFewAbove | script.js:103-114 | a new score with fewer than five higher entries ends up in the table |
| HighScores.NewScoreDroppedWhenFiveAbove | script.js:103-114 | a new score with five entries at or above it leaves a table of five entries that all beat it |
| HighScores.DroppedTableIsPrefix | script.js:103-114 | a new score with five entries at or above it leaves the first five entries of the sorted old table |
| HighScores.UpdateTwiceIsUpdateOnce | script.js:103-114 | recording the same score twice gives the same table as recording it once |
| HighScores.OutrankedScoreIsDropped | script.js:103-114 | a full sorted table whose scores all beat the new one is left unchanged |
| HighScores.SortedHighScore | script.js:98-100 | the best score of a non-empty descending table is its first entry's |
| HighScores.RecordingKeepsTheBest | script.js:98-114 | the best score after an update is the larger of the old best and the new score, or the new score for an empty table |
| HighScores.HighScoreOfPushed | script.js:98-100 | the best score of a table with one entry pushed is the larger of the old best and that entry's score |
| HighScores.InitialTableHasDuplicates | script.js:71-77 | the starting table repeats score 0, recording 0 into it changes nothing, and its best is 0 |
| Entities.NewObstacle | script.js:235-280 | an asteroid has the profile's size; a side draw below 0.7 puts it just above the top edge at `position` times the width, falling at the profile's speed with sideways speed (drift - 0.5) * 2; a side draw in [0.7, 0.85) puts it just left of the field and a higher one just right of it, at half of `position` times the height, moving inwards at 0.7 and 0.5 of the speed |
| Entities.SpawnSurvivesFirstMove | script.js:235-280 | a new asteroid is not off-screen after its first move, for any difficulty and valid draws |
| Entities.MoveObstacle | script.js:745-747 | one frame of asteroid motion by its velocity; stated by `SpawnSurvivesFirstMove` and `Properties.ReapedObstaclesWereOffScreen` |
| Entities.OffScreen | script.js:752 | the reaping test for asteroids; stated by `SpawnSurvivesFirstMove` and `Properties.ReapedObstaclesWereOffScreen` |
| Entities.MoveLaser | script.js:760 | one frame of laser motion, 15 straight up; stated by `FreshLaserSurvivesFirstMove` and `Properties.ReapedLasersWereGone` |
| Entities.LaserGone | script.js:764 | the reaping test for lasers; stated by `FreshLaserSurvivesFirstMove` and `Properties.ReapedLasersWereGone` |
| Entities.PlayerHits | script.js:349-356 | the player as a circle of radius 20 against the asteroid's circle; stated by `Properties.GameOverRecordsScoreBeforeLasers` and `Simulation.PlayerPassRecordsScore` |
| Entities.LaserHits | script.js:379-386 | the laser as a circle of radius 5 against the asteroid's circle; stated by `Properties.LaserPassDoubleHit` and `Geometry.CollisionExamples` |
| Entities.FreshLaserSurvivesFirstMove | script.js:284-294 | a shot fired from inside the field is not reaped on its first move |
| Entities.MoveStar | script.js:733-742 | a star moves down by speed times multiplier and wraps to -10 once past height + 10, keeping its speed |
| Entities.StarStaysInBand | script.js:733-742 | a star with y at least -10, a non-negative speed and a non-negative multiplier stays within [-10, height + 10] |
| Entities.NewStarOnField | script.js:216-231 | a new star lies on the field with a speed in [1, 3) |
| Simulation.MovePlayer | script.js:694-723 | only the player's position changes, and on a field of at least 60 it ends 30 inside every edge |
| Simulation.Spawn | script.js:728-730 | when due, exactly one new asteroid is appended with the bound profile; otherwise nothing changes |
| Simulation.MoveStars | script.js:733-742 | only the stars change; there are as many as before, each moved by its own speed times the multiplier |
| Simulation.Reap | script.js:745-768 | only the asteroid and laser arrays change, and neither grows |
| Simulation.PlayerPass | script.js:347-373 | the closed form of the player loop, which `GameModel.Game.CheckPlayer` is proved to reach; stated by `PlayerPassRecordsScore` |
| Simulation.PlayerPassRecordsScore | script.js:347-373 | a touching asteroid stops the game with the score kept and recorded (in the table, or beaten by all five entries); with none nothing changes; a second pass changes nothing more |
| Simulation.HitStep | script.js:388-406 | one hit of the inner loop: both splices, 10 points and the latch test; stated by `HitStepAccounted` and `InnerPass` |
| Simulation.InnerPass | script.js:377-413 | the inner pass only removes asteroids and lasers it was given, adds exactly 10 per asteroid removed, removes no more lasers than asteroids, and sets the latch exactly when the score rose to beat a positive best |
| Simulation.OuterPass | script.js:376-414 | the whole laser pass keeps the same accounting as the inner pass |
| Simulation.CollisionsAccounted | script.js:345-415 | collision resolution at most ends the game, adds 10 per asteroid removed, keeps the player, frame counter, stars and settings, never clears the latch, and sets it only for a score that rose to beat a positive best |
| Simulation.Advance | script.js:690-768 | the frame counter rises by one, the player ends where `MovePlayer` puts it, and the score, table, latch, game flags, field size, difficulties and name are unchanged |
| Simulation.Tick | script.js:687-775 | one frame: nothing when not active, otherwise `Advance` then `CheckCollisions`; stated by `Properties.TickWhenInactive`, `TickCountsFrame`, `TickKeepsPlayerInField`, `TickScoresInTens`, `TickLatch` and `TickKeepsScoreInvariant` |
| Simulation.CheckCollisions | script.js:345-415 | the player pass, then the laser pass; stated by `CollisionsAccounted` and `Properties.GameOverRecordsScoreBeforeLasers` |
| Simulation.StartGame | script.js:441-455 | binds the difficulty, clears the latch, starts and runs a frame; stated by `Properties.StartGameLatch` and `StartGameScoresInTens` |
| Simulation.TogglePause | script.js:553-566 | nothing unless running; pausing sets the flag and resuming runs a frame; stated by `Properties.PauseThenResume`, `TogglePauseWhenStopped` and `TogglePauseScoresInTens` |
| Simulation.RestartGame | script.js:515-548 | back to the start screen with an empty field and score 0; stated by `Properties.RestartsResetScoreInvariant` and `MainMenuIsRestart` |
| Simulation.RestartFromPause | script.js:596-624 | an empty field, score 0 and a cleared latch, then `togglePause()`; stated by `Properties.RestartsResetScoreInvariant` |
| Simulation.MainMenu | script.js:627-635 | unpause, then the restart; stated by `Properties.MainMenuIsRestart` |
| Simulation.Shoot | script.js:284-294 | a laser 30 above the player, only while playing; stated by `Properties.ShootAddsOneLaser` |
| Simulation.SelectDifficulty | script.js:418-424 | records the chosen difficulty for the next start; stated by `Properties.OtherHandlersKeepScore` and `OnlyStartsClearTheLatch` |
| Simulation.PressPlay | script.js:457-468 | without a name nothing changes, otherwise the game starts; stated by `Properties.FrameHandlersKeepScoreInvariant` |
| Simulation.SubmitName | script.js:471-490 | a refused name changes nothing, an accepted one is stored upper-cased and the game starts; stated by `Properties.FrameHandlersKeepScoreInvariant` and `Names.ValidateName` |
| Simulation.Resize | script.js:784-799 | new viewport dimensions and the player clamped into them; stated by `Properties.ResizeKeepsPlayerInField` |
| Simulation.LoadHighScores | script.js:81-91 | a stored table replaces the current one; stated by `Properties.InitialState` and `OtherHandlersKeepScore` |
| Simulation.Initial | script.js:36-91 | the loaded page, with `StarCount` of the viewport stars made from the first draws; stated by `Properties.InitialState` |
| Splice.SpliceFrom | script.js:745-768 | the pass from an index never yields more elements than remain |
| Splice.ForEachSplice | script.js:745-768 | the index walk with in-place splicing ends in the array the pass function describes |
| Splice.SpliceAt | script.js:391-393 | `splice(k, 1)` removes the element at k when k is in range and otherwise nothing |
| Splice.SurvivorsFrom | script.js:745-768 | the survivors, in increasing original order, are exactly the elements not removed; each visited one was stepped and kept; each removed one was dropped after its step; the one after each removal is skipped |
| Splice.SplicePassSurvivors | script.js:745-768 | the whole pass never grows the array and its survivors are as `SurvivorsFrom` describes |
| Properties.TickWhenInactive | script.js:687-688 | a frame of a stopped or paused game changes nothing |
| Properties.TickCountsFrame | script.js:690 | an active frame raises the frame counter by one |
| Properties.TickKeepsPlayerInField | script.js:722-723 | after an active frame the player is 30 inside every edge of a field of at least 60 |
| Properties.TickScoresInTens | script.js:687-775 | a frame raises the score by a non-negative multiple of 10 |
| Properties.CollisionsScoreInTens | script.js:345-415 | collision resolution raises the score by a non-negative multiple of 10 |
| Properties.TickLatch | script.js:399-406 | a frame never clears the latch, and sets it only when the new score beats a positive best |
| Properties.GameOverRecordsScoreBeforeLasers | script.js:345-415 | on a player hit the run stops, the table holds the score from before the laser pass, and the score after the pass is no lower; that the pass does add points is shown by `GameOverThenLaserHit` |
| Properties.GameOverThenLaserHit | script.js:345-415 | an asteroid on the player and a laser on another asteroid in the same frame: the run stops with the old score recorded, and the laser pass still removes the other asteroid and the laser and adds 10 |
| Properties.SecondObstacleHit | script.js:376-414 | in that scenario the laser misses the asteroid on the player, destroys the other one for 10 points and sets the latch by the table as it stands |
| Properties.LatchAgainstScoreJustRecorded | script.js:399-406 | with the initial table of zeros, a score of 50 and that scenario, the game-over records 50 and the laser hit to 60 sets the latch, although 60 does not beat the best the table held before the frame |
| Properties.ReapedObstaclesWereOffScreen | script.js:745-756 | the asteroid pass keeps the original asteroids at increasing indices, each moved unless the splice skipped it, and removes only asteroids that were off-screen after their move |
| Properties.ReapedLasersWereGone | script.js:759-768 | the laser pass keeps the original lasers at increasing indices, each moved unless the splice skipped it, and removes only lasers above the top after their move |
| Properties.ReapSkipsTheNextObstacle | script.js:745-756 | of two neighbouring asteroids that both leave the field, the second stays in the array, unmoved |
| Properties.LaserPassDoubleHit | script.js:376-414 | one laser touching three neighbouring asteroids destroys two of them and also takes out the other laser: 20 points, no lasers left |
| Properties.FirstLaserHitsTwice | script.js:377-413 | in that scenario the first laser's inner pass removes both lasers and two asteroids |
| Properties.LastObstacleHit | script.js:377-413 | the laser then meets the asteroid that was third, now at index 1 |
| Properties.AchievementNeedsAStrictlyBetterScore | script.js:399-406 | with a best of 100 and a score of 90, reaching 100 does not set the latch and reaching 110 does |
| Properties.PauseThenResume | script.js:553-566 | pausing and resuming an active game is one frame |
| Properties.TogglePauseWhenStopped | script.js:553-554 | a game that is not running can be neither paused nor resumed |
| Properties.TickKeepsScoreInvariant | script.js:687-775 | a frame keeps the score a non-negative multiple of 10 |
| Properties.StartGameScoresInTens | script.js:441-455 | starting a game raises the score in tens |
| Properties.TogglePauseScoresInTens | script.js:553-566 | pausing or resuming raises the score in tens |
| Properties.FrameHandlersKeepScoreInvariant | script.js:441-490 | start, pause, play and name submission keep the score a non-negative multiple of 10 |
| Properties.RestartsResetScoreInvariant | script.js:515-548 | the restart, the main-menu button and the pause menu's restart (lines 596-624) leave the score exactly 0, whatever it was, and so keep the score invariant |
| Properties.ResumeAfterClearScoresNothing | script.js:553-566 | resuming a cleared field runs frame 1, where no spawn rate is due and nothing can be hit, so the score is unchanged |
| Properties.OtherHandlersKeepScore | script.js:284-294 | shooting, choosing a difficulty (lines 418-424), resizing (lines 784-799) and loading the table (lines 81-91) leave the score alone |
| Properties.FramesNeverLowerTheScore | script.js:687-775 | only the restarts lower the score |
| Properties.OnlyStartsClearTheLatch | script.js:441-455 | every handler except a start and the pause menu's restart keeps the latch set |
| Properties.StartGameLatch | script.js:441-455 | starting clears the latch, and the first frame sets it only by beating a positive best |
| Properties.ShootAddsOneLaser | script.js:284-294 | while playing, a shot appends one laser 30 above the player, which survives its first move |
| Properties.ResizeKeepsPlayerInField | script.js:784-799 | after a resize the player is inside the new field, and resizing twice to the same window is resizing once |
| Properties.MainMenuIsRestart | script.js:627-635 | the pause menu's main-menu button ends in the same state as the restart button |
| Properties.InitialState | script.js:36-91 | given enough valid draws, the loaded page has exactly `StarCount` of its field stars, so between 50 and 200, all on the field with speeds in [1, 3); no game is running, the score and frame counter are 0, and the table is the stored one or five zeros |
| Properties.EasySpawnFromTop | script.js:728-730 | on easy, frame 65 spawns a size-50 asteroid that falls at 3 per frame and is on the field after its move |
| GameModel.Game.constructor | script.js:36-91 | the loaded page's fields equal `Initial`: the star loop makes `StarCount` of the viewport stars from the first draws, then the stored table is loaded |
| GameModel.Game.LoadHighScores | script.js:81-91 | the table is replaced by the stored one when there is one |
| GameModel.Game.UpdateHighScores | script.js:103-114 | only the table changes, to the updated table |
| GameModel.Game.CreateObstacle | script.js:235-280 | only the asteroid array changes, with the new asteroid appended |
| GameModel.Game.Shoot | script.js:284-294 | the fields change as a shot does |
| GameModel.Game.MoveStarField | script.js:733-742 | the star loop moves every star as `MoveStars` says |
| GameModel.Game.CheckPlayer | script.js:347-373 | the player loop, which records once per touching asteroid, ends as the player pass does |
| GameModel.Game.EndRun | script.js:360-366 | only the running flag and the table change |
| GameModel.Game.HitObstacle | script.js:378-412 | one inner visit changes the fields as one hit step |
| GameModel.Game.AddHitPoints | script.js:394-406 | the score rises by 10 and the latch is set by a strictly better positive best |
| GameModel.Game.CheckLaser | script.js:377-413 | the inner loop, with its bound fixed at entry, ends as the inner pass |
| GameModel.Game.CheckCollisions | script.js:345-415 | the nested loops end as collision resolution |
| GameModel.Game.SteerByKeys | script.js:694-706 | each held key moves the player 7 in its direction |
| GameModel.Game.SteerByButtons | script.js:709-719 | each held on-screen arrow moves the player 7 in its direction |
| GameModel.Game.MovePlayer | script.js:694-723 | the player moves as `MovePlayer` says |
| GameModel.Game.ClampPlayer | script.js:722-723 | only the player's position changes, clamped into the field |
| GameModel.Game.MoveAndReap | script.js:745-768 | the two splicing loops end as the reaping passes |
| GameModel.Game.Update | script.js:687-775 | one call of the game loop changes the fields as one frame |
| GameModel.Game.StartGame | script.js:441-455 | the fields change as starting a game does |
| GameModel.Game.BeginRun | script.js:441-450 | the difficulty is bound, the latch cleared and the game running |
| GameModel.Game.TogglePause | script.js:553-566 | the fields change as pausing or resuming does |
| GameModel.Game.RestartGame | script.js:515-548 | the fields change as the restart does |
| GameModel.Game.PlaceAtStart | script.js:519-520 | the player returns to the bottom centre |
| GameModel.Game.ClearField | script.js:522-528 | the frame counter, asteroids and lasers are reset |
| GameModel.Game.RestartFromPause | script.js:596-624 | the fields change as the pause menu's restart does |
| GameModel.Game.MainMenu | script.js:627-635 | the fields change as the main-menu button does |
| GameModel.Game.SelectDifficulty | script.js:418-424 | only the selected difficulty changes |
| GameModel.Game.PressPlay | script.js:457-468 | the fields change as the play button does |
| GameModel.Game.SubmitName | script.js:471-490 | the fields change as the name dialog's start button does |
| GameModel.Game.Resize | script.js:784-799 | the fields change as a resize does |

## Left out

- Rendering and the DOM are not modelled: element creation and removal, explosions, screen shake, the fire effect, the achievement popup, score and best-score text, and `displayHighScores`/`updateHighScoreDisplay`.
- Persistence is not modelled. `saveHighScores` and its `localStorage` write are left out. `loadHighScores` takes the stored table, if any, as a parameter, and JSON parsing is not modelled.
- Event wiring, the `keys` map and the touch-arrow flags are left out. A frame receives which direction sources are held as booleans. The `P` and space keys become direct calls to `TogglePause` and `Shoot`.
- `requestAnimationFrame` scheduling is left out. The game loop is modelled one frame at a time.
- Fullscreen requests and touch-device detection affect nothing in the model.
- Randomness only in the picture is not modelled: star x, size and opacity, asteroid rotation, and the x a wrapped star takes. The other draws of `Math.random()` are parameters; the lemmas that rely on their range (`SpawnSurvivesFirstMove`, `NewStarOnField`, `InitialState`) require them to lie in [0, 1).
- `createStar`'s initial y is not modelled, because `initStars` overwrites it before any use.
- Numbers are exact reals, not IEEE-754 doubles. The square root in `checkCircleCollision` is replaced by an equivalent comparison of squares.
- Scores and the frame counter are unbounded integers. A stored table whose scores are not integers is not modelled.
- Difficulty keys are an enumeration, not strings. The profiles' display names are not modelled, because only the page text reads them.
- Initial: the star draws are a parameter that must supply at least the formula's number of pairs. Only the first that many are used.
- Names.ToUpperLetters: upper-cases ASCII letters only. The name check admits nothing else, so `toUpperCase` never sees other characters.
- HighScores.GetHighScore: an empty table gives none rather than `-Infinity`. Both fail the achievement test and compare the same way with a score.
