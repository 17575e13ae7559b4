/** The moving things of the play-field: asteroids, laser shots and background stars,
    how each one is created, moves and leaves the field (script.js:193-294, 345-394,
    733-768). Only the fields the simulation reads are kept; the DOM element of each
    object is not part of this model. */
module Entities {
  import opened Geometry
  import opened Difficulty

  /** An asteroid: top-left corner, velocity per frame and diameter. */
  datatype Obstacle = Obstacle(x: real, y: real, vx: real, vy: real, size: real)

  /** A laser shot, by its centre. */
  datatype Laser = Laser(x: real, y: real)

  /** A background star: its vertical position and its speed before the difficulty
      multiplier. */
  datatype Star = Star(y: real, baseSpeed: real)

  /** `playerSpeed`: how far one held direction moves the player per frame. */
  const PlayerSpeed: real := 7.0
  /** Collision radius of the player's ship. */
  const PlayerRadius: real := 20.0
  /** Collision radius of a laser shot. */
  const LaserRadius: real := 5.0
  /** How far a laser shot climbs per frame. */
  const LaserSpeed: real := 15.0
  /** A new shot appears this far above the player's centre. */
  const LaserOffset: real := 30.0

  /** A draw of `Math.random()`. */
  predicate IsDraw(r: real)
  {
    0.0 <= r < 1.0
  }

  /** The three draws `createObstacle` makes that decide the asteroid: which side it
      enters from, where along that side, and (from the top only) its sideways drift.
      The rotation draw only affects the picture. */
  datatype SpawnDraws = SpawnDraws(side: real, position: real, drift: real)

  predicate ValidSpawnDraws(d: SpawnDraws)
  {
    IsDraw(d.side) && IsDraw(d.position) && IsDraw(d.drift)
  }

  /** `createObstacle`: 70% of draws enter from the top edge at a random x falling at the
      profile's speed with a drift in [-1, 1); 15% from the left edge and 15% from the
      right edge, in the upper half of the field, moving diagonally inwards. */
  function NewObstacle(p: Profile, width: nat, height: nat, d: SpawnDraws): (o: Obstacle)
    ensures o.size == p.asteroidSize
    ensures d.side < 0.7 ==>
      o.y == -p.asteroidSize && o.vy == p.asteroidSpeed &&
      o.x == Scaled(d.position, width as real) && o.vx == (d.drift - 0.5) * 2.0
    ensures 0.7 <= d.side < 0.85 ==>
      o.x == -p.asteroidSize && o.vx == p.asteroidSpeed * 0.7 && o.vy == p.asteroidSpeed * 0.5
    ensures 0.85 <= d.side ==>
      o.x == width as real + p.asteroidSize && o.vx == -p.asteroidSpeed * 0.7 && o.vy == p.asteroidSpeed * 0.5
    ensures d.side >= 0.7 ==> o.y == Scaled(d.position, height as real) * 0.5
  {
    var size := p.asteroidSize;
    if d.side < 0.7 then
      Obstacle(Scaled(d.position, width as real), -size, (d.drift - 0.5) * 2.0, p.asteroidSpeed, size)
    else if d.side < 0.85 then
      Obstacle(-size, Scaled(d.position, height as real) * 0.5, p.asteroidSpeed * 0.7, p.asteroidSpeed * 0.5, size)
    else
      Obstacle(width as real + size, Scaled(d.position, height as real) * 0.5, -p.asteroidSpeed * 0.7, p.asteroidSpeed * 0.5, size)
  }

  /** One frame of asteroid motion. */
  function MoveObstacle(o: Obstacle): Obstacle
  {
    o.(x := o.x + o.vx, y := o.y + o.vy)
  }

  /** The reaping test for an asteroid: below the field by more than 100, or more than
      100 beyond either side. Above the field is never off-screen. */
  predicate OffScreen(o: Obstacle, width: nat, height: nat)
  {
    o.y > height as real + 100.0 || o.x < -100.0 || o.x > width as real + 100.0
  }

  /** An asteroid of any difficulty, entering the field, survives its first move: the
      reaping test never removes an asteroid the frame it was created. */
  lemma SpawnSurvivesFirstMove(diff: Difficulty, width: nat, height: nat, d: SpawnDraws)
    requires ValidSpawnDraws(d)
    ensures !OffScreen(MoveObstacle(NewObstacle(DifficultySettings(diff), width, height, d)), width, height)
  {
    if d.side < 0.7 {
      ScaledInRange(d.position, width as real);
    } else {
      ScaledInRange(d.position, height as real);
    }
  }

  /** `Math.random() * length`: a draw spread over a length. */
  function Scaled(r: real, len: real): real
  {
    r * len
  }

  /** A draw spread over a non-negative length stays within that length. */
  lemma ScaledInRange(r: real, len: real)
    requires IsDraw(r) && 0.0 <= len
    ensures 0.0 <= Scaled(r, len) <= len
  {
    ProductOfNonNegatives(r, len);
    ProductOfNonNegatives(1.0 - r, len);
  }

  lemma ProductOfNonNegatives(a: real, b: real)
    requires 0.0 <= a && 0.0 <= b
    ensures 0.0 <= a * b
  {
  }

  /** One frame of laser motion: straight up. */
  function MoveLaser(l: Laser): Laser
  {
    l.(y := l.y - LaserSpeed)
  }

  /** The reaping test for a laser shot: more than 20 above the top edge. */
  predicate LaserGone(l: Laser)
  {
    l.y < -20.0
  }

  /** A shot fired anywhere inside the field is not reaped on its first move. */
  lemma FreshLaserSurvivesFirstMove(playerX: real, playerY: real)
    requires playerY >= Inset
    ensures !LaserGone(MoveLaser(Laser(playerX, playerY - LaserOffset)))
  {
  }

  /** One frame of star motion, scaled by the difficulty's multiplier; a star that
      passes 10 below the bottom edge wraps to 10 above the top. */
  function MoveStar(s: Star, multiplier: real, height: nat): (m: Star)
    ensures m.baseSpeed == s.baseSpeed
    ensures m.y <= height as real + 10.0
    ensures s.y + s.baseSpeed * multiplier > height as real + 10.0 ==> m.y == -10.0
    ensures s.y + s.baseSpeed * multiplier <= height as real + 10.0 ==> m.y == s.y + s.baseSpeed * multiplier
  {
    var y := s.y + s.baseSpeed * multiplier;
    if y > height as real + 10.0 then s.(y := -10.0) else s.(y := y)
  }

  /** Stars keep within [-10, height + 10] once there, since they only move down. */
  lemma StarStaysInBand(s: Star, multiplier: real, height: nat)
    requires -10.0 <= s.y
    requires 0.0 <= s.baseSpeed && 0.0 <= multiplier
    ensures -10.0 <= MoveStar(s, multiplier, height).y <= height as real + 10.0
  {
    assert s.baseSpeed * multiplier >= 0.0;
  }

  /** The two draws a star keeps: its height as a fraction of the field and its speed. */
  datatype StarDraws = StarDraws(y: real, speed: real)

  predicate ValidStarDraws(d: StarDraws)
  {
    IsDraw(d.y) && IsDraw(d.speed)
  }

  /** A star as `initStars` leaves it: its height drawn over the field, its speed
      drawn in [1, 3). */
  function NewStar(d: StarDraws, height: nat): Star
  {
    Star(Scaled(d.y, height as real), d.speed * 2.0 + 1.0)
  }

  /** New stars lie on the field and have a speed in [1, 3). */
  lemma NewStarOnField(d: StarDraws, height: nat)
    requires ValidStarDraws(d)
    ensures 0.0 <= NewStar(d, height).y <= height as real
    ensures 1.0 <= NewStar(d, height).baseSpeed < 3.0
  {
    ScaledInRange(d.y, height as real);
  }

  /** The centre and radius of an asteroid's collision circle. */
  function CentreX(o: Obstacle): real { o.x + o.size / 2.0 }
  function CentreY(o: Obstacle): real { o.y + o.size / 2.0 }

  /** The player, a circle of radius 20, touches the asteroid. */
  predicate PlayerHits(playerX: real, playerY: real, o: Obstacle)
  {
    CheckCircleCollision(playerX, playerY, PlayerRadius, CentreX(o), CentreY(o), o.size / 2.0)
  }

  /** The laser, a circle of radius 5, touches the asteroid. */
  predicate LaserHits(l: Laser, o: Obstacle)
  {
    CheckCircleCollision(l.x, l.y, LaserRadius, CentreX(o), CentreY(o), o.size / 2.0)
  }
}
