/** The difficulty table, the star-count formula and the viewport choice
    (script.js:39-50, 160-182, 216-221, 784-794). */
module Difficulty {

  datatype Difficulty = Easy | Medium | Hard

  /** One row of the difficulty table. */
  datatype Profile = Profile(
    asteroidSpeed: real,
    spawnRate: int,
    asteroidSize: real,
    starSpeedMultiplier: real)

  /** `difficultySettings[d]`. */
  function DifficultySettings(d: Difficulty): (p: Profile)
    ensures p.spawnRate > 0 && p.asteroidSpeed > 0.0 && p.asteroidSize > 0.0 && p.starSpeedMultiplier > 0.0
    ensures p.asteroidSize <= 50.0 && p.asteroidSpeed <= 7.0
  {
    match d
    case Easy => Profile(3.0, 65, 50.0, 2.0)
    case Medium => Profile(5.0, 30, 45.0, 3.0)
    case Hard => Profile(7.0, 10, 40.0, 4.5)
  }

  /** Each step up in difficulty makes asteroids faster, more frequent and smaller, and
      the starfield faster. */
  lemma HarderIsHarder()
    ensures var e, m, h := DifficultySettings(Easy), DifficultySettings(Medium), DifficultySettings(Hard);
      e.asteroidSpeed < m.asteroidSpeed < h.asteroidSpeed &&
      e.spawnRate > m.spawnRate > h.spawnRate &&
      e.asteroidSize > m.asteroidSize > h.asteroidSize &&
      e.starSpeedMultiplier < m.starSpeedMultiplier < h.starSpeedMultiplier
  {
  }

  /** Full-HD reference area of the star-count formula. */
  const ReferenceArea: int := 1920 * 1080

  /** `Math.max(50, Math.min(200, Math.floor(900 * (w * h / (1920 * 1080)))))`. */
  function StarCount(w: nat, h: nat): (n: int)
    ensures 50 <= n <= 200
    ensures 50 < n < 200 ==> n * ReferenceArea <= 900 * w * h < (n + 1) * ReferenceArea
    ensures n == 50 ==> 900 * w * h < 51 * ReferenceArea
    ensures n == 200 ==> 200 * ReferenceArea <= 900 * w * h
  {
    var raw := 900 * w * h / ReferenceArea;
    if raw < 50 then 50 else if raw > 200 then 200 else raw
  }

  /** The viewport of the play-field, width first. */
  datatype Dims = Dims(width: int, height: int)

  /** A narrow (< 768) window that is taller than wide is played transposed. */
  predicate IsMobilePortrait(innerWidth: nat, innerHeight: nat)
  {
    innerWidth < 768 && innerHeight > innerWidth
  }

  function Viewport(innerWidth: nat, innerHeight: nat): (d: Dims)
    ensures IsMobilePortrait(innerWidth, innerHeight) ==> d == Dims(innerHeight, innerWidth)
    ensures !IsMobilePortrait(innerWidth, innerHeight) ==> d == Dims(innerWidth, innerHeight)
    ensures innerWidth < 768 ==> d.width >= d.height
    ensures d.width >= 0 && d.height >= 0
  {
    if IsMobilePortrait(innerWidth, innerHeight) then Dims(innerHeight, innerWidth)
    else Dims(innerWidth, innerHeight)
  }
}
