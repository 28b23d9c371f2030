/** The fixed numeric parameters of the game (constants.ts).
    Lengths are pixels, times are milliseconds, speeds are pixels per tick. */
module Constants {

  const GameWidth: real := 300.0
  const GameHeight: real := 360.0

  const PlayerWidth: real := 40.0
  const PlayerHeight: real := 20.0
  /** Styling class of the player; only the renderer reads it. */
  const PlayerColor: string := "bg-cyan-400"
  /** Horizontal distance of one move. */
  const PlayerSpeed: real := 25.0
  /** Positioned near the bottom: 360 - 20 - 20. */
  const PlayerInitialY: real := GameHeight - PlayerHeight - 20.0

  const ObstacleMinWidth: real := 30.0
  const ObstacleMaxWidth: real := 50.0
  const ObstacleHeight: real := 20.0
  const ObstacleColors: seq<string> := ["bg-pink-500", "bg-purple-500", "bg-orange-500", "bg-red-600"]
  const ObstacleInitialSpeed: real := 5.0
  const ObstacleSpeedIncrement: real := 0.8
  const ObstacleSpawnInterval: nat := 1200
  /** Declared by the game but read by nothing. */
  const MinObstacleSpawnInterval: nat := 150
  const MaxObstacleSpeed: real := 15.0

  const ScoreIncrement: nat := 10

  /** The largest x the player may take: its right edge then touches the wall. */
  const PlayerMaxX: real := GameWidth - PlayerWidth
  /** The centred starting x of the player. */
  const PlayerInitialX: real := (GameWidth - PlayerWidth) / 2.0

  /** The player lies fully inside the field, 20 pixels above its bottom. */
  lemma PlayerStartsInsideField()
    ensures PlayerInitialY == 320.0
    ensures 0.0 <= PlayerInitialY && PlayerInitialY + PlayerHeight <= GameHeight
  {
  }

  /** The clamp range [0, PlayerMaxX] is non-empty and holds the centred start. */
  lemma PlayerStartIsInRange()
    ensures PlayerMaxX == 260.0 && PlayerInitialX == 130.0
    ensures 0.0 <= PlayerInitialX <= PlayerMaxX
  {
  }

  /** Every drawable obstacle width leaves a non-empty range of x positions. */
  lemma SpawnRangeIsNonEmpty()
    ensures 0.0 < ObstacleMinWidth < ObstacleMaxWidth < GameWidth
    ensures GameWidth - ObstacleMaxWidth > 0.0
  {
  }

  /** The speed starts inside its cap and the per-tick ramp is positive. */
  lemma SpeedRampIsWellFormed()
    ensures 0.0 < ObstacleInitialSpeed <= MaxObstacleSpeed
    ensures ObstacleSpeedIncrement > 0.0
  {
  }

  /** The palette has four colours; the step, the reward and the intervals are positive and ordered. */
  lemma CountsArePositive()
    ensures |ObstacleColors| == 4
    ensures PlayerSpeed > 0.0 && ScoreIncrement > 0
    ensures 0 < MinObstacleSpawnInterval <= ObstacleSpawnInterval
  {
  }
}
