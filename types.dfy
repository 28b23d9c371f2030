/** The game's entities (types.ts). */
module Types {

  /** The three phases of a session. */
  datatype GameState = Idle | Playing | GameOver

  /** An axis-aligned rectangle; y grows downwards. The player is one. */
  datatype Rect = Rect(x: real, y: real, width: real, height: real)

  type Player = Rect

  /** A falling obstacle. The id only keys the rendering; here it is a counter
      value instead of a time-and-random string. The colour is a styling class. */
  datatype Obstacle = Obstacle(id: nat, x: real, y: real, width: real, height: real, color: string)

  /** The rectangle an obstacle occupies. */
  function Bounds(o: Obstacle): Rect
  {
    Rect(o.x, o.y, o.width, o.height)
  }
}
