/** The game engine of App.tsx: the five pieces of state the component keeps
    (phase, score, player, obstacles, obstacle speed) and the handlers that
    change them. */
module Game {
  import opened Constants
  import opened Types
  import opened Rules

  /** The period of the game loop, in milliseconds. */
  const TickInterval: nat := 50

  /** The player as every session starts: centred, near the bottom. */
  const InitialPlayer: Player := Rect(PlayerInitialX, PlayerInitialY, PlayerWidth, PlayerHeight)

  class Engine {
    var gameState: GameState
    var score: nat
    var player: Player
    var obstacles: seq<Obstacle>
    var obstacleSpeed: real
    /** Source of obstacle ids; stands for the time-and-random id string. */
    var nextId: nat

    /** The engine's invariant: the player keeps its size and row and stays
        between the walls, the speed stays between its initial value and its
        cap, every obstacle lies in the field with an id already handed out,
        and the ids run strictly upwards through the list. */
    ghost predicate Valid()
      reads this
    {
      player.y == PlayerInitialY && player.width == PlayerWidth &&
      player.height == PlayerHeight && 0.0 <= player.x <= PlayerMaxX &&
      ObstacleInitialSpeed <= obstacleSpeed <= MaxObstacleSpeed &&
      (forall o :: o in obstacles ==> InField(o) && o.id < nextId) &&
      IdsIncreasing(obstacles)
    }

    /** The state before the first start: idle, nothing on the field. */
    constructor ()
      ensures Valid()
      ensures gameState == Idle && score == 0 && player == InitialPlayer
      ensures obstacles == [] && obstacleSpeed == ObstacleInitialSpeed && nextId == 0
    {
      gameState := Idle;
      score := 0;
      player := InitialPlayer;
      obstacles := [];
      obstacleSpeed := ObstacleInitialSpeed;
      nextId := 0;
    }

    /** Puts the player back to its start, empties the field and resets the
        score and the speed; the phase is left alone. */
    method Reset()
      requires Valid()
      modifies this
      ensures Valid()
      ensures player == InitialPlayer && obstacles == [] && score == 0
      ensures obstacleSpeed == ObstacleInitialSpeed
      ensures gameState == old(gameState) && nextId == old(nextId)
    {
      player := InitialPlayer;
      obstacles := [];
      score := 0;
      obstacleSpeed := ObstacleInitialSpeed;
    }

    /** Starts a session (from the start screen) or a new one (from the
        game-over screen): a full reset, then the phase becomes Playing. */
    method Start()
      requires Valid()
      modifies this
      ensures Valid()
      ensures gameState == Playing
      ensures player == InitialPlayer && obstacles == [] && score == 0
      ensures obstacleSpeed == ObstacleInitialSpeed && nextId == old(nextId)
    {
      Reset();
      gameState := Playing;
    }

    /** Ends the session. Only the collision scan of a tick calls it, so the
        phase is Playing, or already GameOver after an earlier hit in the same
        scan; doing it a second time changes nothing. */
    method EndGame()
      requires gameState != Idle
      modifies this`gameState
      ensures gameState == GameOver
    {
      gameState := GameOver;
    }

    /** One step left, stopped at the left wall; ignored unless Playing.
        Only the player's x can change. */
    method MoveLeft()
      requires Valid()
      modifies this`player
      ensures Valid()
      ensures player == if old(gameState) == Playing then old(player).(x := StepLeft(old(player).x)) else old(player)
    {
      if gameState != Playing {
        return;
      }
      player := player.(x := StepLeft(player.x));
    }

    /** One step right, stopped at the right wall; ignored unless Playing.
        Only the player's x can change. */
    method MoveRight()
      requires Valid()
      modifies this`player
      ensures Valid()
      ensures player == if old(gameState) == Playing then old(player).(x := StepRight(old(player).x)) else old(player)
    {
      if gameState != Playing {
        return;
      }
      player := player.(x := StepRight(player.x));
    }

    /** One run of the game loop; ignored unless Playing. The obstacles fall by
        the current speed and those that left the field are dropped; the
        collision test runs over the obstacles as they were BEFORE this fall,
        and a hit ends the session without cutting the rest of the tick short:
        the score still goes up by one and the speed still ramps. */
    method Tick()
      requires Valid()
      modifies this
      ensures Valid()
      ensures player == old(player) && nextId == old(nextId)
      ensures old(gameState) == Playing ==>
        && obstacles == Advance(old(obstacles), old(obstacleSpeed))
        && gameState == (if CollidesWithAny(old(player), old(obstacles)) then GameOver else Playing)
        && score == old(score) + 1
        && obstacleSpeed == RampSpeed(old(obstacleSpeed))
      ensures old(gameState) != Playing ==>
        && gameState == old(gameState) && score == old(score)
        && obstacles == old(obstacles) && obstacleSpeed == old(obstacleSpeed)
    {
      if gameState != Playing {
        return;
      }
      var snapshot := obstacles;
      AdvanceKeepsInField(snapshot, obstacleSpeed, nextId);
      AdvanceKeepsIdsIncreasing(snapshot, obstacleSpeed);
      obstacles := Advance(snapshot, obstacleSpeed);
      CheckCollisions(snapshot);
      score := score + 1;
      obstacleSpeed := RampSpeed(obstacleSpeed);
    }

    /** The collision scan of the game loop: every obstacle of `snapshot` that
        overlaps the player ends the session, later hits repeating the effect. */
    method CheckCollisions(snapshot: seq<Obstacle>)
      requires gameState == Playing
      modifies this`gameState
      ensures gameState == if CollidesWithAny(player, snapshot) then GameOver else Playing
    {
      var i := 0;
      while i < |snapshot|
        invariant 0 <= i <= |snapshot|
        invariant gameState == if CollidesWithAny(player, snapshot[..i]) then GameOver else Playing
      {
        CollidesWithAnyExtend(player, snapshot, i);
        if Overlaps(player, Bounds(snapshot[i])) {
          EndGame();
        }
        i := i + 1;
      }
      assert snapshot[..i] == snapshot;
    }

    /** One run of the spawner; ignored unless Playing. Appends exactly one new
        obstacle built from the three draws in [0, 1) (width, x, colour) with a
        fresh id, and adds ScoreIncrement to the score. */
    method Spawn(rWidth: real, rX: real, rColor: real)
      requires Valid()
      requires 0.0 <= rWidth < 1.0 && 0.0 <= rX < 1.0 && 0.0 <= rColor < 1.0
      modifies this
      ensures Valid()
      ensures gameState == old(gameState) && player == old(player)
      ensures obstacleSpeed == old(obstacleSpeed)
      ensures old(gameState) == Playing ==>
        && obstacles == old(obstacles) + [NewObstacle(old(nextId), rWidth, rX, rColor)]
        && score == old(score) + ScoreIncrement
        && nextId == old(nextId) + 1
      ensures old(gameState) != Playing ==>
        obstacles == old(obstacles) && score == old(score) && nextId == old(nextId)
    {
      if gameState != Playing {
        return;
      }
      var spawned := NewObstacle(nextId, rWidth, rX, rColor);
      obstacles := obstacles + [spawned];
      nextId := nextId + 1;
      score := score + ScoreIncrement;
    }
  }
}
