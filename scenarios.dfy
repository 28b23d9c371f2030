/** Concrete sessions, with the exact values the engine produces. */
module Scenarios {
  import opened Constants
  import opened Types
  import opened Rules
  import opened Game

  /** From the centred start, left moves give 105, 80, 55, 30, 5 and then 0,
      where the player stays. */
  method LeftWallScenario() returns (xs: seq<real>)
    ensures xs == [130.0, 105.0, 80.0, 55.0, 30.0, 5.0, 0.0, 0.0]
  {
    var e := new Engine();
    e.Start();
    xs := [e.player.x];
    e.MoveLeft();
    xs := xs + [e.player.x];
    e.MoveLeft();
    xs := xs + [e.player.x];
    e.MoveLeft();
    xs := xs + [e.player.x];
    e.MoveLeft();
    xs := xs + [e.player.x];
    e.MoveLeft();
    xs := xs + [e.player.x];
    e.MoveLeft();
    xs := xs + [e.player.x];
    e.MoveLeft();
    xs := xs + [e.player.x];
  }

  /** Before the first start every event is ignored: the session stays idle
      and in particular cannot reach GameOver without passing through Playing. */
  method IdleScenario() returns (phase: GameState, score: nat, x: real, count: nat)
    ensures phase == Idle && score == 0 && x == 130.0 && count == 0
  {
    var e := new Engine();
    e.MoveLeft();
    e.MoveRight();
    e.Spawn(0.5, 0.5, 0.5);
    e.Tick();
    phase, score, x, count := e.gameState, e.score, e.player.x, |e.obstacles|;
  }

  /** One spawn with all draws 0.5, then one tick: a 40-wide obstacle at x 130
      in the third colour, fallen from -20 to -15; score 10 + 1; speed 5.008. */
  method SpawnThenTickScenario() returns (obs: seq<Obstacle>, phase: GameState, score: nat, speed: real)
    ensures obs == [Obstacle(0, 130.0, -15.0, 40.0, 20.0, "bg-orange-500")]
    ensures phase == Playing && score == 11 && speed == 5.008
  {
    var e := new Engine();
    e.Start();
    e.Spawn(0.5, 0.5, 0.5);
    e.Tick();
    obs, phase, score, speed := e.obstacles, e.gameState, e.score, e.obstacleSpeed;
  }

  /** An obstacle lying over the player when the tick begins ends the session;
      the same tick still moves it, adds 1 to the score and ramps the speed.
      The obstacle is placed into the state directly, in a position that the
      invariant allows. */
  method CollisionScenario() returns (obs: seq<Obstacle>, phase: GameState, score: nat, speed: real)
    ensures obs == [Obstacle(0, 140.0, 330.0, 30.0, 20.0, "bg-pink-500")]
    ensures phase == GameOver && score == 1 && speed == 5.008
  {
    var e := new Engine();
    e.Start();
    var hit := Obstacle(0, 140.0, 325.0, 30.0, 20.0, "bg-pink-500");
    e.obstacles, e.nextId := [hit], 1;
    e.Tick();
    obs, phase, score, speed := e.obstacles, e.gameState, e.score, e.obstacleSpeed;
  }

  /** After a session ended by a colliding tick, the restart leaves exactly the
      state a first start does. The colliding obstacle is placed into the
      state directly. */
  method RestartScenario() returns (phase: GameState, score: nat, obs: seq<Obstacle>, speed: real, p: Player)
    ensures phase == Playing && score == 0 && obs == [] && speed == 5.0
    ensures p == Rect(130.0, 320.0, 40.0, 20.0)
  {
    var e := new Engine();
    e.Start();
    e.Spawn(0.25, 0.75, 0.9);
    e.MoveRight();
    e.Tick();
    var hit := Obstacle(e.nextId, 140.0, 325.0, 30.0, 20.0, "bg-pink-500");
    e.obstacles, e.nextId := [hit], e.nextId + 1;
    e.Tick();
    assert e.gameState == GameOver;
    e.Start();
    phase, score, obs, speed, p := e.gameState, e.score, e.obstacles, e.obstacleSpeed, e.player;
  }

  /** A tick leaves an obstacle overlapping the player without ending the
      session, because the test reads the list from before the fall; a move
      left before the next tick escapes it. The obstacle is placed into the
      state directly. */
  method EscapeScenario() returns (overlapBetween: bool, x: real, phase: GameState)
    ensures overlapBetween && x == 105.0 && phase == Playing
  {
    var e := new Engine();
    e.Start();
    e.obstacles, e.nextId := [Obstacle(0, 160.0, 296.0, 30.0, 20.0, "bg-purple-500")], 1;
    e.Tick();
    assert e.gameState == Playing;
    assert e.obstacles == [Obstacle(0, 160.0, 301.0, 30.0, 20.0, "bg-purple-500")];
    overlapBetween := CollidesWithAny(e.player, e.obstacles);
    e.MoveLeft();
    e.Tick();
    x, phase := e.player.x, e.gameState;
  }

  /** The collision test runs a tick behind the fall: an obstacle that moves onto
      the player during a tick is not caught by that tick. */
  lemma CollisionLagsOneTick()
    ensures !CollidesWithAny(InitialPlayer, [Obstacle(0, 140.0, 296.0, 30.0, 20.0, "bg-red-600")])
    ensures Advance([Obstacle(0, 140.0, 296.0, 30.0, 20.0, "bg-red-600")], 5.0)
         == [Obstacle(0, 140.0, 301.0, 30.0, 20.0, "bg-red-600")]
    ensures CollidesWithAny(InitialPlayer, [Obstacle(0, 140.0, 301.0, 30.0, 20.0, "bg-red-600")])
  {
  }

  /** An obstacle at y 340 that falls by 10 reaches 350 and stays; falling by 25
      it reaches 365 and is dropped. */
  lemma CullScenario()
    ensures Advance([Obstacle(0, 100.0, 340.0, 30.0, 20.0, "bg-pink-500")], 10.0)
         == [Obstacle(0, 100.0, 350.0, 30.0, 20.0, "bg-pink-500")]
    ensures Advance([Obstacle(0, 100.0, 340.0, 30.0, 20.0, "bg-pink-500")], 25.0) == []
  {
  }
}
