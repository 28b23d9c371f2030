/** The pure rules of the game loop in App.tsx: the overlap test, the clamped
    horizontal step, the speed ramp, the per-tick fall-and-cull of obstacles and
    the construction of a freshly spawned obstacle from three random draws. */
module Rules {
  import opened Constants
  import opened Types

  // ---------------------------------------------------------------- overlap

  /** Strict axis-aligned overlap of `a` (the player) with `b` (an obstacle). */
  predicate Overlaps(a: Rect, b: Rect)
  {
    a.x < b.x + b.width && a.x + a.width > b.x &&
    a.y < b.y + b.height && a.y + a.height > b.y
  }

  lemma OverlapsIsSymmetric(a: Rect, b: Rect)
    ensures Overlaps(a, b) <==> Overlaps(b, a)
  {
  }

  /** Rectangles that only share an edge, on either axis, do not overlap. */
  lemma SharedEdgeIsNoOverlap(a: Rect, b: Rect)
    requires a.x + a.width == b.x || b.x + b.width == a.x ||
             a.y + a.height == b.y || b.y + b.height == a.y
    ensures !Overlaps(a, b) && !Overlaps(b, a)
  {
  }

  /** A player that some obstacle of `obs` overlaps. */
  predicate CollidesWithAny(p: Player, obs: seq<Obstacle>)
  {
    exists k :: 0 <= k < |obs| && Overlaps(p, Bounds(obs[k]))
  }

  /** Scanning one more obstacle: the longer prefix collides exactly when the
      shorter one does or the new obstacle overlaps. */
  lemma CollidesWithAnyExtend(p: Player, obs: seq<Obstacle>, i: nat)
    requires i < |obs|
    ensures CollidesWithAny(p, obs[..i + 1]) <==>
      CollidesWithAny(p, obs[..i]) || Overlaps(p, Bounds(obs[i]))
  {
  }

  // --------------------------------------------------------- player moves

  /** The x after one move left: a full step, stopped at the left wall. */
  function StepLeft(x: real): (r: real)
    ensures 0.0 <= r
    ensures 0.0 <= x ==> r <= x
    ensures x - PlayerSpeed >= 0.0 ==> r == x - PlayerSpeed
    ensures x - PlayerSpeed < 0.0 ==> r == 0.0
  {
    if 0.0 > x - PlayerSpeed then 0.0 else x - PlayerSpeed
  }

  /** The x after one move right: a full step, stopped where the player's
      right edge meets the right wall. */
  function StepRight(x: real): (r: real)
    ensures r <= PlayerMaxX
    ensures x <= PlayerMaxX ==> x <= r
    ensures x + PlayerSpeed <= PlayerMaxX ==> r == x + PlayerSpeed
    ensures x + PlayerSpeed > PlayerMaxX ==> r == PlayerMaxX
  {
    if PlayerMaxX < x + PlayerSpeed then PlayerMaxX else x + PlayerSpeed
  }

  /** The x after `n` moves left in a row. */
  function LeftMoves(x: real, n: nat): real
    decreases n
  {
    if n == 0 then x else LeftMoves(StepLeft(x), n - 1)
  }

  /** The x after `n` moves right in a row. */
  function RightMoves(x: real, n: nat): real
    decreases n
  {
    if n == 0 then x else RightMoves(StepRight(x), n - 1)
  }

  /** `n` moves left from an x in range go `n` full steps left, but never past 0. */
  lemma {:induction false} LeftMovesClosedForm(x: real, n: nat)
    requires 0.0 <= x
    ensures LeftMoves(x, n) == if x - (n as real) * PlayerSpeed < 0.0 then 0.0 else x - (n as real) * PlayerSpeed
    decreases n
  {
    if n > 0 {
      LeftMovesClosedForm(StepLeft(x), n - 1);
    }
  }

  /** `n` moves right from an x in range go `n` full steps right, but never past PlayerMaxX. */
  lemma {:induction false} RightMovesClosedForm(x: real, n: nat)
    requires x <= PlayerMaxX
    ensures RightMoves(x, n) == if x + (n as real) * PlayerSpeed > PlayerMaxX then PlayerMaxX else x + (n as real) * PlayerSpeed
    decreases n
  {
    if n > 0 {
      RightMovesClosedForm(StepRight(x), n - 1);
    }
  }

  /** From the centred start, one move left gives 105; from the sixth move on
      the player rests at 0 and never goes negative. */
  lemma LeftMovesFromStart(n: nat)
    ensures LeftMoves(PlayerInitialX, 1) == 105.0
    ensures n < 6 ==> LeftMoves(PlayerInitialX, n) == 130.0 - (n as real) * 25.0
    ensures n >= 6 ==> LeftMoves(PlayerInitialX, n) == 0.0
  {
    LeftMovesClosedForm(PlayerInitialX, 1);
    LeftMovesClosedForm(PlayerInitialX, n);
  }

  // ------------------------------------------------------------ speed ramp

  /** The per-tick speed increase. */
  const SpeedStep: real := ObstacleSpeedIncrement / 100.0

  /** The speed after one tick: ramped up by SpeedStep, capped at MaxObstacleSpeed. */
  function RampSpeed(s: real): (r: real)
    ensures r <= MaxObstacleSpeed
    ensures s <= MaxObstacleSpeed ==> s < r || r == MaxObstacleSpeed
    ensures r == s + SpeedStep || r == MaxObstacleSpeed
    ensures r == MaxObstacleSpeed ==> s + SpeedStep >= MaxObstacleSpeed
  {
    if MaxObstacleSpeed < s + SpeedStep then MaxObstacleSpeed else s + SpeedStep
  }

  /** The speed after `n` ticks. */
  function SpeedAfter(s: real, n: nat): real
    decreases n
  {
    if n == 0 then s else SpeedAfter(RampSpeed(s), n - 1)
  }

  /** After `n` ticks the speed is the start plus `n` increments, capped. */
  lemma {:induction false} SpeedAfterClosedForm(s: real, n: nat)
    requires s <= MaxObstacleSpeed
    ensures SpeedAfter(s, n) == if s + (n as real) * SpeedStep > MaxObstacleSpeed then MaxObstacleSpeed else s + (n as real) * SpeedStep
    decreases n
  {
    if n > 0 {
      SpeedAfterClosedForm(RampSpeed(s), n - 1);
    }
  }

  /** Along any run of ticks the speed never decreases and never exceeds the cap. */
  lemma SpeedIsMonotoneAndBounded(s: real, n: nat, m: nat)
    requires ObstacleInitialSpeed <= s <= MaxObstacleSpeed
    requires n <= m
    ensures s <= SpeedAfter(s, n) <= SpeedAfter(s, m) <= MaxObstacleSpeed
  {
    SpeedAfterClosedForm(s, n);
    SpeedAfterClosedForm(s, m);
  }

  /** From the initial speed 5 the cap 15 is reached after exactly 1250 ticks. */
  lemma SpeedSaturatesAt1250(n: nat)
    ensures n < 1250 ==> SpeedAfter(ObstacleInitialSpeed, n) < MaxObstacleSpeed
    ensures n >= 1250 ==> SpeedAfter(ObstacleInitialSpeed, n) == MaxObstacleSpeed
  {
    SpeedAfterClosedForm(ObstacleInitialSpeed, n);
  }

  // ------------------------------------------------------ obstacle motion

  /** One obstacle after falling by `speed`. */
  function Fall(o: Obstacle, speed: real): Obstacle
  {
    o.(y := o.y + speed)
  }

  /** Every obstacle moved down by `speed`, in order (the `map` step). */
  function FallAll(obs: seq<Obstacle>, speed: real): (r: seq<Obstacle>)
    ensures |r| == |obs|
    ensures forall i :: 0 <= i < |obs| ==>
      r[i].y == obs[i].y + speed &&
      r[i].id == obs[i].id && r[i].x == obs[i].x && r[i].width == obs[i].width &&
      r[i].height == obs[i].height && r[i].color == obs[i].color
  {
    if obs == [] then [] else [Fall(obs[0], speed)] + FallAll(obs[1..], speed)
  }

  /** The obstacles still inside the field, in order (the `filter` step). */
  function OnScreen(obs: seq<Obstacle>): (r: seq<Obstacle>)
    ensures |r| <= |obs|
    ensures forall o :: o in r ==> o in obs && o.y < GameHeight
  {
    if obs == [] then []
    else (if obs[0].y < GameHeight then [obs[0]] else []) + OnScreen(obs[1..])
  }

  /** The obstacle list after one tick at speed `speed`. */
  function Advance(obs: seq<Obstacle>, speed: real): seq<Obstacle>
  {
    OnScreen(FallAll(obs, speed))
  }

  /** Nothing still inside the field is dropped. */
  lemma {:induction false} OnScreenKeepsVisible(obs: seq<Obstacle>, o: Obstacle)
    requires o in obs && o.y < GameHeight
    ensures o in OnScreen(obs)
  {
    if obs[0] != o {
      OnScreenKeepsVisible(obs[1..], o);
    }
  }

  /** Culling keeps the relative order: it works piecewise on a concatenation. */
  lemma {:induction false} OnScreenAppend(a: seq<Obstacle>, b: seq<Obstacle>)
    ensures OnScreen(a + b) == OnScreen(a) + OnScreen(b)
  {
    if a != [] {
      assert (a + b)[1..] == a[1..] + b;
      OnScreenAppend(a[1..], b);
    } else {
      assert a + b == b;
    }
  }

  /** A list lying wholly inside the field is kept as it is. */
  lemma {:induction false} OnScreenKeepsAllVisible(obs: seq<Obstacle>)
    requires forall k :: 0 <= k < |obs| ==> obs[k].y < GameHeight
    ensures OnScreen(obs) == obs
  {
    if obs != [] {
      OnScreenKeepsAllVisible(obs[1..]);
    }
  }

  /** A list lying wholly below the field is dropped entirely. */
  lemma {:induction false} OnScreenDropsAllHidden(obs: seq<Obstacle>)
    requires forall k :: 0 <= k < |obs| ==> obs[k].y >= GameHeight
    ensures OnScreen(obs) == []
  {
    if obs != [] {
      OnScreenDropsAllHidden(obs[1..]);
    }
  }

  /** Moving works piecewise on a concatenation. */
  lemma FallAllAppend(a: seq<Obstacle>, b: seq<Obstacle>, speed: real)
    ensures FallAll(a + b, speed) == FallAll(a, speed) + FallAll(b, speed)
  {
  }

  /** One tick keeps the relative order of the obstacles. */
  lemma AdvanceAppend(a: seq<Obstacle>, b: seq<Obstacle>, speed: real)
    ensures Advance(a + b, speed) == Advance(a, speed) + Advance(b, speed)
  {
    FallAllAppend(a, b, speed);
    OnScreenAppend(FallAll(a, speed), FallAll(b, speed));
  }

  /** After a tick, an obstacle is present exactly when it is some old obstacle moved
      down by `speed` that is still above the field's bottom edge. */
  lemma AdvanceMembers(obs: seq<Obstacle>, speed: real, o: Obstacle)
    ensures o in Advance(obs, speed) <==>
      exists k :: 0 <= k < |obs| && o == Fall(obs[k], speed) && o.y < GameHeight
  {
    var moved := FallAll(obs, speed);
    if o in Advance(obs, speed) {
      var k :| 0 <= k < |moved| && moved[k] == o;
      assert o == Fall(obs[k], speed);
    }
    if exists k :: 0 <= k < |obs| && o == Fall(obs[k], speed) && o.y < GameHeight {
      var k :| 0 <= k < |obs| && o == Fall(obs[k], speed) && o.y < GameHeight;
      assert moved[k] == o;
      OnScreenKeepsVisible(moved, o);
    }
  }

  /** The ids of a list, strictly increasing from front to back (hence distinct). */
  predicate IdsIncreasing(obs: seq<Obstacle>)
  {
    forall i, j :: 0 <= i < j < |obs| ==> obs[i].id < obs[j].id
  }

  /** Culling keeps the ids strictly increasing. */
  lemma {:induction false} OnScreenKeepsIdsIncreasing(obs: seq<Obstacle>)
    requires IdsIncreasing(obs)
    ensures IdsIncreasing(OnScreen(obs))
  {
    if obs != [] {
      var rest := OnScreen(obs[1..]);
      OnScreenKeepsIdsIncreasing(obs[1..]);
      forall o | o in rest
        ensures obs[0].id < o.id
      {
        var k :| 0 <= k < |obs[1..]| && obs[1..][k] == o;
        assert obs[k + 1] == o;
      }
    }
  }

  /** A tick keeps the ids strictly increasing. */
  lemma AdvanceKeepsIdsIncreasing(obs: seq<Obstacle>, speed: real)
    requires IdsIncreasing(obs)
    ensures IdsIncreasing(Advance(obs, speed))
  {
    OnScreenKeepsIdsIncreasing(FallAll(obs, speed));
  }

  /** An obstacle as the spawner makes it and as the tick keeps it: size from
      the allowed range, horizontally inside the field, vertically between its
      spawn height and the field's bottom, coloured from the palette. */
  predicate InField(o: Obstacle)
  {
    ObstacleMinWidth <= o.width < ObstacleMaxWidth &&
    o.height == ObstacleHeight &&
    0.0 <= o.x < GameWidth - o.width &&
    -ObstacleHeight <= o.y < GameHeight &&
    o.color in ObstacleColors
  }

  /** A tick at a non-negative speed keeps every obstacle in the field and
      introduces no new id. */
  lemma AdvanceKeepsInField(obs: seq<Obstacle>, speed: real, bound: nat)
    requires 0.0 <= speed
    requires forall o :: o in obs ==> InField(o) && o.id < bound
    ensures forall o :: o in Advance(obs, speed) ==> InField(o) && o.id < bound
  {
  }

  /** The cap on the speed (15) is below the sum of the two heights (40):
      an obstacle that overlaps the player horizontally and is about to reach
      the player's row from above overlaps it after that tick, and is still in
      the field: it cannot cross the player's row within one tick. The next
      tick's collision test sees it if the player has not moved away. */
  lemma CannotPassThroughPlayer(p: Player, o: Obstacle, speed: real)
    requires p.y == PlayerInitialY && p.height == PlayerHeight
    requires o.height == ObstacleHeight
    requires p.x < o.x + o.width && p.x + p.width > o.x
    requires 0.0 < speed <= MaxObstacleSpeed
    requires o.y + o.height <= p.y < o.y + speed + o.height
    ensures Overlaps(p, Bounds(Fall(o, speed)))
    ensures [Fall(o, speed)] == Advance([o], speed)
  {
  }

  // -------------------------------------------------------------- spawning

  /** The width drawn from `r` in [0, 1): uniform over [30, 50). */
  function DrawWidth(r: real): (w: real)
    requires 0.0 <= r < 1.0
    ensures ObstacleMinWidth <= w < ObstacleMaxWidth
  {
    r * (ObstacleMaxWidth - ObstacleMinWidth) + ObstacleMinWidth
  }

  /** The x drawn from `r` in [0, 1) for an obstacle of width `w`: uniform over
      [0, GameWidth - w), so the obstacle lies inside the field. */
  function DrawX(r: real, w: real): (x: real)
    requires 0.0 <= r < 1.0
    requires w < GameWidth
    ensures 0.0 <= x < GameWidth - w
  {
    Scale(r, GameWidth - w)
  }

  /** A draw `r` in [0, 1) scaled to [0, span). */
  function Scale(r: real, span: real): (v: real)
    requires 0.0 <= r < 1.0 && 0.0 < span
    ensures 0.0 <= v < span
  {
    assert 0.0 <= r * span;
    assert 0.0 < (1.0 - r) * span;
    r * span
  }

  /** The palette index drawn from `r` in [0, 1): floor(r * 4), always valid. */
  function DrawColorIndex(r: real): (k: nat)
    requires 0.0 <= r < 1.0
    ensures k < |ObstacleColors|
    ensures (k as real) <= r * (|ObstacleColors| as real) < (k as real) + 1.0
  {
    (r * (|ObstacleColors| as real)).Floor
  }

  /** The obstacle the spawner creates from three draws in [0, 1): it starts
      just above the field, has the obstacle height, and lies in the field. */
  function NewObstacle(id: nat, rWidth: real, rX: real, rColor: real): (o: Obstacle)
    requires 0.0 <= rWidth < 1.0 && 0.0 <= rX < 1.0 && 0.0 <= rColor < 1.0
    ensures o.id == id
    ensures o.y == -ObstacleHeight && o.height == ObstacleHeight
    ensures InField(o)
  {
    var w := DrawWidth(rWidth);
    Obstacle(id, DrawX(rX, w), -ObstacleHeight, w, ObstacleHeight, ObstacleColors[DrawColorIndex(rColor)])
  }
}
