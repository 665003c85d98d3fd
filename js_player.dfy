/** The player of the p5.js game (`Player` in sketch.js): position on an
    800 by 600 canvas in fractional pixels, health, score, aim, shooting
    cooldown and the power-up timer table. */
module JsPlayer {
  import opened Powerups
  import opened Entities

  const CanvasWidth: real := 800.0
  const CanvasHeight: real := 600.0
  const PlayerSize: real := 32.0
  const PlayerSpeed: real := 5.0
  const BoostedSpeed: real := 7.5
  const StartHealth: int := 40

  /** Offset from the player's corner to the corner of a bullet it fires:
      half the player minus half a 4-pixel bullet. */
  const Muzzle: real := 14.0

  /** The step `move` takes: one and a half times the base speed while
      Speed Boost runs. */
  function Stride(t: Timers): (r: real)
    ensures r == PlayerSpeed || r == BoostedSpeed
    ensures r == BoostedSpeed <==> t.Get(SpeedBoost) > 0
  {
    if t.Get(SpeedBoost) > 0 then 1.5 * PlayerSpeed else PlayerSpeed
  }

  /** Positions `move` can reach from the centre: an edge of the canvas
      may be overshot by less than one boosted step. */
  predicate InBand(x: real, y: real) {
    -BoostedSpeed < x < CanvasWidth - PlayerSize + BoostedSpeed &&
    -BoostedSpeed < y < CanvasHeight - PlayerSize + BoostedSpeed
  }

  /** The position after `move(dir)` with step `step`: taken only while
      the coordinate is strictly inside the canvas on the side it moves
      towards.  At most one coordinate changes, by exactly `step`, and the
      band of reachable positions is never left. */
  function Stepped(dir: Direction, x: real, y: real, step: real): (r: (real, real))
    requires step == PlayerSpeed || step == BoostedSpeed
    ensures r == (x, y) || (r.1 == y && (r.0 == x - step || r.0 == x + step))
                        || (r.0 == x && (r.1 == y - step || r.1 == y + step))
    ensures r.0 < x ==> dir == Left && x > 0.0
    ensures r.0 > x ==> dir == Right && x < CanvasWidth - PlayerSize
    ensures r.1 < y ==> dir == Up && y > 0.0
    ensures r.1 > y ==> dir == Down && y < CanvasHeight - PlayerSize
    ensures InBand(x, y) ==> InBand(r.0, r.1)
  {
    match dir
    case Left => if x > 0.0 then (x - step, y) else (x, y)
    case Right => if x < CanvasWidth - PlayerSize then (x + step, y) else (x, y)
    case Up => if y > 0.0 then (x, y - step) else (x, y)
    case Down => if y < CanvasHeight - PlayerSize then (x, y + step) else (x, y)
  }

  /** The facing `updateAim` gives an aim angle: the quarter turn around
      right, down, up or left.  Unlike the Python game, the boundary angle
      -pi/4 itself counts as up. */
  function Sector(angle: real, pi: real): (d: Direction)
    ensures pi > 0.0 && -pi / 4.0 < angle < pi / 4.0 ==> d == Right
    ensures pi > 0.0 && pi / 4.0 <= angle < 3.0 * pi / 4.0 ==> d == Down
    ensures pi > 0.0 && -3.0 * pi / 4.0 <= angle <= -pi / 4.0 ==> d == Up
    ensures pi > 0.0 && (angle < -3.0 * pi / 4.0 || 3.0 * pi / 4.0 <= angle) ==> d == Left
  {
    if -pi / 4.0 < angle < pi / 4.0 then Right
    else if pi / 4.0 <= angle < 3.0 * pi / 4.0 then Down
    else if -3.0 * pi / 4.0 <= angle <= -pi / 4.0 then Up
    else Left
  }

  class Player {
    var x: real
    var y: real
    var angle: real
    var facing: Direction
    var speed: real
    const baseSpeed: real
    var health: int
    var score: int
    var shootCooldown: int
    var timers: Timers

    /** Health never exceeds the starting 40 (the collision pass may take
        it below 0); the score is non-negative; the cooldown is at most 10;
        every timer is non-negative; the position stays in the band `move`
        allows; and the speed field is boosted exactly while the Speed
        Boost timer runs. */
    ghost predicate Valid()
      reads this
    {
      && health <= StartHealth
      && 0 <= score
      && 0 <= shootCooldown <= 10
      && WellFormed(timers)
      && InBand(x, y)
      && baseSpeed == PlayerSpeed
      && speed == Stride(timers)
    }

    constructor ()
      ensures Valid()
      ensures x == CanvasWidth / 2.0 - PlayerSize / 2.0 && y == CanvasHeight / 2.0 - PlayerSize / 2.0
      ensures angle == 0.0 && facing == Right && speed == PlayerSpeed
      ensures health == StartHealth && score == 0 && shootCooldown == 0 && timers == Idle
    {
      x := CanvasWidth / 2.0 - PlayerSize / 2.0;
      y := CanvasHeight / 2.0 - PlayerSize / 2.0;
      angle, facing := 0.0, Right;
      speed, baseSpeed := PlayerSpeed, PlayerSpeed;
      health, score, shootCooldown := StartHealth, 0, 0;
      timers := Idle;
      new;
      IdleWellFormed();
    }

    /** `updateAim`: the aim angle is the arc tangent (computed by the host
        maths library) of the offset from the player's centre to the
        mouse, and the facing is the quarter turn around it. */
    method UpdateAim(mouseX: real, mouseY: real, atan2: (real, real) -> real, pi: real)
      requires Valid()
      modifies this`angle, this`facing
      ensures Valid()
      ensures angle == atan2(mouseY - (y + PlayerSize / 2.0), mouseX - (x + PlayerSize / 2.0))
      ensures facing == Sector(angle, pi)
    {
      var dx := mouseX - (x + PlayerSize / 2.0);
      var dy := mouseY - (y + PlayerSize / 2.0);
      angle := atan2(dy, dx);
      if angle > -pi / 4.0 && angle < pi / 4.0 {
        facing := Right;
      } else if angle >= pi / 4.0 && angle < 3.0 * pi / 4.0 {
        facing := Down;
      } else if angle >= -3.0 * pi / 4.0 && angle <= -pi / 4.0 {
        facing := Up;
      } else {
        facing := Left;
      }
    }

    /** `move`: one step of the current stride (boosted while Speed Boost
        runs) towards `dir`; the facing is left alone. */
    method Move(dir: Direction)
      requires Valid()
      modifies this`x, this`y
      ensures Valid()
      ensures (x, y) == Stepped(dir, old(x), old(y), Stride(timers))
    {
      var currentSpeed := if timers.Get(SpeedBoost) > 0 then baseSpeed * 1.5 else baseSpeed;
      if dir == Left && x > 0.0 {
        x := x - currentSpeed;
      } else if dir == Right && x < CanvasWidth - PlayerSize {
        x := x + currentSpeed;
      } else if dir == Up && y > 0.0 {
        y := y - currentSpeed;
      } else if dir == Down && y < CanvasHeight - PlayerSize {
        y := y + currentSpeed;
      }
    }

    /** `shoot`: one bullet along the aim, or a volley of three spread by
        0.1 radians while Rapid Fire runs; all start at the muzzle. */
    method Shoot() returns (shots: seq<Bullet>)
      requires WellFormed(timers)
      ensures |shots| == (if timers.Get(RapidFire) > 0 then 3 else 1)
      ensures forall k :: 0 <= k < |shots| ==>
        shots[k] == Bullet(x + Muzzle, y + Muzzle, shots[k].angle, Gun)
      ensures |shots| == 1 ==> shots[0].angle == angle
      ensures |shots| == 3 ==>
        shots[0].angle == angle - Spread && shots[1].angle == angle && shots[2].angle == angle + Spread
      ensures shots == Shots(x + Muzzle, y + Muzzle, angle, timers.Get(RapidFire) > 0)
    {
      var sx := x + PlayerSize / 2.0 - 2.0;
      var sy := y + PlayerSize / 2.0 - 2.0;
      shots := [];
      if timers.Get(RapidFire) > 0 {
        for i := -1 to 2
          invariant |shots| == i + 1
          invariant forall k :: 0 <= k < |shots| ==> shots[k] == Bullet(sx, sy, angle + (k - 1) as real * Spread, Gun)
        {
          shots := shots + [Bullet(sx, sy, angle + i as real * Spread, Gun)];
        }
      } else {
        shots := [Bullet(sx, sy, angle, Gun)];
      }
    }

    /** `applyPowerup`: the timer of the picked kind is overwritten with
        its full duration; Speed Boost also boosts the speed at once. */
    method ApplyPowerup(k: Kind) returns (message: string)
      requires Valid()
      modifies this`timers, this`speed
      ensures Valid()
      ensures timers == Grant(old(timers), k)
      ensures speed == (if k == SpeedBoost then BoostedSpeed else old(speed))
      ensures message == Name(k) + " activated!"
    {
      timers := timers.Set(k, Duration(k));
      if k == SpeedBoost {
        speed := baseSpeed * 1.5;
      }
      message := Name(k) + " activated!";
    }

    /** `Player.updatePowerups`: one frame of every timer, in table order;
        the speed drops back to the base speed on the frame the Speed
        Boost timer reaches 0. */
    method UpdatePowerups()
      requires Valid()
      modifies this`timers, this`speed
      ensures Valid()
      ensures timers == Tick(old(timers))
      ensures speed == (if old(timers).Get(SpeedBoost) == 1 then PlayerSpeed else old(speed))
    {
      var i := 0;
      while i < |Kinds|
        invariant 0 <= i <= |Kinds|
        invariant forall k :: timers.Get(k) == (if k in Kinds[..i] then TickOne(old(timers).Get(k)) else old(timers).Get(k))
        invariant speed == (if SpeedBoost in Kinds[..i] && old(timers).Get(SpeedBoost) == 1 then baseSpeed else old(speed))
      {
        var name := Kinds[i];
        assert name !in Kinds[..i];
        assert Kinds[..i + 1] == Kinds[..i] + [name];
        if timers.Get(name) > 0 {
          timers := timers.Set(name, timers.Get(name) - 1);
          if timers.Get(name) <= 0 {
            if name == SpeedBoost {
              speed := baseSpeed;
            }
          }
        }
        i := i + 1;
      }
      forall k: Kind ensures k in Kinds[..i] {
        KindsListsEveryKind(k);
      }
      TimersAgree(timers, Tick(old(timers)));
    }

    /** `takeDamage`: nothing happens while the shield runs (the answer is
        then false); otherwise health drops by `amount`, clamped at 0, and
        the answer says whether it reached 0. */
    method TakeDamage(amount: int) returns (dead: bool)
      requires Valid() && amount >= 0
      modifies this`health
      ensures Valid()
      ensures timers.Get(Shield) > 0 ==> !dead && health == old(health)
      ensures timers.Get(Shield) <= 0 ==>
        health == (if old(health) - amount <= 0 then 0 else old(health) - amount) && (dead <==> health == 0)
    {
      if timers.Get(Shield) > 0 {
        return false;
      }
      health := health - amount;
      if health <= 0 {
        health := 0;
        return true;
      }
      return false;
    }
  }
}
