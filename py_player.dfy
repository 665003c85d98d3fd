/** The player of the Python game (`Player` in main.py): position on a
    640 by 480 screen, health, score, aim, and the power-up timer table. */
module PyPlayer {
  import opened Powerups
  import opened Entities

  const ScreenWidth: int := 640
  const ScreenHeight: int := 480
  const PlayerSize: int := 32
  const PlayerSpeed: int := 5
  const BulletSize: int := 4
  const MaxHealth: int := 100

  /** Offset from the player's corner to the corner of a bullet it fires:
      the player's centre minus half a bullet (14). */
  const Muzzle: int := PlayerSize / 2 - BulletSize / 2

  /** Health left after a hit of `amount` without a shield: clamped at 0. */
  function Damaged(health: int, amount: int): (r: int)
    requires 0 <= health && 0 <= amount
    ensures 0 <= r <= health
    ensures r == 0 <==> health <= amount
    ensures r > 0 ==> r == health - amount
  {
    if health - amount <= 0 then 0 else health - amount
  }

  /** Successive hits add up: `n` hits of `amount` leave
      `max(0, health - n * amount)`. */
  lemma {:induction false} DamagedRepeatedly(health: int, amount: int, n: nat)
    requires 0 <= health && 0 <= amount
    ensures Hits(health, amount, n) == if health - n * amount <= 0 then 0 else health - n * amount
  {
    if n > 0 {
      DamagedRepeatedly(health, amount, n - 1);
      assert n * amount == (n - 1) * amount + amount;
    }
  }

  function Hits(health: int, amount: int, n: nat): (r: int)
    requires 0 <= health && 0 <= amount
    ensures 0 <= r <= health
  {
    if n == 0 then health else Damaged(Hits(health, amount, n - 1), amount)
  }

  /** Positions `move` can reach from the centre: it may overshoot an edge
      of the screen by less than one step, so x is in [-4, 612] and y in
      [-4, 452]. */
  predicate InBand(x: int, y: int) {
    -PlayerSpeed < x < ScreenWidth - PlayerSize + PlayerSpeed &&
    -PlayerSpeed < y < ScreenHeight - PlayerSize + PlayerSpeed
  }

  /** The position after `move(dir)`: one step of the constant
      `PlayerSpeed` (not the boosted `speed`) along the axis of `dir`,
      taken only while the coordinate is strictly inside the screen on the
      side it moves towards.  At most one coordinate changes, by exactly
      5, and the band of reachable positions is never left. */
  function Stepped(dir: Direction, x: int, y: int): (r: (int, int))
    ensures r == (x, y) || (r.1 == y && (r.0 == x - PlayerSpeed || r.0 == x + PlayerSpeed))
                        || (r.0 == x && (r.1 == y - PlayerSpeed || r.1 == y + PlayerSpeed))
    ensures r.0 < x ==> dir == Left && x > 0
    ensures r.0 > x ==> dir == Right && x < ScreenWidth - PlayerSize
    ensures r.1 < y ==> dir == Up && y > 0
    ensures r.1 > y ==> dir == Down && y < ScreenHeight - PlayerSize
    ensures InBand(x, y) ==> InBand(r.0, r.1)
  {
    match dir
    case Left => if x > 0 then (x - PlayerSpeed, y) else (x, y)
    case Right => if x < ScreenWidth - PlayerSize then (x + PlayerSpeed, y) else (x, y)
    case Up => if y > 0 then (x, y - PlayerSpeed) else (x, y)
    case Down => if y < ScreenHeight - PlayerSize then (x, y + PlayerSpeed) else (x, y)
  }

  /** The facing `update_aim` gives an aim angle in (-pi, pi]: the quarter
      turn centred on the right, down, up or left direction. */
  function Sector(angle: real, pi: real): (d: Direction)
    ensures pi > 0.0 && -pi / 4.0 <= angle < pi / 4.0 ==> d == Right
    ensures pi > 0.0 && pi / 4.0 <= angle < 3.0 * pi / 4.0 ==> d == Down
    ensures pi > 0.0 && -3.0 * pi / 4.0 <= angle < -pi / 4.0 ==> d == Up
    ensures pi > 0.0 && (angle < -3.0 * pi / 4.0 || 3.0 * pi / 4.0 <= angle) ==> d == Left
  {
    if -pi / 4.0 <= angle < pi / 4.0 then Right
    else if pi / 4.0 <= angle < 3.0 * pi / 4.0 then Down
    else if -3.0 * pi / 4.0 <= angle < -pi / 4.0 then Up
    else Left
  }

  class Player {
    var x: int
    var y: int
    var health: int
    var score: int
    var facing: Direction
    var angle: real
    var timers: Timers
    const baseSpeed: int
    var speed: real

    /** Health stays in [0, 100]; every timer exists and is non-negative;
        the position stays within the band `move` allows (it may overshoot
        the screen edge by less than one step); and the speed is boosted
        exactly while the Speed Boost timer runs. */
    ghost predicate Valid()
      reads this
    {
      && 0 <= health <= MaxHealth
      && 0 <= score
      && WellFormed(timers)
      && InBand(x, y)
      && baseSpeed == PlayerSpeed
      && speed == (if timers.Get(SpeedBoost) > 0 then 1.5 * baseSpeed as real else baseSpeed as real)
    }

    constructor ()
      ensures Valid()
      ensures x == ScreenWidth / 2 - PlayerSize / 2 && y == ScreenHeight / 2 - PlayerSize / 2
      ensures health == MaxHealth && score == 0 && facing == Right && angle == 0.0
      ensures timers == Idle && speed == PlayerSpeed as real
    {
      x := ScreenWidth / 2 - PlayerSize / 2;
      y := ScreenHeight / 2 - PlayerSize / 2;
      health, score := MaxHealth, 0;
      facing, angle := Right, 0.0;
      timers := Idle;
      baseSpeed := PlayerSpeed;
      speed := PlayerSpeed as real;
      new;
      IdleWellFormed();
    }

    /** `update_aim`: the aim angle is the arc tangent (computed by the
        host maths library) of the offset from the player's centre to the
        mouse; the facing is the quarter turn around that angle. */
    method UpdateAim(mouseX: int, mouseY: int, atan2: (real, real) -> real, pi: real)
      requires Valid()
      modifies this`angle, this`facing
      ensures Valid()
      ensures angle == atan2((mouseY - (y + PlayerSize / 2)) as real, (mouseX - (x + PlayerSize / 2)) as real)
      ensures facing == Sector(angle, pi)
    {
      var dx := mouseX - (x + PlayerSize / 2);
      var dy := mouseY - (y + PlayerSize / 2);
      angle := atan2(dy as real, dx as real);
      if -pi / 4.0 <= angle < pi / 4.0 {
        facing := Right;
      } else if pi / 4.0 <= angle < 3.0 * pi / 4.0 {
        facing := Down;
      } else if -3.0 * pi / 4.0 <= angle < -pi / 4.0 {
        facing := Up;
      } else {
        facing := Left;
      }
    }

    /** `move`: the position becomes `Stepped(dir, x, y)` and the facing
        always becomes `dir`. */
    method Move(dir: Direction)
      requires Valid()
      modifies this`x, this`y, this`facing
      ensures Valid()
      ensures facing == dir
      ensures (x, y) == Stepped(dir, old(x), old(y))
    {
      if dir == Left && x > 0 {
        x := x - PlayerSpeed;
      } else if dir == Right && x < ScreenWidth - PlayerSize {
        x := x + PlayerSpeed;
      } else if dir == Up && y > 0 {
        y := y - PlayerSpeed;
      } else if dir == Down && y < ScreenHeight - PlayerSize {
        y := y + PlayerSpeed;
      }
      facing := dir;
    }

    /** `shoot`: one bullet along the aim, or a volley of three spread by
        0.1 radians while Rapid Fire runs; all start at the muzzle. */
    method Shoot() returns (shots: seq<Bullet>)
      requires WellFormed(timers)
      ensures |shots| == (if timers.Get(RapidFire) > 0 then 3 else 1)
      ensures forall k :: 0 <= k < |shots| ==>
        shots[k] == Bullet((x + Muzzle) as real, (y + Muzzle) as real, shots[k].angle, Gun)
      ensures |shots| == 1 ==> shots[0].angle == angle
      ensures |shots| == 3 ==>
        shots[0].angle == angle - Spread && shots[1].angle == angle && shots[2].angle == angle + Spread
      ensures shots == Shots((x + Muzzle) as real, (y + Muzzle) as real, angle, timers.Get(RapidFire) > 0)
    {
      var sx, sy := (x + Muzzle) as real, (y + Muzzle) as real;
      shots := [];
      if timers.Get(RapidFire) > 0 {
        for i := -1 to 2
          invariant |shots| == i + 1
          invariant forall k :: 0 <= k < |shots| ==> shots[k] == Bullet(sx, sy, angle + (k - 1) as real * Spread, Gun)
        {
          shots := shots + [Bullet(sx, sy, angle + i as real * Spread, Gun)];
        }
      } else {
        shots := [Bullet(sx, sy, angle, Gun)];
      }
    }

    /** `apply_powerup`: the timer of the picked kind is overwritten with
        its full duration; Speed Boost also boosts the speed at once. */
    method ApplyPowerup(p: Pickup) returns (message: string)
      requires Valid()
      modifies this`timers, this`speed
      ensures Valid()
      ensures timers == Grant(old(timers), p.kind)
      ensures speed == (if p.kind == SpeedBoost then 1.5 * baseSpeed as real else old(speed))
      ensures message == Name(p.kind) + " activated!"
    {
      timers := timers.Set(p.kind, Duration(p.kind));
      if p.kind == SpeedBoost {
        speed := baseSpeed as real * 1.5;
      }
      message := Name(p.kind) + " activated!";
    }

    /** `update_powerups`: one frame of every timer, in table order; the
        speed drops back to the base speed on the frame the Speed Boost
        timer reaches 0. */
    method UpdatePowerups()
      requires Valid()
      modifies this`timers, this`speed
      ensures Valid()
      ensures timers == Tick(old(timers))
      ensures speed == (if old(timers).Get(SpeedBoost) == 1 then baseSpeed as real else old(speed))
    {
      var i := 0;
      while i < |Kinds|
        invariant 0 <= i <= |Kinds|
        invariant forall k :: timers.Get(k) == (if k in Kinds[..i] then TickOne(old(timers).Get(k)) else old(timers).Get(k))
        invariant speed == (if SpeedBoost in Kinds[..i] && old(timers).Get(SpeedBoost) == 1 then baseSpeed as real else old(speed))
      {
        var name := Kinds[i];
        assert name !in Kinds[..i];
        assert Kinds[..i + 1] == Kinds[..i] + [name];
        if timers.Get(name) > 0 {
          timers := timers.Set(name, timers.Get(name) - 1);
          if timers.Get(name) <= 0 {
            if name == SpeedBoost {
              speed := baseSpeed as real;
            }
          }
        }
        i := i + 1;
      }
      forall k: Kind ensures k in Kinds[..i] {
        KindsListsEveryKind(k);
      }
      TimersAgree(timers, Tick(old(timers)));
    }

    /** `take_damage`: no effect while the shield runs (the answer is then
        `None`); otherwise health drops by `amount`, clamped at 0, and the
        answer says whether it reached 0. */
    method TakeDamage(amount: int) returns (dead: Option<bool>)
      requires Valid() && amount >= 0
      modifies this`health
      ensures Valid()
      ensures timers.Get(Shield) > 0 ==> dead == None && health == old(health)
      ensures timers.Get(Shield) <= 0 ==> health == Damaged(old(health), amount) && dead == Some(health == 0)
    {
      if timers.Get(Shield) > 0 {
        return None;
      }
      health := health - amount;
      if health <= 0 {
        health := 0;
        return Some(true);
      }
      return Some(false);
    }
  }
}
