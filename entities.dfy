/** The moving entities shared by both versions of the game: zombies, bullets
    and power-up pickups, the zombie and bullet movement rules, and the
    nearest-zombie search used by the AI assistant.  Square roots, sines,
    cosines and arc tangents are computed by the host language's maths
    library; here they are opaque function parameters. */
module Entities {
  import opened Powerups

  datatype Option<T> = None | Some(value: T)

  datatype Direction = Left | Right | Up | Down

  /** Size of a zombie's square (32 by 32 in both versions). */
  const ZombieSize: real := 32.0
  const HalfZombie: real := 16.0
  const BulletSpeed: real := 10.0

  datatype Zombie = Zombie(x: real, y: real, speed: real, facing: Direction)

  /** Who fired a bullet; this only decides its colour. */
  datatype Origin = Gun | AssistantShot

  datatype Bullet = Bullet(x: real, y: real, angle: real, origin: Origin)

  /** Spread between the three bullets of a Rapid Fire volley. */
  const Spread: real := 0.1

  /** The bullets one `shoot` fires from (sx, sy): one along the aim or,
      while Rapid Fire runs, three spread by `Spread` about it. */
  function Shots(sx: real, sy: real, aim: real, rapid: bool): (r: seq<Bullet>)
    ensures |r| == if rapid then 3 else 1
    ensures forall k :: 0 <= k < |r| ==> r[k].x == sx && r[k].y == sy && r[k].origin == Gun
    ensures forall k :: 0 <= k < |r| ==> r[k].angle == aim + (k - |r| / 2) as real * Spread
  {
    if rapid then [Bullet(sx, sy, aim - Spread, Gun), Bullet(sx, sy, aim, Gun), Bullet(sx, sy, aim + Spread, Gun)]
    else [Bullet(sx, sy, aim, Gun)]
  }

  datatype Pickup = Pickup(x: real, y: real, kind: Kind)

  /** A point of the screen, in fractional pixels. */
  type Point = (real, real)

  /** Where a zombie's blood splatter is drawn: its centre. */
  function Centre(z: Zombie): Point {
    (z.x + HalfZombie, z.y + HalfZombie)
  }

  /** `s` with the element at `i` spliced out. */
  function Without<T>(s: seq<T>, i: nat): (r: seq<T>)
    requires i < |s|
    ensures |r| == |s| - 1
    ensures forall k :: 0 <= k < |r| ==> r[k] == (if k < i then s[k] else s[k + 1])
  {
    s[..i] + s[i + 1..]
  }

  function Abs(v: real): real {
    if v < 0.0 then -v else v
  }

  /** The facing of a walker whose velocity is (dx, dy): the axis with the
      larger magnitude wins, ties go to the vertical axis. */
  function FacingOf(dx: real, dy: real): (d: Direction)
    ensures (d == Left || d == Right) <==> Abs(dx) > Abs(dy)
    ensures d == Right ==> dx > 0.0
    ensures d == Left ==> dx < 0.0
    ensures d == Down ==> dy > 0.0
    ensures d == Up ==> dy <= 0.0
  {
    if Abs(dx) > Abs(dy) then (if dx > 0.0 then Right else Left)
    else (if dy > 0.0 then Down else Up)
  }

  lemma ScaledFacing(dx: real, dy: real, len: real)
    requires len > 0.0
    ensures FacingOf(dx / len, dy / len) == FacingOf(dx, dy)
  {
    assert dx / len > 0.0 <==> dx > 0.0;
    assert dy / len > 0.0 <==> dy > 0.0;
    assert Abs(dx / len) == Abs(dx) / len;
    assert Abs(dy / len) == Abs(dy) / len;
    assert Abs(dx) / len > Abs(dy) / len <==> Abs(dx) > Abs(dy);
  }

  lemma ProductSign(u: real, s: real)
    ensures s > 0.0 ==> (u * s > 0.0 <==> u > 0.0) && (u * s < 0.0 <==> u < 0.0)
  {
  }

  /** One step of a zombie walking towards the point (tx, ty): the offset
      from its centre to the target is normalised (its length floored at
      0.1, so a zombie standing on the target does not divide by zero),
      scaled by the zombie's speed and added to its position. */
  function MoveZombie(z: Zombie, tx: real, ty: real, sqrt: real -> real): (r: Zombie)
    ensures r.speed == z.speed
    ensures r.facing == FacingOf(tx - (z.x + HalfZombie), ty - (z.y + HalfZombie))
    ensures z.speed > 0.0 ==> (r.x > z.x <==> tx > z.x + HalfZombie) && (r.x < z.x <==> tx < z.x + HalfZombie)
    ensures z.speed > 0.0 ==> (r.y > z.y <==> ty > z.y + HalfZombie) && (r.y < z.y <==> ty < z.y + HalfZombie)
  {
    var dx := tx - (z.x + HalfZombie);
    var dy := ty - (z.y + HalfZombie);
    var root := sqrt(dx * dx + dy * dy);
    var len := if root > 0.1 then root else 0.1;
    var ux := dx / len;
    var uy := dy / len;
    ScaledFacing(dx, dy, len);
    ProductSign(ux, z.speed);
    ProductSign(uy, z.speed);
    Zombie(z.x + ux * z.speed, z.y + uy * z.speed, z.speed, FacingOf(ux, uy))
  }

  /** One step of a bullet along its fixed angle at constant speed. */
  function MoveBullet(b: Bullet, cos: real -> real, sin: real -> real): (r: Bullet)
    ensures r.angle == b.angle && r.origin == b.origin
    ensures r.x - b.x == BulletSpeed * cos(b.angle) && r.y - b.y == BulletSpeed * sin(b.angle)
  {
    Bullet(b.x + cos(b.angle) * BulletSpeed, b.y + sin(b.angle) * BulletSpeed, b.angle, b.origin)
  }

  /** Squared distance from (px, py) to the zombie's corner; the source
      compares square roots of this, which order zombies the same way. */
  function Dist2(z: Zombie, px: real, py: real): real {
    (z.x - px) * (z.x - px) + (z.y - py) * (z.y - py)
  }

  /** Index of a zombie nearest to (px, py); on a tie the earliest one wins,
      because a later zombie replaces the best only when strictly closer. */
  method NearestIndex(zs: seq<Zombie>, px: real, py: real) returns (best: nat)
    requires |zs| > 0
    ensures best < |zs|
    ensures forall j :: 0 <= j < |zs| ==> Dist2(zs[best], px, py) <= Dist2(zs[j], px, py)
    ensures forall j :: 0 <= j < best ==> Dist2(zs[best], px, py) < Dist2(zs[j], px, py)
  {
    best := 0;
    var minDistance := Dist2(zs[0], px, py);
    var i := 1;
    while i < |zs|
      invariant 1 <= i <= |zs|
      invariant best < i
      invariant minDistance == Dist2(zs[best], px, py)
      invariant forall j :: 0 <= j < i ==> minDistance <= Dist2(zs[j], px, py)
      invariant forall j :: 0 <= j < best ==> minDistance < Dist2(zs[j], px, py)
    {
      var distance := Dist2(zs[i], px, py);
      if distance < minDistance {
        minDistance := distance;
        best := i;
      }
      i := i + 1;
    }
  }
}
