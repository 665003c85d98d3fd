/** The per-frame rules of the p5.js game as functions of the state before
    a pass: the wave schedule, the zombie, bullet and pickup passes and the
    power-up expiry messages.  The passes walk their lists from the last
    index down to the first, splicing out what they remove; the functions
    here are written over the suffix already walked, so element `s[0]` is
    the one visited last.  The game (module JsGame) is proved to end each
    pass in exactly the state computed here. */
module JsRules {
  import opened Powerups
  import opened Entities
  import opened JsPlayer

  const WaveDuration: nat := 1800
  const WaveBanner: int := 180
  const SpawnPeriod: int := 60
  const MaxPerWave: int := 20
  const ContactDamage: int := 10
  const KillScore: int := 10
  const MessageTime: int := 120
  const ExpiryTime: int := 60
  const ZombieWalk: real := 2.0
  const BulletSize: real := 4.0
  const Reach: real := 20.0

  // ---------------------------------------------------------------------
  // Waves and spawning

  /** `Math.min(20, Math.floor(currentWave * 1.5))`. */
  function ZombiesPerWave(wave: int): (r: int)
    requires wave >= 1
    ensures 1 <= r <= MaxPerWave
  {
    var f := 3 * wave / 2;
    if f < MaxPerWave then f else MaxPerWave
  }

  /** The zombies per wave are one and a half times the wave number,
      rounded down, until they reach the cap of 20 at wave 14. */
  lemma ZombiesPerWaveFloor(wave: int)
    requires wave >= 1
    ensures var r := ZombiesPerWave(wave);
            r == MaxPerWave || (r as real <= 1.5 * wave as real < r as real + 1.0)
    ensures ZombiesPerWave(wave) == MaxPerWave <==> wave >= 14
  {
  }

  lemma ZombiesPerWaveGrows(a: int, b: int)
    requires 1 <= a <= b
    ensures ZombiesPerWave(a) <= ZombiesPerWave(b)
  {
  }

  /** The zombie count below which a spawn tick adds a zombie. */
  function MaxZombies(wave: int): (r: int)
    requires wave >= 1
    ensures ZombiesPerWave(wave) <= r
  {
    ZombiesPerWave(wave) + wave / 3
  }

  /** The spawn cap never shrinks as the waves go by, and it always
      exceeds the zombies per wave once the wave number reaches 3. */
  lemma MaxZombiesGrows(a: int, b: int)
    requires 1 <= a <= b
    ensures MaxZombies(a) <= MaxZombies(b)
    ensures a >= 3 ==> MaxZombies(a) > ZombiesPerWave(a)
  {
    ZombiesPerWaveGrows(a, b);
  }

  /** The random draws of a new zombie: the edge, and the offset along it
      that `random(0, width - 32)` returns. */
  datatype EdgeDraw = EdgeDraw(edge: Direction, offset: real)

  predicate InRange(d: EdgeDraw) {
    0.0 <= d.offset < (if d.edge == Up || d.edge == Down then CanvasWidth - ZombieSize else CanvasHeight - ZombieSize)
  }

  /** A new zombie of the p5.js game: just outside the edge it was drawn
      for, walking at 2 whatever the wave, facing right. */
  function Spawned(d: EdgeDraw): (z: Zombie)
    requires InRange(d)
    ensures z.speed == ZombieWalk && z.facing == Right
    ensures z.x + ZombieSize <= 0.0 || z.x >= CanvasWidth || z.y + ZombieSize <= 0.0 || z.y >= CanvasHeight
    ensures -ZombieSize <= z.x <= CanvasWidth && -ZombieSize <= z.y <= CanvasHeight
  {
    match d.edge
    case Up => Zombie(d.offset, -ZombieSize, ZombieWalk, Right)
    case Right => Zombie(CanvasWidth, d.offset, ZombieWalk, Right)
    case Down => Zombie(d.offset, CanvasHeight, ZombieWalk, Right)
    case Left => Zombie(-ZombieSize, d.offset, ZombieWalk, Right)
  }

  // ---------------------------------------------------------------------
  // The zombie pass

  /** Half the sum of the zombie's and the player's sizes: how close their
      centres must come on both axes for the squares to overlap. */
  const Reach2: real := (ZombieSize + PlayerSize) / 2.0

  /** Strict overlap of a zombie's square with the player's square at
      (px, py). */
  function Touches(z: Zombie, px: real, py: real): (touching: bool)
    ensures touching <==>
      && -Reach2 < Centre(z).0 - (px + PlayerSize / 2.0) < Reach2
      && -Reach2 < Centre(z).1 - (py + PlayerSize / 2.0) < Reach2
  {
    px < z.x + ZombieSize && px + PlayerSize > z.x && py < z.y + ZombieSize && py + PlayerSize > z.y
  }

  /** A zombie after its step towards the player's centre. */
  function Chased(z: Zombie, px: real, py: real, sqrt: real -> real): (r: Zombie)
    ensures r.speed == z.speed
    ensures r.facing == FacingOf(px + PlayerSize / 2.0 - Centre(z).0, py + PlayerSize / 2.0 - Centre(z).1)
  {
    MoveZombie(z, px + PlayerSize / 2.0, py + PlayerSize / 2.0, sqrt)
  }

  /** The zombies of `zs` left after the pass, moved, in list order. */
  function Survivors(zs: seq<Zombie>, px: real, py: real, sqrt: real -> real): (r: seq<Zombie>)
    ensures |r| <= |zs|
  {
    if zs == [] then []
    else
      var z := Chased(zs[0], px, py, sqrt);
      (if Touches(z, px, py) then [] else [z]) + Survivors(zs[1..], px, py, sqrt)
  }

  /** How many zombies of `zs` reach the player in the pass. */
  function Contacts(zs: seq<Zombie>, px: real, py: real, sqrt: real -> real): (n: nat)
    ensures n <= |zs|
  {
    if zs == [] then 0
    else (if Touches(Chased(zs[0], px, py, sqrt), px, py) then 1 else 0) + Contacts(zs[1..], px, py, sqrt)
  }

  /** Every zombie is either kept (moved) or counted as a contact, never
      both; none that is kept touches the player. */
  lemma {:induction false} ZombiePassSplits(zs: seq<Zombie>, px: real, py: real, sqrt: real -> real)
    ensures |Survivors(zs, px, py, sqrt)| + Contacts(zs, px, py, sqrt) == |zs|
    ensures forall k :: 0 <= k < |Survivors(zs, px, py, sqrt)| ==> !Touches(Survivors(zs, px, py, sqrt)[k], px, py)
  {
    if zs != [] {
      ZombiePassSplits(zs[1..], px, py, sqrt);
      var z := Chased(zs[0], px, py, sqrt);
      var rest := Survivors(zs[1..], px, py, sqrt);
      var head := if Touches(z, px, py) then [] else [z];
      assert Survivors(zs, px, py, sqrt) == head + rest;
      forall k | 0 <= k < |head + rest|
        ensures !Touches((head + rest)[k], px, py)
      {
        if k >= |head| {
          assert (head + rest)[k] == rest[k - |head|];
        }
      }
    }
  }

  /** The pass over `zs[i..]` is the visit of `zs[i]` after the pass over
      `zs[i + 1..]`. */
  lemma ZombieStep(zs: seq<Zombie>, i: nat, px: real, py: real, sqrt: real -> real)
    requires i < |zs|
    ensures Survivors(zs[i..], px, py, sqrt)
         == (if Touches(Chased(zs[i], px, py, sqrt), px, py) then [] else [Chased(zs[i], px, py, sqrt)])
            + Survivors(zs[i + 1..], px, py, sqrt)
    ensures Contacts(zs[i..], px, py, sqrt)
         == (if Touches(Chased(zs[i], px, py, sqrt), px, py) then 1 else 0) + Contacts(zs[i + 1..], px, py, sqrt)
  {
    assert zs[i..][1..] == zs[i + 1..];
  }

  // ---------------------------------------------------------------------
  // The bullet pass

  /** A bullet past an edge of the canvas (a bullet on the edge stays). */
  function OffCanvas(b: Bullet): (off: bool)
    ensures off <==> !(0.0 <= b.x <= CanvasWidth && 0.0 <= b.y <= CanvasHeight)
  {
    b.x < 0.0 || b.x > CanvasWidth || b.y < 0.0 || b.y > CanvasHeight
  }

  /** Strict overlap of a bullet's 4 by 4 square with a zombie's square. */
  function Hits(b: Bullet, z: Zombie): (hit: bool)
    ensures hit <==>
      && -(ZombieSize + BulletSize) / 2.0 < (b.x + BulletSize / 2.0) - Centre(z).0 < (ZombieSize + BulletSize) / 2.0
      && -(ZombieSize + BulletSize) / 2.0 < (b.y + BulletSize / 2.0) - Centre(z).1 < (ZombieSize + BulletSize) / 2.0
  {
    b.x < z.x + ZombieSize && b.x + BulletSize > z.x && b.y < z.y + ZombieSize && b.y + BulletSize > z.y
  }

  /** The zombie a bullet strikes: the one with the highest index that it
      overlaps, since the search runs from the end of the list. */
  function LastHit(zs: seq<Zombie>, b: Bullet): (r: Option<nat>)
    ensures r.Some? ==> r.value < |zs| && Hits(b, zs[r.value])
    ensures r.Some? ==> forall k :: r.value < k < |zs| ==> !Hits(b, zs[k])
    ensures r.None? ==> forall k :: 0 <= k < |zs| ==> !Hits(b, zs[k])
  {
    if zs == [] then None
    else if Hits(b, zs[|zs| - 1]) then Some(|zs| - 1)
    else
      var r := LastHit(zs[..|zs| - 1], b);
      assert forall k :: 0 <= k < |zs| - 1 ==> zs[k] == zs[..|zs| - 1][k];
      r
  }

  /** The state of the bullet pass after some bullets: the bullets kept
      (moved), the zombies left, the number of kills, the centres of the
      zombies killed (where splatters and drops appear) and the pickups
      dropped. */
  datatype Volley = Volley(bullets: seq<Bullet>, zombies: seq<Zombie>, kills: nat,
                           splats: seq<Point>, drops: seq<Pickup>)

  /** The pickup dropped at `c` when the drop draw `d` says one falls
      (`random() < 0.15`, then a random kind). */
  function Drop(c: Point, d: Option<Kind>): seq<Pickup> {
    match d
    case None => []
    case Some(k) => [Pickup(c.0, c.1, k)]
  }

  /** One bullet of the pass, after those of higher index: it moves; off
      the canvas it is removed; otherwise the last zombie it overlaps is
      killed together with the bullet. */
  function Fly(o: Volley, b0: Bullet, cos: real -> real, sin: real -> real, drop: nat -> Option<Kind>): (r: Volley)
    ensures r.kills == o.kills || r.kills == o.kills + 1
    ensures |r.zombies| + r.kills == |o.zombies| + o.kills
    ensures |r.bullets| <= |o.bullets| + 1 && (r.kills == o.kills + 1 ==> r.bullets == o.bullets)
    ensures |r.splats| + o.kills == |o.splats| + r.kills
    ensures |r.drops| + o.kills <= |o.drops| + r.kills
  {
    var b := MoveBullet(b0, cos, sin);
    if OffCanvas(b) then o
    else match LastHit(o.zombies, b)
      case None => o.(bullets := [b] + o.bullets)
      case Some(j) =>
        var c := Centre(o.zombies[j]);
        Volley(o.bullets, Without(o.zombies, j), o.kills + 1, o.splats + [c], o.drops + Drop(c, drop(o.kills)))
  }

  function BulletPass(bs: seq<Bullet>, zs: seq<Zombie>, cos: real -> real, sin: real -> real,
                      drop: nat -> Option<Kind>): (o: Volley)
    ensures o.kills <= |bs|
  {
    if bs == [] then Volley([], zs, 0, [], [])
    else Fly(BulletPass(bs[1..], zs, cos, sin, drop), bs[0], cos, sin, drop)
  }

  /** What the bullet pass adds up to: every kill removes one zombie and
      one bullet and leaves one splatter and at most one pickup, and every
      bullet kept is on the canvas. */
  lemma {:induction false} BulletPassTotals(bs: seq<Bullet>, zs: seq<Zombie>, cos: real -> real, sin: real -> real,
                                            drop: nat -> Option<Kind>)
    ensures var o := BulletPass(bs, zs, cos, sin, drop);
      && |o.zombies| + o.kills == |zs|
      && |o.bullets| + o.kills <= |bs|
      && |o.splats| == o.kills && |o.drops| <= o.kills
      && forall k :: 0 <= k < |o.bullets| ==> !OffCanvas(o.bullets[k])
  {
    if bs != [] {
      BulletPassTotals(bs[1..], zs, cos, sin, drop);
      var o := BulletPass(bs[1..], zs, cos, sin, drop);
      var b := MoveBullet(bs[0], cos, sin);
      if !OffCanvas(b) && LastHit(o.zombies, b).None? {
        assert forall k :: 0 <= k < |o.bullets| ==> ([b] + o.bullets)[k + 1] == o.bullets[k];
      }
    }
  }

  /** The pass over `bs[i..]` is bullet `bs[i]` after the pass over
      `bs[i + 1..]`. */
  lemma BulletStep(bs: seq<Bullet>, i: nat, zs: seq<Zombie>, cos: real -> real, sin: real -> real,
                   drop: nat -> Option<Kind>)
    requires i < |bs|
    ensures BulletPass(bs[i..], zs, cos, sin, drop) == Fly(BulletPass(bs[i + 1..], zs, cos, sin, drop), bs[i], cos, sin, drop)
  {
    assert bs[i..][1..] == bs[i + 1..];
  }

  // ---------------------------------------------------------------------
  // The pickup pass

  /** The player's square at (px, py) overlaps the 40 by 40 square around
      the pickup. */
  function Reaches(p: Pickup, px: real, py: real): (reached: bool)
    ensures reached <==>
      && -(Reach + PlayerSize / 2.0) < p.x - (px + PlayerSize / 2.0) < Reach + PlayerSize / 2.0
      && -(Reach + PlayerSize / 2.0) < p.y - (py + PlayerSize / 2.0) < Reach + PlayerSize / 2.0
  {
    px < p.x + Reach && px + PlayerSize > p.x - Reach && py < p.y + Reach && py + PlayerSize > p.y - Reach
  }

  /** The kinds collected from `ps`, in the order they are collected:
      highest index first. */
  function Taken(ps: seq<Pickup>, px: real, py: real): (r: seq<Kind>)
    ensures |r| <= |ps|
  {
    if ps == [] then []
    else Taken(ps[1..], px, py) + (if Reaches(ps[0], px, py) then [ps[0].kind] else [])
  }

  /** The pickups of `ps` left, in list order. */
  function Kept(ps: seq<Pickup>, px: real, py: real): (r: seq<Pickup>)
    ensures |r| <= |ps|
  {
    if ps == [] then []
    else (if Reaches(ps[0], px, py) then [] else [ps[0]]) + Kept(ps[1..], px, py)
  }

  /** Every pickup is either collected or kept, and none of those kept is
      within the player's reach. */
  lemma {:induction false} PickupPassSplits(ps: seq<Pickup>, px: real, py: real)
    ensures |Kept(ps, px, py)| + |Taken(ps, px, py)| == |ps|
    ensures forall k :: 0 <= k < |Kept(ps, px, py)| ==> !Reaches(Kept(ps, px, py)[k], px, py)
  {
    if ps != [] {
      var rest := ps[1..];
      PickupPassSplits(rest, px, py);
      var head := if Reaches(ps[0], px, py) then [] else [ps[0]];
      assert Kept(ps, px, py) == head + Kept(rest, px, py);
      assert forall k :: 0 <= k < |Kept(rest, px, py)| ==> (head + Kept(rest, px, py))[|head| + k] == Kept(rest, px, py)[k];
    }
  }

  /** What the player reaches is collected and everything else stays. */
  lemma {:induction false} PickupPassCovers(ps: seq<Pickup>, px: real, py: real)
    ensures forall k :: 0 <= k < |ps| && Reaches(ps[k], px, py) ==> ps[k].kind in Taken(ps, px, py)
    ensures forall k :: 0 <= k < |ps| && !Reaches(ps[k], px, py) ==> ps[k] in Kept(ps, px, py)
  {
    if ps != [] {
      var rest := ps[1..];
      PickupPassCovers(rest, px, py);
      forall k | 1 <= k < |ps|
        ensures Reaches(ps[k], px, py) ==> ps[k].kind in Taken(ps, px, py)
        ensures !Reaches(ps[k], px, py) ==> ps[k] in Kept(ps, px, py)
      {
        assert ps[k] == rest[k - 1];
      }
    }
  }

  lemma PickupStep(ps: seq<Pickup>, i: nat, px: real, py: real)
    requires i < |ps|
    ensures Taken(ps[i..], px, py) == Taken(ps[i + 1..], px, py) + (if Reaches(ps[i], px, py) then [ps[i].kind] else [])
    ensures Kept(ps[i..], px, py) == (if Reaches(ps[i], px, py) then [] else [ps[i]]) + Kept(ps[i + 1..], px, py)
  {
    assert ps[i..][1..] == ps[i + 1..];
  }

  /** The message and its timer after the pickups of kinds `got` were
      collected: the last one collected is announced for 120 frames. */
  function Announced(got: seq<Kind>, message: string, timer: int): (r: (string, int))
    ensures got == [] ==> r == (message, timer)
    ensures got != [] ==> r.0 == Name(got[|got| - 1]) + " activated!" && r.1 == MessageTime
  {
    if got == [] then (message, timer) else (Name(got[|got| - 1]) + " activated!", MessageTime)
  }

  /** The kinds of `ks`, in order, whose timer in `t` is at 1, so that the
      tick brings it to 0. */
  function Expiring(ks: seq<Kind>, t: Timers): (r: seq<Kind>)
    ensures |r| <= |ks|
  {
    if ks == [] then []
    else Expiring(ks[..|ks| - 1], t) + (if t.Get(ks[|ks| - 1]) == 1 then [ks[|ks| - 1]] else [])
  }

  /** A kind is announced as expired exactly when its timer was at 1. */
  lemma {:induction false} ExpiringLists(ks: seq<Kind>, t: Timers, k: Kind)
    ensures k in Expiring(ks, t) <==> k in ks && t.Get(k) == 1
  {
    if ks != [] {
      ExpiringLists(ks[..|ks| - 1], t, k);
      assert ks == ks[..|ks| - 1] + [ks[|ks| - 1]];
    }
  }

  /** The message and its timer after the timer tick: the last kind in
      table order that expired is announced for 60 frames. */
  function Expired(gone: seq<Kind>, message: string, timer: int): (r: (string, int))
    ensures gone == [] ==> r == (message, timer)
    ensures gone != [] ==> r.0 == Name(gone[|gone| - 1]) + " expired" && r.1 == ExpiryTime
  {
    if gone == [] then (message, timer) else (Name(gone[|gone| - 1]) + " expired", ExpiryTime)
  }
}
