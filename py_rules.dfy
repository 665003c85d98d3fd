/** The per-frame passes of the Python game over its zombie, bullet and
    pickup lists, as functions of the lists before the pass.  The game
    (module PyGame) runs them as loops that update its lists in place; its
    methods are proved to end in exactly the states computed here. */
module PyRules {
  import opened Powerups
  import opened Entities
  import opened PyPlayer

  const ContactDamage: int := 25
  const ShieldBonus: int := 5
  const KillScore: int := 10

  /** Half the sum of the zombie's and the player's sizes: how close their
      centres must come on both axes for the squares to overlap. */
  const Reach2: real := (ZombieSize + PlayerSize as real) / 2.0

  /** Strict overlap of a zombie's square with the player's square. */
  function TouchesPlayer(z: Zombie, px: int, py: int): (touching: bool)
    ensures touching <==>
      && -Reach2 < Centre(z).0 - (px + PlayerSize / 2) as real < Reach2
      && -Reach2 < Centre(z).1 - (py + PlayerSize / 2) as real < Reach2
  {
    && z.x < (px + PlayerSize) as real && z.x + ZombieSize > px as real
    && z.y < (py + PlayerSize) as real && z.y + ZombieSize > py as real
  }

  /** A bullet hits a zombie when its top-left point lies strictly inside
      the zombie's square. */
  function Contains(z: Zombie, b: Bullet): (inside: bool)
    ensures inside <==> -HalfZombie < b.x - Centre(z).0 < HalfZombie && -HalfZombie < b.y - Centre(z).1 < HalfZombie
  {
    z.x < b.x < z.x + ZombieSize && z.y < b.y < z.y + ZombieSize
  }

  /** Index of the first bullet inside `z`, or `|bs|` when none is. */
  function FirstHit(bs: seq<Bullet>, z: Zombie): (i: nat)
    ensures i <= |bs|
    ensures i < |bs| ==> Contains(z, bs[i])
    ensures forall j :: 0 <= j < i ==> !Contains(z, bs[j])
  {
    if bs == [] then 0
    else if Contains(z, bs[0]) then 0
    else 1 + FirstHit(bs[1..], z)
  }

  /** The state of the collision pass after some zombies: the zombies kept
      so far, the bullets left, the player's health and score, the centres
      of the new blood splatters and the points of the new explosions, and
      how many zombies reached the player or were shot. */
  datatype Outcome = Outcome(
    survivors: seq<Zombie>, bullets: seq<Bullet>, health: int, score: int,
    splats: seq<Point>, blasts: seq<Point>, contacts: nat, kills: nat)

  /** One zombie of the pass, after it has moved.  A zombie touching the
      player is removed and leaves a splatter; the player loses 25 health
      (clamped at 0) or, behind a shield, gains 5 points, and the bullets
      are not checked.  Otherwise the first bullet inside it removes both,
      adds 10 points, a splatter at the zombie and an explosion at the
      bullet.  A zombie hit by neither is kept. */
  function Resolve(o: Outcome, z: Zombie, px: int, py: int, shielded: bool): (r: Outcome)
    requires 0 <= o.health
    ensures |r.survivors| + r.contacts + r.kills == |o.survivors| + o.contacts + o.kills + 1
    ensures |r.bullets| + r.kills == |o.bullets| + o.kills
    ensures |r.splats| + o.contacts + o.kills == |o.splats| + r.contacts + r.kills
    ensures |r.blasts| + o.kills == |o.blasts| + r.kills
    ensures 0 <= r.health <= o.health && o.score <= r.score
  {
    if TouchesPlayer(z, px, py) then
      o.(splats := o.splats + [Centre(z)],
         health := if shielded then o.health else Damaged(o.health, ContactDamage),
         score := if shielded then o.score + ShieldBonus else o.score,
         contacts := o.contacts + 1)
    else
      var i := FirstHit(o.bullets, z);
      if i == |o.bullets| then o.(survivors := o.survivors + [z])
      else
        o.(bullets := Without(o.bullets, i),
           score := o.score + KillScore,
           splats := o.splats + [Centre(z)],
           blasts := o.blasts + [(o.bullets[i].x, o.bullets[i].y)],
           kills := o.kills + 1)
  }

  /** The zombies of `o` are clear of the player and of every bullet. */
  predicate Clear(o: Outcome, px: int, py: int) {
    forall k :: 0 <= k < |o.survivors| ==>
      !TouchesPlayer(o.survivors[k], px, py) &&
      forall j :: 0 <= j < |o.bullets| ==> !Contains(o.survivors[k], o.bullets[j])
  }

  /** The collision pass over the zombies `zs` (each first steps towards the
      player's centre), starting from `bullets`, `health` and `score`: the
      zombies are resolved one by one, in list order. */
  function Pass(zs: seq<Zombie>, bullets: seq<Bullet>, health: int, score: int,
                px: int, py: int, shielded: bool, sqrt: real -> real): (r: Outcome)
    requires 0 <= health
    ensures 0 <= r.health <= health && r.score >= score
  {
    if zs == [] then Outcome([], bullets, health, score, [], [], 0, 0)
    else
      var o := Pass(zs[..|zs| - 1], bullets, health, score, px, py, shielded, sqrt);
      Resolve(o, Chase(zs[|zs| - 1], px, py, sqrt), px, py, shielded)
  }

  /** The totals of a pass: every zombie is either kept, or removed once
      by contact or by one bullet; every bullet is kept or spent on one
      kill; scores add up exactly; health falls by 25 per unshielded
      contact down to 0, and not at all behind a shield; one splatter per
      removed zombie and one explosion per kill. */
  lemma {:induction false} PassTotals(zs: seq<Zombie>, bullets: seq<Bullet>, health: int, score: int,
                                      px: int, py: int, shielded: bool, sqrt: real -> real)
    requires 0 <= health
    ensures var r := Pass(zs, bullets, health, score, px, py, shielded, sqrt);
            && r.health == (if shielded then health else Hits(health, ContactDamage, r.contacts))
            && r.score == score + KillScore * r.kills + (if shielded then ShieldBonus * r.contacts else 0)
            && |r.survivors| + r.contacts + r.kills == |zs|
            && |r.bullets| + r.kills == |bullets|
            && |r.splats| == r.contacts + r.kills && |r.blasts| == r.kills
  {
    if zs != [] {
      PassTotals(zs[..|zs| - 1], bullets, health, score, px, py, shielded, sqrt);
      var o := Pass(zs[..|zs| - 1], bullets, health, score, px, py, shielded, sqrt);
      ResolveTotals(o, Chase(zs[|zs| - 1], px, py, sqrt), px, py, shielded, health, score);
    }
  }

  /** One resolution keeps the health and score totals of the pass. */
  lemma ResolveTotals(o: Outcome, z: Zombie, px: int, py: int, shielded: bool, health: int, score: int)
    requires 0 <= health
    requires o.health == (if shielded then health else Hits(health, ContactDamage, o.contacts))
    requires o.score == score + KillScore * o.kills + (if shielded then ShieldBonus * o.contacts else 0)
    ensures var r := Resolve(o, z, px, py, shielded);
            && r.health == (if shielded then health else Hits(health, ContactDamage, r.contacts))
            && r.score == score + KillScore * r.kills + (if shielded then ShieldBonus * r.contacts else 0)
  {
  }

  /** A zombie's step of the pass: towards the centre of the player whose
      corner is at (px, py). */
  function Chase(z: Zombie, px: int, py: int, sqrt: real -> real): (r: Zombie)
    ensures r.speed == z.speed
    ensures z.speed > 0.0 ==>
      && (r.x > z.x <==> (px + PlayerSize / 2) as real > Centre(z).0)
      && (r.x < z.x <==> (px + PlayerSize / 2) as real < Centre(z).0)
      && (r.y > z.y <==> (py + PlayerSize / 2) as real > Centre(z).1)
      && (r.y < z.y <==> (py + PlayerSize / 2) as real < Centre(z).1)
  {
    MoveZombie(z, (px + PlayerSize / 2) as real, (py + PlayerSize / 2) as real, sqrt)
  }

  /** After the pass every kept zombie is clear of the player and of every
      bullet left, and every bullet left was there before. */
  lemma {:induction false} PassLeavesClear(zs: seq<Zombie>, bullets: seq<Bullet>, health: int, score: int,
                                           px: int, py: int, shielded: bool, sqrt: real -> real)
    requires 0 <= health
    ensures Clear(Pass(zs, bullets, health, score, px, py, shielded, sqrt), px, py)
    ensures forall k :: 0 <= k < |Pass(zs, bullets, health, score, px, py, shielded, sqrt).bullets| ==>
      Pass(zs, bullets, health, score, px, py, shielded, sqrt).bullets[k] in bullets
  {
    if zs != [] {
      var o := Pass(zs[..|zs| - 1], bullets, health, score, px, py, shielded, sqrt);
      PassLeavesClear(zs[..|zs| - 1], bullets, health, score, px, py, shielded, sqrt);
      ResolveKeepsClear(o, Chase(zs[|zs| - 1], px, py, sqrt), px, py, shielded);
    }
  }

  lemma ResolveKeepsClear(o: Outcome, z: Zombie, px: int, py: int, shielded: bool)
    requires 0 <= o.health && Clear(o, px, py)
    ensures Clear(Resolve(o, z, px, py, shielded), px, py)
    ensures forall k :: 0 <= k < |Resolve(o, z, px, py, shielded).bullets| ==>
      Resolve(o, z, px, py, shielded).bullets[k] in o.bullets
  {
    var r := Resolve(o, z, px, py, shielded);
    if !TouchesPlayer(z, px, py) {
      var i := FirstHit(o.bullets, z);
      if i < |o.bullets| {
        forall k, j | 0 <= k < |r.survivors| && 0 <= j < |r.bullets|
          ensures !Contains(r.survivors[k], r.bullets[j])
        {
          assert r.bullets[j] == o.bullets[if j < i then j else j + 1];
        }
      }
    }
  }

  /** A pass where nobody is hit keeps every moved zombie, in order. */
  lemma {:induction false} QuietPass(zs: seq<Zombie>, bullets: seq<Bullet>, health: int, score: int,
                                     px: int, py: int, shielded: bool, sqrt: real -> real)
    requires 0 <= health
    requires Pass(zs, bullets, health, score, px, py, shielded, sqrt).contacts == 0
    requires Pass(zs, bullets, health, score, px, py, shielded, sqrt).kills == 0
    ensures Pass(zs, bullets, health, score, px, py, shielded, sqrt).survivors ==
      seq(|zs|, k requires 0 <= k < |zs| => Chase(zs[k], px, py, sqrt))
  {
    if zs != [] {
      var init := zs[..|zs| - 1];
      var o := Pass(init, bullets, health, score, px, py, shielded, sqrt);
      var r := Pass(zs, bullets, health, score, px, py, shielded, sqrt);
      assert o.contacts <= r.contacts && o.kills <= r.kills;
      QuietPass(init, bullets, health, score, px, py, shielded, sqrt);
    }
  }

  /** Bullets leave the game once their top-left point is off the screen
      (the edges themselves still count as on screen). */
  function OnScreen(b: Bullet): (on: bool)
    ensures on <==> !(b.x < 0.0 || b.x > ScreenWidth as real || b.y < 0.0 || b.y > ScreenHeight as real)
  {
    0.0 <= b.x <= ScreenWidth as real && 0.0 <= b.y <= ScreenHeight as real
  }

  /** The bullet pass: every bullet moves, and those now off the screen
      are dropped; the rest keep their order. */
  function Flown(bs: seq<Bullet>, cos: real -> real, sin: real -> real): (r: seq<Bullet>)
    ensures |r| <= |bs|
  {
    if bs == [] then []
    else
      var rest := Flown(bs[..|bs| - 1], cos, sin);
      var b := MoveBullet(bs[|bs| - 1], cos, sin);
      if OnScreen(b) then rest + [b] else rest
  }

  /** The bullets the pass keeps are moved bullets on the screen, and
      every moved bullet on the screen is kept. */
  lemma {:induction false} FlownSpec(bs: seq<Bullet>, cos: real -> real, sin: real -> real)
    ensures var r := Flown(bs, cos, sin);
            && |r| <= |bs|
            && (forall k :: 0 <= k < |r| ==> OnScreen(r[k]))
            && (forall k :: 0 <= k < |bs| && OnScreen(MoveBullet(bs[k], cos, sin)) ==> MoveBullet(bs[k], cos, sin) in r)
            && (forall k :: 0 <= k < |r| ==> exists j :: 0 <= j < |bs| && r[k] == MoveBullet(bs[j], cos, sin))
  {
    if bs != [] {
      FlownSpec(bs[..|bs| - 1], cos, sin);
      assert forall k :: 0 <= k < |bs| - 1 ==> bs[k] == bs[..|bs| - 1][k];
    }
  }

  /** The player's centre (cx, cy) collects a pickup when it lies strictly
      within 20 pixels of the pickup on both axes. */
  function Grabs(p: Pickup, cx: int, cy: int): (grabbed: bool)
    ensures grabbed <==> -20.0 < cx as real - p.x < 20.0 && -20.0 < cy as real - p.y < 20.0
  {
    p.x - 20.0 < cx as real < p.x + 20.0 && p.y - 20.0 < cy as real < p.y + 20.0
  }

  /** The pickups left after the player at centre (cx, cy) collects, in
      list order. */
  function Uncollected(ps: seq<Pickup>, cx: int, cy: int): (r: seq<Pickup>)
    ensures |r| <= |ps|
  {
    if ps == [] then []
    else
      var rest := Uncollected(ps[..|ps| - 1], cx, cy);
      var p := ps[|ps| - 1];
      if Grabs(p, cx, cy) then rest else rest + [p]
  }

  /** The kinds of the pickups collected, in list order. */
  function Collected(ps: seq<Pickup>, cx: int, cy: int): (r: seq<Kind>)
    ensures |r| <= |ps|
  {
    if ps == [] then []
    else
      var rest := Collected(ps[..|ps| - 1], cx, cy);
      var p := ps[|ps| - 1];
      if Grabs(p, cx, cy) then rest + [p.kind] else rest
  }

  /** Collection splits the pickups: every pickup the centre reaches is
      collected (its kind is granted) and every other one stays, so the two
      lists account for all of them. */
  lemma {:induction false} CollectionSplits(ps: seq<Pickup>, cx: int, cy: int)
    ensures |Uncollected(ps, cx, cy)| + |Collected(ps, cx, cy)| == |ps|
    ensures forall k :: 0 <= k < |Uncollected(ps, cx, cy)| ==>
      Uncollected(ps, cx, cy)[k] in ps && !Grabs(Uncollected(ps, cx, cy)[k], cx, cy)
    ensures forall k :: 0 <= k < |ps| && !Grabs(ps[k], cx, cy) ==> ps[k] in Uncollected(ps, cx, cy)
    ensures forall k :: 0 <= k < |ps| && Grabs(ps[k], cx, cy) ==> ps[k].kind in Collected(ps, cx, cy)
  {
    if ps != [] {
      var init := ps[..|ps| - 1];
      CollectionSplits(init, cx, cy);
      assert forall k :: 0 <= k < |ps| - 1 ==> ps[k] == init[k];
    }
  }

  /** One more pickup of the collection pass. */
  lemma CollectStep(ps: seq<Pickup>, i: nat, cx: int, cy: int)
    requires i < |ps|
    ensures Uncollected(ps[..i + 1], cx, cy)
         == if Grabs(ps[i], cx, cy) then Uncollected(ps[..i], cx, cy) else Uncollected(ps[..i], cx, cy) + [ps[i]]
    ensures Collected(ps[..i + 1], cx, cy)
         == if Grabs(ps[i], cx, cy) then Collected(ps[..i], cx, cy) + [ps[i].kind] else Collected(ps[..i], cx, cy)
  {
    assert ps[..i + 1][..i] == ps[..i];
  }

  /** One more zombie of the pass. */
  lemma PassStep(zs: seq<Zombie>, i: nat, bullets: seq<Bullet>, health: int, score: int,
                 px: int, py: int, shielded: bool, sqrt: real -> real)
    requires i < |zs| && 0 <= health
    ensures Pass(zs[..i + 1], bullets, health, score, px, py, shielded, sqrt)
         == Resolve(Pass(zs[..i], bullets, health, score, px, py, shielded, sqrt), Chase(zs[i], px, py, sqrt), px, py, shielded)
  {
    assert zs[..i + 1][..i] == zs[..i];
  }
}
