/** One frame of the p5.js game (`draw` in sketch.js while a game runs):
    movement, aim and shooting with a cooldown, the wave clock and its
    one-zombie-per-second spawning, the zombie, bullet and power-up passes
    over the global lists (each walked from its last index down, splicing
    in place), the visual effects and the AI assistant; and around the
    frame, `resetGame` and the e-mail entry keys of the game-over screen.
    Randomness, the maths library and the input devices are parameters. */
module JsGame {
  import opened Powerups
  import opened Entities
  import opened Effects
  import opened JsPlayer
  import opened JsRules

  const AssistantPeriod: int := 10
  const MaxEmailLength: int := 50

  /** What the keyboard and mouse report for one frame. */
  datatype Controls = Controls(
    mouseX: real, mouseY: real, mousePressed: bool,
    left: bool, right: bool, up: bool, down: bool)

  /** The random draws of one frame: where a new zombie appears, and for
      the kill numbered `n` of the bullet pass whether (and which) pickup
      drops. */
  datatype Draws = Draws(edge: EdgeDraw, drop: nat -> Option<Kind>)

  /** The maths library: square root, cosine, sine and arc tangent, and pi. */
  datatype Maths = Maths(sqrt: real -> real, cos: real -> real, sin: real -> real,
                         atan2: (real, real) -> real, pi: real)

  /** The keys `keyPressed` reacts to. */
  datatype Key = Enter | Backspace | OtherKey

  /** The position after the movement keys of one frame, taken in the
      order left, right, up, down, each one step of `step`. */
  function Walk(c: Controls, x: real, y: real, step: real): (r: (real, real))
    requires step == PlayerSpeed || step == BoostedSpeed
    ensures InBand(x, y) ==> InBand(r.0, r.1)
    ensures !c.left && !c.right && !c.up && !c.down ==> r == (x, y)
  {
    var p1 := if c.left then Stepped(Left, x, y, step) else (x, y);
    var p2 := if c.right then Stepped(Right, p1.0, p1.1, step) else p1;
    var p3 := if c.up then Stepped(Up, p2.0, p2.1, step) else p2;
    if c.down then Stepped(Down, p3.0, p3.1, step) else p3
  }

  /** The shooting cooldown after a frame: a shot (mouse pressed with the
      cooldown run out) sets it to 5 under Rapid Fire, else 10; then it
      counts down once. */
  function Cooled(cooldown: int, fires: bool, rapid: bool): (r: int)
    requires 0 <= cooldown <= 10
    ensures 0 <= r < 10
    ensures fires ==> r == (if rapid then 4 else 9)
    ensures !fires ==> r == (if cooldown > 0 then cooldown - 1 else 0)
  {
    var c := if fires then (if rapid then 5 else 10) else cooldown;
    if c > 0 then c - 1 else c
  }

  /** A blood splatter of the p5.js game (10 pictures, 3 frames each)
      left at `p`. */
  predicate SplatterAt(a: Splatter, p: Point) {
    a.x == p.0 && a.y == p.1 && a.maxFrames == 10 && a.delay == 3
  }

  /** The centre of the player's square. */
  function Middle(px: real, py: real): (c: Point) {
    (px + PlayerSize / 2.0, py + PlayerSize / 2.0)
  }

  /** Squared distance between the centres of a zombie and of the player
      at (px, py); `dist` compares its square roots, which order zombies
      the same way. */
  function CentreDist2(z: Zombie, px: real, py: real): real {
    var dx := z.x + HalfZombie - (px + PlayerSize / 2.0);
    var dy := z.y + HalfZombie - (py + PlayerSize / 2.0);
    dx * dx + dy * dy
  }

  /** Index `t` of `zs` is a zombie whose centre is nearest the player's
      centre, the first such. */
  predicate Nearest(zs: seq<Zombie>, t: nat, px: real, py: real)
    requires t < |zs|
  {
    (forall j :: 0 <= j < |zs| ==> CentreDist2(zs[t], px, py) <= CentreDist2(zs[j], px, py)) &&
    (forall j :: 0 <= j < t ==> CentreDist2(zs[t], px, py) < CentreDist2(zs[j], px, py))
  }

  /** Only one index is the first nearest zombie. */
  lemma NearestUnique(zs: seq<Zombie>, t: nat, u: nat, px: real, py: real)
    requires t < |zs| && u < |zs| && Nearest(zs, t, px, py) && Nearest(zs, u, px, py)
    ensures t == u
  {
    var dt, du := CentreDist2(zs[t], px, py), CentreDist2(zs[u], px, py);
    assert t < u ==> du < dt;
    assert u < t ==> dt < du;
  }

  /** The assistant's bullet for a player at (px, py): from the muzzle,
      aimed from the player's centre at the corner of zombie `z`. */
  function AssistantShotAt(z: Zombie, px: real, py: real, atan2: (real, real) -> real): (b: Bullet)
    ensures b.origin == AssistantShot
    ensures [b.(origin := Gun)] == Shots(px + Muzzle, py + Muzzle, b.angle, false)
    ensures b.angle == atan2(z.y - (py + PlayerSize / 2.0), z.x - (px + PlayerSize / 2.0))
  {
    Bullet(px + Muzzle, py + Muzzle, atan2(z.y - (py + PlayerSize / 2.0), z.x - (px + PlayerSize / 2.0)), AssistantShot)
  }

  /** The bullet list goes from `before` to `after` as the assistant
      leaves it in a frame: when it is `armed` (its timer runs and the
      frame is a multiple of 10) and a zombie exists, one bullet aimed at
      the zombie whose centre is nearest, the first such, is appended;
      otherwise nothing changes. */
  ghost predicate Assisted(before: seq<Bullet>, after: seq<Bullet>, zs: seq<Zombie>, px: real, py: real,
                           armed: bool, atan2: (real, real) -> real): (ok: bool)
    ensures ok ==> |after| == |before| + (if armed && |zs| > 0 then 1 else 0) && after[..|before|] == before
  {
    if armed && |zs| > 0 then
      exists t: nat :: t < |zs| && Nearest(zs, t, px, py) && after == before + [AssistantShotAt(zs[t], px, py, atan2)]
    else after == before
  }

  /** The assistant's step is determined: there is one list it can leave. */
  lemma AssistedDeterminate(before: seq<Bullet>, a1: seq<Bullet>, a2: seq<Bullet>, zs: seq<Zombie>, px: real, py: real,
                            armed: bool, atan2: (real, real) -> real)
    requires Assisted(before, a1, zs, px, py, armed, atan2) && Assisted(before, a2, zs, px, py, armed, atan2)
    ensures a1 == a2
  {
    if armed && |zs| > 0 {
      var t: nat :| t < |zs| && Nearest(zs, t, px, py) && a1 == before + [AssistantShotAt(zs[t], px, py, atan2)];
      var u: nat :| u < |zs| && Nearest(zs, u, px, py) && a2 == before + [AssistantShotAt(zs[u], px, py, atan2)];
      NearestUnique(zs, t, u, px, py);
    }
  }

  /** The zombies, the player's health, the game-over flag and the
      splatters are those the zombie pass over `zs[i..]` leaves (the
      first `i` zombies not yet visited), starting from health `h0`, flag
      `g0` and `s0` splatters, with the player at (px, py). */
  predicate Mauled(zs: seq<Zombie>, i: nat, s0: nat, h0: int, g0: bool, shielded: bool, px: real, py: real, sqrt: real -> real,
                   zombies: seq<Zombie>, health: int, over: bool, splatters: seq<Splatter>)
  {
    && i <= |zs|
    && var n := Contacts(zs[i..], px, py, sqrt);
    && zombies == zs[..i] + Survivors(zs[i..], px, py, sqrt)
    && health == h0 - (if shielded then 0 else ContactDamage * n)
    && over == (g0 || (n > 0 && health <= 0))
    && |splatters| == s0 + n
    && (forall k :: s0 <= k < |splatters| ==> SplatterAt(splatters[k], Middle(px, py)))
  }

  /** Before zombie `i` is visited it still sits at index `i`. */
  lemma MauledIndex(zs: seq<Zombie>, i: nat, s0: nat, h0: int, g0: bool, shielded: bool, px: real, py: real, sqrt: real -> real,
                    zombies: seq<Zombie>, health: int, over: bool, splatters: seq<Splatter>)
    requires i < |zs| && Mauled(zs, i + 1, s0, h0, g0, shielded, px, py, sqrt, zombies, health, over, splatters)
    ensures i < |zombies| && zombies[i] == zs[i]
  {
  }

  /** A zombie that reaches the player after its step is spliced out,
      bites and leaves a splatter at the player's centre, which extends
      the pass from `zs[i + 1..]` to `zs[i..]`. */
  lemma MauledBite(zs: seq<Zombie>, i: nat, s0: nat, h0: int, g0: bool, shielded: bool, px: real, py: real, sqrt: real -> real,
                   zb: seq<Zombie>, hb: int, gb: bool, sb: seq<Splatter>,
                   za: seq<Zombie>, ha: int, ga: bool, sa: seq<Splatter>)
    requires i < |zs| && Mauled(zs, i + 1, s0, h0, g0, shielded, px, py, sqrt, zb, hb, gb, sb)
    requires Touches(Chased(zb[i], px, py, sqrt), px, py)
    requires za == Without(zb, i)
    requires ha == hb - (if shielded then 0 else ContactDamage)
    requires ga == (gb || ha <= 0)
    requires |sa| == |sb| + 1 && SplatterAt(sa[|sb|], Middle(px, py))
    requires forall k :: 0 <= k < |sb| ==> sa[k] == sb[k]
    ensures Mauled(zs, i, s0, h0, g0, shielded, px, py, sqrt, za, ha, ga, sa)
  {
    ZombieStep(zs, i, px, py, sqrt);
    var rest := Survivors(zs[i + 1..], px, py, sqrt);
    assert zb[i] == zs[i];
    assert za == zs[..i] + rest;
  }

  /** A zombie that does not reach the player is replaced by its moved
      self, which extends the pass from `zs[i + 1..]` to `zs[i..]`. */
  lemma MauledWalk(zs: seq<Zombie>, i: nat, s0: nat, h0: int, g0: bool, shielded: bool, px: real, py: real, sqrt: real -> real,
                   zb: seq<Zombie>, health: int, over: bool, splatters: seq<Splatter>)
    requires i < |zs| && Mauled(zs, i + 1, s0, h0, g0, shielded, px, py, sqrt, zb, health, over, splatters)
    requires !Touches(Chased(zb[i], px, py, sqrt), px, py)
    ensures Mauled(zs, i, s0, h0, g0, shielded, px, py, sqrt, zb[i := Chased(zb[i], px, py, sqrt)], health, over, splatters)
  {
    ZombieStep(zs, i, px, py, sqrt);
    var rest := Survivors(zs[i + 1..], px, py, sqrt);
    assert zb[i] == zs[i];
    var z := Chased(zb[i], px, py, sqrt);
    assert zb[i := z] == zs[..i] + ([z] + rest);
  }

  /** The timers `t` after the first `i` kinds of the table have been
      ticked from `t0`. */
  predicate TickedUpTo(t0: Timers, i: nat, t: Timers)
    requires i <= |Kinds|
  {
    forall k :: t.Get(k) == (if k in Kinds[..i] then TickOne(t0.Get(k)) else t0.Get(k))
  }

  /** The next kind of the table is still untouched, and the prefix
      through it is the prefix before it plus that kind. */
  lemma TickedNext(t0: Timers, i: nat, t: Timers)
    requires i < |Kinds| && TickedUpTo(t0, i, t)
    ensures t.Get(Kinds[i]) == t0.Get(Kinds[i])
    ensures forall k :: k in Kinds[..i + 1] <==> k in Kinds[..i] || k == Kinds[i]
    ensures Expiring(Kinds[..i + 1], t0) == Expiring(Kinds[..i], t0) + (if t0.Get(Kinds[i]) == 1 then [Kinds[i]] else [])
  {
    assert Kinds[..i + 1] == Kinds[..i] + [Kinds[i]];
    assert Kinds[..i + 1][..i] == Kinds[..i];
  }

  /** Once every kind is ticked, the table is `Tick(t0)`. */
  lemma TickedAll(t0: Timers, t: Timers)
    requires TickedUpTo(t0, |Kinds|, t)
    ensures t == Tick(t0)
  {
    forall k: Kind ensures k in Kinds[..|Kinds|] {
      KindsListsEveryKind(k);
    }
    TimersAgree(t, Tick(t0));
  }

  /** The pickups, the timers and the message are those the pickup pass
      over `ps[i..]` leaves (the first `i` pickups not yet visited),
      starting from timers `t0` and message `m0` shown for `n0` frames,
      with the player at (px, py). */
  predicate Gleaned(ps: seq<Pickup>, i: nat, t0: Timers, m0: string, n0: int, px: real, py: real,
                    pickups: seq<Pickup>, timers: Timers, message: string, timer: int)
  {
    && i <= |ps| && WellFormed(t0)
    && pickups == ps[..i] + Kept(ps[i..], px, py)
    && timers == GrantAll(t0, Taken(ps[i..], px, py))
    && (message, timer) == Announced(Taken(ps[i..], px, py), m0, n0)
  }

  /** Before pickup `i` is visited it still sits at index `i`. */
  lemma GleanedIndex(ps: seq<Pickup>, i: nat, t0: Timers, m0: string, n0: int, px: real, py: real,
                     pickups: seq<Pickup>, timers: Timers, message: string, timer: int)
    requires i < |ps| && Gleaned(ps, i + 1, t0, m0, n0, px, py, pickups, timers, message, timer)
    ensures i < |pickups| && pickups[i] == ps[i]
  {
  }

  /** A pickup out of reach stays, and the pass extends to `ps[i..]`
      unchanged otherwise. */
  lemma GleanedKeep(ps: seq<Pickup>, i: nat, t0: Timers, m0: string, n0: int, px: real, py: real,
                    pickups: seq<Pickup>, timers: Timers, message: string, timer: int)
    requires i < |ps| && Gleaned(ps, i + 1, t0, m0, n0, px, py, pickups, timers, message, timer)
    requires !Reaches(ps[i], px, py)
    ensures Gleaned(ps, i, t0, m0, n0, px, py, pickups, timers, message, timer)
  {
    PickupStep(ps, i, px, py);
    assert Taken(ps[i..], px, py) == Taken(ps[i + 1..], px, py);
    assert ps[..i + 1] == ps[..i] + [ps[i]];
    assert pickups == ps[..i] + Kept(ps[i..], px, py);
  }

  /** A pickup in reach is spliced out, granted and announced last, which
      extends the pass to `ps[i..]`. */
  lemma GleanedTake(ps: seq<Pickup>, i: nat, t0: Timers, m0: string, n0: int, px: real, py: real,
                    pickups: seq<Pickup>, timers: Timers, message: string, timer: int)
    requires i < |ps| && Gleaned(ps, i + 1, t0, m0, n0, px, py, pickups, timers, message, timer)
    requires Reaches(ps[i], px, py)
    ensures Gleaned(ps, i, t0, m0, n0, px, py, Without(pickups, i), Grant(timers, ps[i].kind),
                    Name(ps[i].kind) + " activated!", MessageTime)
  {
    PickupStep(ps, i, px, py);
    var got := Taken(ps[i + 1..], px, py);
    GrantAllSnoc(t0, got, ps[i].kind);
    var kept := Kept(ps[i + 1..], px, py);
    assert Taken(ps[i..], px, py) == got + [ps[i].kind];
    assert Kept(ps[i..], px, py) == kept;
    assert pickups[..i] == ps[..i];
    assert pickups[i + 1..] == kept;
    assert Without(pickups, i) == ps[..i] + kept;
  }

  /** The bullets, zombies, score, pickups and new splatters are those of
      volley `o` of the bullet pass, with the first `i` bullets of `bs`
      not yet visited, starting from score `score0`, pickups `ps0` and
      `s0` splatters. */
  predicate Tracked(o: Volley, bs: seq<Bullet>, i: nat, score0: int, ps0: seq<Pickup>, s0: nat,
                    bullets: seq<Bullet>, zombies: seq<Zombie>, score: int, pickups: seq<Pickup>, splatters: seq<Splatter>)
  {
    && i <= |bs|
    && bullets == bs[..i] + o.bullets && zombies == o.zombies
    && score == score0 + KillScore * o.kills && pickups == ps0 + o.drops
    && |splatters| == s0 + |o.splats|
    && (forall k :: 0 <= k < |o.splats| ==> SplatterAt(splatters[s0 + k], o.splats[k]))
  }

  /** Before bullet `i` is visited it still sits at index `i`. */
  lemma TrackedIndex(o: Volley, bs: seq<Bullet>, i: nat, score0: int, ps0: seq<Pickup>, s0: nat,
                     bullets: seq<Bullet>, zombies: seq<Zombie>, score: int, pickups: seq<Pickup>, splatters: seq<Splatter>)
    requires i < |bs| && Tracked(o, bs, i + 1, score0, ps0, s0, bullets, zombies, score, pickups, splatters)
    ensures i < |bullets| && bullets[i] == bs[i]
  {
  }

  /** A bullet that leaves the canvas is spliced out. */
  lemma TrackedOff(o: Volley, bs: seq<Bullet>, i: nat, cos: real -> real, sin: real -> real, drop: nat -> Option<Kind>,
                   score0: int, ps0: seq<Pickup>, s0: nat,
                   bullets: seq<Bullet>, zombies: seq<Zombie>, score: int, pickups: seq<Pickup>, splatters: seq<Splatter>)
    requires i < |bs| && Tracked(o, bs, i + 1, score0, ps0, s0, bullets, zombies, score, pickups, splatters)
    requires OffCanvas(MoveBullet(bs[i], cos, sin))
    ensures Tracked(Fly(o, bs[i], cos, sin, drop), bs, i, score0, ps0, s0,
                    Without(bullets[i := MoveBullet(bs[i], cos, sin)], i), zombies, score, pickups, splatters)
  {
    var nb := bullets[i := MoveBullet(bs[i], cos, sin)];
    assert nb[..i] == bs[..i];
    assert nb[i + 1..] == o.bullets;
  }

  /** A bullet on the canvas that overlaps no zombie stays, moved. */
  lemma TrackedMiss(o: Volley, bs: seq<Bullet>, i: nat, cos: real -> real, sin: real -> real, drop: nat -> Option<Kind>,
                    score0: int, ps0: seq<Pickup>, s0: nat,
                    bullets: seq<Bullet>, zombies: seq<Zombie>, score: int, pickups: seq<Pickup>, splatters: seq<Splatter>)
    requires i < |bs| && Tracked(o, bs, i + 1, score0, ps0, s0, bullets, zombies, score, pickups, splatters)
    requires var b := MoveBullet(bs[i], cos, sin); !OffCanvas(b) && LastHit(o.zombies, b).None?
    ensures Tracked(Fly(o, bs[i], cos, sin, drop), bs, i, score0, ps0, s0,
                    bullets[i := MoveBullet(bs[i], cos, sin)], zombies, score, pickups, splatters)
  {
    var b := MoveBullet(bs[i], cos, sin);
    assert bullets[i := b] == bs[..i] + ([b] + o.bullets);
  }

  /** A bullet on the canvas that strikes zombie `j`: both are spliced
      out, the score rises by 10, the drop (if any) and a splatter appear
      at the zombie's centre. */
  lemma TrackedKill(o: Volley, bs: seq<Bullet>, i: nat, j: nat, cos: real -> real, sin: real -> real,
                    drop: nat -> Option<Kind>, score0: int, ps0: seq<Pickup>, s0: nat,
                    bb: seq<Bullet>, zb: seq<Zombie>, cb: int, pb: seq<Pickup>, sb: seq<Splatter>,
                    ba: seq<Bullet>, za: seq<Zombie>, ca: int, pa: seq<Pickup>, sa: seq<Splatter>)
    requires i < |bs| && i < |bb|
    requires Tracked(o, bs, i + 1, score0, ps0, s0, bb[i := bs[i]], zb, cb, pb, sb)
    requires var b := MoveBullet(bs[i], cos, sin); !OffCanvas(b) && LastHit(o.zombies, b) == Some(j)
    requires j < |zb| && za == Without(zb, j) && ba == Without(bb, i) && ca == cb + KillScore
    requires pa == pb + Drop(Centre(zb[j]), drop(o.kills))
    requires |sa| == |sb| + 1 && SplatterAt(sa[|sb|], Centre(zb[j]))
    requires forall k :: 0 <= k < |sb| ==> sa[k] == sb[k]
    ensures Tracked(Fly(o, bs[i], cos, sin, drop), bs, i, score0, ps0, s0, ba, za, ca, pa, sa)
  {
    var b0 := bb[i := bs[i]];
    assert ba[..i] == b0[..i] == bs[..i];
    assert ba[i..] == b0[i + 1..] == o.bullets;
    assert ba == ba[..i] + ba[i..];
  }

  class Game {
    var player: Player
    var zombies: seq<Zombie>
    var bullets: seq<Bullet>
    var pickups: seq<Pickup>
    var splatters: seq<Splatter>
    var explosions: seq<Explosion>
    var message: string
    var messageTimer: int
    var gameTick: int
    var currentWave: int
    var waveTimer: int
    var zombiesPerWave: int
    /** The wave the "Wave N" banner announces. */
    var bannerWave: int
    var waveMessageTimer: int
    var gameOver: bool
    var email: string

    /** The counters stay in their ranges, `zombiesPerWave` follows the
        wave, the e-mail entry holds at most 50 characters, and a game
        that is not over has a player with health left. */
    ghost predicate Valid()
      reads this, player
    {
      && player.Valid()
      && currentWave >= 1 && 0 <= waveTimer < WaveDuration
      && zombiesPerWave == ZombiesPerWave(currentWave)
      && 0 <= messageTimer <= MessageTime
      && 0 <= waveMessageTimer <= WaveBanner
      && 0 <= gameTick
      && |email| <= MaxEmailLength
      && (!gameOver ==> player.health > 0)
    }

    /** Every effect is well formed and listed once, and none of them is
        the game or the player. */
    ghost predicate EffectsValid()
      reads this`splatters, this`explosions, this`player, splatters, explosions
    {
      && DistinctSplatters(splatters) && DistinctExplosions(explosions)
      && (forall a :: a in splatters ==> a.Valid())
      && (forall a :: a in explosions ==> a.Valid())
      && (forall k :: 0 <= k < |splatters| ==> splatters[k] as object != this && splatters[k] as object != player)
      && (forall k :: 0 <= k < |explosions| ==> explosions[k] as object != this && explosions[k] as object != player)
    }

    /** The state `setup` leaves: a fresh player, empty lists, wave 1. */
    constructor ()
      ensures Valid() && EffectsValid() && fresh(player)
      ensures player.x == CanvasWidth / 2.0 - PlayerSize / 2.0 && player.y == CanvasHeight / 2.0 - PlayerSize / 2.0
      ensures player.angle == 0.0 && player.facing == Right && player.speed == PlayerSpeed
      ensures player.health == StartHealth && player.score == 0 && player.shootCooldown == 0 && player.timers == Idle
      ensures zombies == [] && bullets == [] && pickups == [] && splatters == [] && explosions == []
      ensures message == "" && messageTimer == 0 && gameTick == 0
      ensures currentWave == 1 && waveTimer == 0 && zombiesPerWave == 1 && waveMessageTimer == 0
      ensures !gameOver && email == ""
    {
      player := new Player();
      zombies, bullets, pickups := [], [], [];
      splatters, explosions := [], [];
      message, messageTimer, gameTick := "", 0, 0;
      currentWave, waveTimer, zombiesPerWave := 1, 0, 1;
      bannerWave, waveMessageTimer := 0, 0;
      gameOver := false;
      email := "";
    }

    /** `resetGame`: a new player with 40 health and idle timers, empty
        lists, wave 1 and a running game.  The frame counter, the message
        and banner timers and the e-mail entry are not reset (they are
        outside the frame the method may change). */
    method ResetGame()
      requires Valid()
      modifies this`player, this`zombies, this`bullets, this`pickups, this`splatters, this`explosions,
               this`currentWave, this`waveTimer, this`zombiesPerWave, this`gameOver
      ensures Valid() && EffectsValid() && fresh(player)
      ensures player.x == CanvasWidth / 2.0 - PlayerSize / 2.0 && player.y == CanvasHeight / 2.0 - PlayerSize / 2.0
      ensures player.angle == 0.0 && player.facing == Right && player.speed == PlayerSpeed
      ensures player.health == StartHealth && player.score == 0 && player.shootCooldown == 0 && player.timers == Idle
      ensures zombies == [] && bullets == [] && pickups == [] && splatters == [] && explosions == []
      ensures currentWave == 1 && waveTimer == 0 && zombiesPerWave == 1 && !gameOver
    {
      player := new Player();
      Restart();
    }

    /** The lists, the waves and the game-over flag as `resetGame` leaves
        them; the player is already the new one. */
    method Restart()
      requires Valid() && player.health > 0
      modifies this`zombies, this`bullets, this`pickups, this`splatters, this`explosions,
               this`currentWave, this`waveTimer, this`zombiesPerWave, this`gameOver
      ensures Valid()
      ensures zombies == [] && bullets == [] && pickups == [] && splatters == [] && explosions == []
      ensures currentWave == 1 && waveTimer == 0 && zombiesPerWave == 1 && !gameOver
    {
      ClearLists();
      currentWave, waveTimer, zombiesPerWave := 1, 0, 1;
      gameOver := false;
    }

    /** The five entity lists emptied. */
    method ClearLists()
      modifies this`zombies, this`bullets, this`pickups, this`splatters, this`explosions
      ensures zombies == [] && bullets == [] && pickups == [] && splatters == [] && explosions == []
    {
      zombies, bullets, pickups := [], [], [];
      splatters, explosions := [], [];
    }

    // -------------------------------------------------------------------
    // handleInput

    /** The movement keys: each pressed key moves the player one stride,
        left, right, up and down in turn. */
    method MoveKeys(c: Controls)
      requires Valid()
      modifies player`x, player`y
      ensures Valid()
      ensures (player.x, player.y) == Walk(c, old(player.x), old(player.y), Stride(player.timers))
    {
      if c.left {
        player.Move(Left);
      }
      if c.right {
        player.Move(Right);
      }
      if c.up {
        player.Move(Up);
      }
      if c.down {
        player.Move(Down);
      }
    }

    /** Mouse shooting: a press with the cooldown run out fires the
        player's volley and sets the cooldown; then the cooldown counts
        down once. */
    method Fire(pressed: bool)
      requires Valid()
      modifies this`bullets, player`shootCooldown
      ensures Valid()
      ensures var fires := pressed && old(player.shootCooldown) <= 0;
              && player.shootCooldown == Cooled(old(player.shootCooldown), fires, player.timers.Get(RapidFire) > 0)
              && bullets == old(bullets) + (if fires then
                   Shots(player.x + Muzzle, player.y + Muzzle, player.angle, player.timers.Get(RapidFire) > 0) else [])
    {
      if pressed && player.shootCooldown <= 0 {
        var shots := player.Shoot();
        bullets := bullets + shots;
        player.shootCooldown := if player.timers.Get(RapidFire) > 0 then 5 else 10;
      }
      if player.shootCooldown > 0 {
        player.shootCooldown := player.shootCooldown - 1;
      }
    }

    /** `handleInput`: movement, then the aim, then shooting. */
    method HandleInput(c: Controls, atan2: (real, real) -> real, pi: real)
      requires Valid() && EffectsValid()
      modifies this`bullets, player`x, player`y, player`angle, player`facing, player`shootCooldown
      ensures Valid() && EffectsValid()
      ensures (player.x, player.y) == Walk(c, old(player.x), old(player.y), Stride(player.timers))
      ensures player.angle == atan2(c.mouseY - (player.y + PlayerSize / 2.0), c.mouseX - (player.x + PlayerSize / 2.0))
      ensures player.facing == Sector(player.angle, pi)
      ensures var fires := c.mousePressed && old(player.shootCooldown) <= 0;
              var rapid := player.timers.Get(RapidFire) > 0;
              && player.shootCooldown == Cooled(old(player.shootCooldown), fires, rapid)
              && bullets == old(bullets) + (if fires then Shots(player.x + Muzzle, player.y + Muzzle, player.angle, rapid) else [])
    {
      MoveKeys(c);
      player.UpdateAim(c.mouseX, c.mouseY, atan2, pi);
      Fire(c.mousePressed);
    }

    // -------------------------------------------------------------------
    // updateWaveSystem

    /** The wave clock: every 1800 frames a new wave starts, raising
        `zombiesPerWave` and showing the banner for 180 frames. */
    method AdvanceWave()
      requires Valid()
      modifies this`waveTimer, this`currentWave, this`zombiesPerWave, this`bannerWave, this`waveMessageTimer
      ensures Valid()
      // The wave clock is the animation step of `Effects`, one picture per wave of 1800 frames.
      ensures (currentWave - 1, waveTimer) == Step(old(currentWave) - 1, old(waveTimer), WaveDuration)
      ensures currentWave != old(currentWave) ==> bannerWave == currentWave && waveMessageTimer == WaveBanner
      ensures currentWave == old(currentWave) ==> bannerWave == old(bannerWave) && waveMessageTimer == old(waveMessageTimer)
    {
      waveTimer := waveTimer + 1;
      if waveTimer >= WaveDuration {
        currentWave := currentWave + 1;
        waveTimer := 0;
        zombiesPerWave := if 3 * currentWave / 2 < MaxPerWave then 3 * currentWave / 2 else MaxPerWave;
        bannerWave := currentWave;
        waveMessageTimer := WaveBanner;
      }
    }

    /** Spawning: on frames divisible by 60 one zombie is added while
        fewer than `zombiesPerWave + wave / 3` are alive. */
    method SpawnZombie(frame: int, d: EdgeDraw)
      requires Valid() && InRange(d)
      modifies this`zombies
      ensures Valid()
      ensures zombies == old(zombies) + (if frame % SpawnPeriod == 0 && |old(zombies)| < MaxZombies(currentWave)
                                         then [Spawned(d)] else [])
    {
      if frame % SpawnPeriod == 0 {
        var maxZombies := zombiesPerWave + currentWave / 3;
        if |zombies| < maxZombies {
          zombies := zombies + [Spawned(d)];
        }
      }
    }

    /** `updateWaveSystem`: the wave clock, spawning on the frame number
        `frame` (p5's `frameCount`), then the banner timer counts down. */
    method UpdateWaveSystem(frame: int, d: EdgeDraw)
      requires Valid() && EffectsValid() && InRange(d)
      modifies this`waveTimer, this`currentWave, this`zombiesPerWave, this`bannerWave,
               this`waveMessageTimer, this`zombies
      ensures Valid() && EffectsValid()
      ensures (currentWave - 1, waveTimer) == Step(old(currentWave) - 1, old(waveTimer), WaveDuration)
      ensures currentWave != old(currentWave) ==> bannerWave == currentWave && waveMessageTimer == WaveBanner - 1
      ensures currentWave == old(currentWave) ==>
        bannerWave == old(bannerWave) &&
        waveMessageTimer == (if old(waveMessageTimer) > 0 then old(waveMessageTimer) - 1 else 0)
      ensures zombies == old(zombies) + (if frame % SpawnPeriod == 0 && |old(zombies)| < MaxZombies(currentWave)
                                         then [Spawned(d)] else [])
    {
      AdvanceWave();
      SpawnZombie(frame, d);
      if waveMessageTimer > 0 {
        waveMessageTimer := waveMessageTimer - 1;
      }
    }

    // -------------------------------------------------------------------
    // Effects

    /** A new blood splatter at `p` joins the effect list. */
    method AddSplatter(p: Point)
      requires EffectsValid()
      modifies this`splatters
      ensures EffectsValid()
      ensures |splatters| == |old(splatters)| + 1
      ensures forall k :: 0 <= k < |old(splatters)| ==> splatters[k] == old(splatters)[k]
      ensures SplatterAt(splatters[|old(splatters)|], p) && fresh(splatters[|old(splatters)|])
    {
      var a := new Splatter.Js(p.0, p.1);
      splatters := splatters + [a];
    }

    // -------------------------------------------------------------------
    // updateZombies

    /** A zombie at index `i` that reached the player: it is spliced out,
        the player loses 10 health unless shielded (with no clamp), a
        splatter appears at the player's centre, and health at or below 0
        ends the game. */
    method Bite(i: nat)
      requires player.Valid() && EffectsValid() && i < |zombies|
      modifies this`zombies, this`splatters, this`gameOver, player`health
      ensures player.Valid() && EffectsValid()
      ensures zombies == Without(old(zombies), i)
      ensures player.health == old(player.health) - (if player.timers.Get(Shield) > 0 then 0 else ContactDamage)
      ensures gameOver == (old(gameOver) || player.health <= 0)
      ensures |splatters| == |old(splatters)| + 1
      ensures forall k :: 0 <= k < |old(splatters)| ==> splatters[k] == old(splatters)[k]
      ensures SplatterAt(splatters[|old(splatters)|], Middle(player.x, player.y))
      ensures fresh(splatters[|old(splatters)|])
    {
      if player.timers.Get(Shield) <= 0 {
        player.health := player.health - ContactDamage;
      }
      zombies := Without(zombies, i);
      AddSplatter(Middle(player.x, player.y));
      if player.health <= 0 {
        gameOver := true;
      }
    }

    /** One zombie of the pass, at index `i` (those above it visited): it
        steps towards the player and bites if it then overlaps. */
    method Lunge(i: nat, sqrt: real -> real, ghost zs: seq<Zombie>, ghost s0: nat, ghost h0: int, ghost g0: bool)
      requires player.Valid() && EffectsValid() && i < |zs|
      requires Mauled(zs, i + 1, s0, h0, g0, player.timers.Get(Shield) > 0, player.x, player.y, sqrt,
                      zombies, player.health, gameOver, splatters)
      modifies this`zombies, this`splatters, this`gameOver, player`health
      ensures player.Valid() && EffectsValid()
      ensures Mauled(zs, i, s0, h0, g0, player.timers.Get(Shield) > 0, player.x, player.y, sqrt,
                     zombies, player.health, gameOver, splatters)
      ensures forall k :: 0 <= k < |old(splatters)| ==> splatters[k] == old(splatters)[k]
      ensures forall a :: a in splatters && a !in old(splatters) ==> fresh(a)
    {
      MauledIndex(zs, i, s0, h0, g0, player.timers.Get(Shield) > 0, player.x, player.y, sqrt,
                  zombies, player.health, gameOver, splatters);
      var z := Chased(zombies[i], player.x, player.y, sqrt);
      if Touches(z, player.x, player.y) {
        Maul(i, sqrt, zs, s0, h0, g0);
      } else {
        MauledWalk(zs, i, s0, h0, g0, player.timers.Get(Shield) > 0, player.x, player.y, sqrt,
                   zombies, player.health, gameOver, splatters);
        zombies := zombies[i := z];
      }
    }

    /** Zombie `i` of the pass reaches the player after its step: it
        bites, which extends the pass from `zs[i + 1..]` to `zs[i..]`. */
    method Maul(i: nat, sqrt: real -> real, ghost zs: seq<Zombie>, ghost s0: nat, ghost h0: int, ghost g0: bool)
      requires player.Valid() && EffectsValid() && i < |zs| && i < |zombies|
      requires Mauled(zs, i + 1, s0, h0, g0, player.timers.Get(Shield) > 0, player.x, player.y, sqrt,
                      zombies, player.health, gameOver, splatters)
      requires Touches(Chased(zombies[i], player.x, player.y, sqrt), player.x, player.y)
      modifies this`zombies, this`splatters, this`gameOver, player`health
      ensures player.Valid() && EffectsValid()
      ensures Mauled(zs, i, s0, h0, g0, player.timers.Get(Shield) > 0, player.x, player.y, sqrt,
                     zombies, player.health, gameOver, splatters)
      ensures forall k :: 0 <= k < |old(splatters)| ==> splatters[k] == old(splatters)[k]
      ensures forall a :: a in splatters && a !in old(splatters) ==> fresh(a)
    {
      ghost var zb, hb, gb, sb := zombies, player.health, gameOver, splatters;
      Bite(i);
      MauledBite(zs, i, s0, h0, g0, player.timers.Get(Shield) > 0, player.x, player.y, sqrt,
                 zb, hb, gb, sb, zombies, player.health, gameOver, splatters);
    }

    /** `updateZombies`: from the last zombie to the first, each steps
        towards the player's centre and, if it then overlaps the player,
        bites.  The zombies left are exactly `Survivors`, the player loses
        10 health per contact unless shielded, one splatter per contact
        appears at the player's centre, and the game is over once a
        contact leaves health at or below 0. */
    method UpdateZombies(sqrt: real -> real)
      requires Valid() && EffectsValid()
      modifies this`zombies, this`splatters, this`gameOver, player`health
      ensures Valid() && EffectsValid()
      ensures Mauled(old(zombies), 0, |old(splatters)|, old(player.health), old(gameOver),
                     player.timers.Get(Shield) > 0, player.x, player.y, sqrt,
                     zombies, player.health, gameOver, splatters)
      ensures forall k :: 0 <= k < |old(splatters)| ==> splatters[k] == old(splatters)[k]
      ensures forall k :: 0 <= k < |splatters| ==> splatters[k] in old(splatters) || fresh(splatters[k])
    {
      ZombieLoop(sqrt);
      assert forall k :: 0 <= k < |splatters| ==> splatters[k] in old(splatters) || fresh(splatters[k]) by {
        forall k | 0 <= k < |splatters|
          ensures splatters[k] in old(splatters) || fresh(splatters[k])
        {
          assert splatters[k] in splatters;
        }
      }
    }

    /** The loop of `updateZombies`, from the last zombie down to the
        first. */
    method ZombieLoop(sqrt: real -> real)
      requires player.Valid() && EffectsValid()
      modifies this`zombies, this`splatters, this`gameOver, player`health
      ensures player.Valid() && EffectsValid()
      ensures Mauled(old(zombies), 0, |old(splatters)|, old(player.health), old(gameOver),
                     player.timers.Get(Shield) > 0, player.x, player.y, sqrt,
                     zombies, player.health, gameOver, splatters)
      ensures forall k :: 0 <= k < |old(splatters)| ==> splatters[k] == old(splatters)[k]
      ensures forall a :: a in splatters && a !in old(splatters) ==> fresh(a)
    {
      ghost var zs, s0 := zombies, |splatters|;
      var i := |zombies|;
      assert zs[i..] == [] && zs[..i] == zs;
      while i > 0
        invariant 0 <= i <= |zs|
        invariant player.Valid() && EffectsValid()
        invariant Mauled(zs, i, s0, old(player.health), old(gameOver), player.timers.Get(Shield) > 0, player.x, player.y, sqrt,
                         zombies, player.health, gameOver, splatters)
        invariant forall k :: 0 <= k < s0 ==> splatters[k] == old(splatters)[k]
        invariant forall a :: a in splatters && a !in old(splatters) ==> fresh(a)
      {
        i := i - 1;
        Lunge(i, sqrt, zs, s0, old(player.health), old(gameOver));
      }
    }

    // -------------------------------------------------------------------
    // updateBullets

    /** The inner search of `updateBullets`: the zombies from the last to
        the first, stopping at the first one the bullet overlaps. */
    method Target(b: Bullet) returns (hit: Option<nat>)
      ensures hit == LastHit(zombies, b)
    {
      var j := |zombies|;
      while j > 0
        invariant 0 <= j <= |zombies|
        invariant forall k :: j <= k < |zombies| ==> !Hits(b, zombies[k])
      {
        j := j - 1;
        if Hits(b, zombies[j]) {
          return Some(j);
        }
      }
      return None;
    }

    /** Bullet `i` strikes zombie `j`: both are spliced out, a splatter
        (and, if the draw says so, a pickup) appears at the zombie's
        centre, and the player gains 10 points. */
    method Kill(i: nat, j: nat, d: Option<Kind>)
      requires player.Valid() && EffectsValid() && i < |bullets| && j < |zombies|
      modifies this`zombies, this`bullets, this`splatters, this`pickups, player`score
      ensures player.Valid() && EffectsValid()
      ensures zombies == Without(old(zombies), j) && bullets == Without(old(bullets), i)
      ensures player.score == old(player.score) + KillScore
      ensures pickups == old(pickups) + Drop(Centre(old(zombies)[j]), d)
      ensures |splatters| == |old(splatters)| + 1
      ensures forall k :: 0 <= k < |old(splatters)| ==> splatters[k] == old(splatters)[k]
      ensures SplatterAt(splatters[|old(splatters)|], Centre(old(zombies)[j])) && fresh(splatters[|old(splatters)|])
    {
      var zx, zy := zombies[j].x, zombies[j].y;
      zombies := Without(zombies, j);
      if i < |bullets| {
        bullets := Without(bullets, i);
      }
      AddSplatter((zx + HalfZombie, zy + HalfZombie));
      player.score := player.score + KillScore;
      if d.Some? {
        pickups := pickups + [Pickup(zx + HalfZombie, zy + HalfZombie, d.value)];
      }
    }

    /** One bullet of the pass, at index `i` (those above it visited):
        the state moves from volley `o` to `Fly(o, bs[i], ...)`. */
    method Travel(i: nat, kills: nat, drop: nat -> Option<Kind>, cos: real -> real, sin: real -> real,
                  ghost o: Volley, ghost bs: seq<Bullet>, ghost score0: int, ghost ps0: seq<Pickup>, ghost s0: nat)
      returns (killed: bool)
      requires player.Valid() && EffectsValid() && i < |bs| && kills == o.kills
      requires Tracked(o, bs, i + 1, score0, ps0, s0, bullets, zombies, player.score, pickups, splatters)
      modifies this`zombies, this`bullets, this`splatters, this`pickups, player`score
      ensures player.Valid() && EffectsValid()
      ensures Tracked(Fly(o, bs[i], cos, sin, drop), bs, i, score0, ps0, s0, bullets, zombies, player.score, pickups, splatters)
      ensures Fly(o, bs[i], cos, sin, drop).kills == kills + (if killed then 1 else 0)
      ensures forall k :: 0 <= k < |old(splatters)| ==> splatters[k] == old(splatters)[k]
      ensures forall a :: a in splatters && a !in old(splatters) ==> fresh(a)
    {
      TrackedIndex(o, bs, i, score0, ps0, s0, bullets, zombies, player.score, pickups, splatters);
      var b := MoveBullet(bullets[i], cos, sin);
      killed := false;
      if OffCanvas(b) {
        TrackedOff(o, bs, i, cos, sin, drop, score0, ps0, s0, bullets, zombies, player.score, pickups, splatters);
        bullets := bullets[i := b];
        bullets := Without(bullets, i);
      } else {
        var hit := Target(b);
        if hit.Some? {
          Strike(i, hit.value, kills, drop, cos, sin, o, bs, score0, ps0, s0);
          killed := true;
        } else {
          TrackedMiss(o, bs, i, cos, sin, drop, score0, ps0, s0, bullets, zombies, player.score, pickups, splatters);
          bullets := bullets[i := b];
        }
      }
    }

    /** Bullet `i` of the pass, moved, strikes zombie `j`, the last one
        it overlaps: both go, which moves the state from volley `o` to
        `Fly(o, bs[i], ...)`. */
    method Strike(i: nat, j: nat, kills: nat, drop: nat -> Option<Kind>, cos: real -> real, sin: real -> real,
                  ghost o: Volley, ghost bs: seq<Bullet>, ghost score0: int, ghost ps0: seq<Pickup>, ghost s0: nat)
      requires player.Valid() && EffectsValid() && i < |bs| && kills == o.kills
      requires Tracked(o, bs, i + 1, score0, ps0, s0, bullets, zombies, player.score, pickups, splatters)
      requires var b := MoveBullet(bs[i], cos, sin); !OffCanvas(b) && LastHit(o.zombies, b) == Some(j)
      modifies this`zombies, this`bullets, this`splatters, this`pickups, player`score
      ensures player.Valid() && EffectsValid()
      ensures Tracked(Fly(o, bs[i], cos, sin, drop), bs, i, score0, ps0, s0, bullets, zombies, player.score, pickups, splatters)
      ensures Fly(o, bs[i], cos, sin, drop).kills == kills + 1
      ensures forall k :: 0 <= k < |old(splatters)| ==> splatters[k] == old(splatters)[k]
      ensures forall a :: a in splatters && a !in old(splatters) ==> fresh(a)
    {
      TrackedIndex(o, bs, i, score0, ps0, s0, bullets, zombies, player.score, pickups, splatters);
      bullets := bullets[i := MoveBullet(bullets[i], cos, sin)];
      ghost var bb, zb, cb, pb, sb := bullets, zombies, player.score, pickups, splatters;
      Kill(i, j, drop(kills));
      TrackedKill(o, bs, i, j, cos, sin, drop, score0, ps0, s0, bb, zb, cb, pb, sb,
                  bullets, zombies, player.score, pickups, splatters);
    }

    /** `updateBullets`: from the last bullet to the first, each moves and
        is removed off the canvas; otherwise the last zombie it overlaps
        is killed with it.  The pass ends in exactly the state
        `BulletPass` computes: the bullets and zombies left, 10 points
        per kill, a splatter per kill and the drops at the kills. */
    method UpdateBullets(cos: real -> real, sin: real -> real, drop: nat -> Option<Kind>)
      requires Valid() && EffectsValid()
      modifies this`zombies, this`bullets, this`splatters, this`pickups, player`score
      ensures Valid() && EffectsValid()
      ensures var o := BulletPass(old(bullets), old(zombies), cos, sin, drop);
              Tracked(o, old(bullets), 0, old(player.score), old(pickups), |old(splatters)|,
                      bullets, zombies, player.score, pickups, splatters)
      ensures forall k :: 0 <= k < |old(splatters)| ==> splatters[k] == old(splatters)[k]
      ensures forall k :: 0 <= k < |splatters| ==> splatters[k] in old(splatters) || fresh(splatters[k])
    {
      FlyBullets(cos, sin, drop);
    }

    /** The loop of `updateBullets`, from the last bullet down to the
        first; each visit is `Travel`. */
    method FlyBullets(cos: real -> real, sin: real -> real, drop: nat -> Option<Kind>)
      requires player.Valid() && EffectsValid()
      modifies this`zombies, this`bullets, this`splatters, this`pickups, player`score
      ensures player.Valid() && EffectsValid()
      ensures var o := BulletPass(old(bullets), old(zombies), cos, sin, drop);
              Tracked(o, old(bullets), 0, old(player.score), old(pickups), |old(splatters)|,
                      bullets, zombies, player.score, pickups, splatters)
      ensures forall k :: 0 <= k < |old(splatters)| ==> splatters[k] == old(splatters)[k]
      ensures forall k :: 0 <= k < |splatters| ==> splatters[k] in old(splatters) || fresh(splatters[k])
    {
      ghost var bs, s0 := bullets, |splatters|;
      ghost var o := BulletPass([], zombies, cos, sin, drop);
      var kills := 0;
      var i := |bullets|;
      assert bs[i..] == [];
      assert bs[..i] == bs;
      while i > 0
        invariant 0 <= i <= |bs|
        invariant player.Valid() && EffectsValid()
        invariant o == BulletPass(bs[i..], old(zombies), cos, sin, drop) && kills == o.kills
        invariant Tracked(o, bs, i, old(player.score), old(pickups), s0, bullets, zombies, player.score, pickups, splatters)
        invariant forall k :: 0 <= k < s0 ==> splatters[k] == old(splatters)[k]
        invariant forall a :: a in splatters && a !in old(splatters) ==> fresh(a)
      {
        i := i - 1;
        BulletStep(bs, i, old(zombies), cos, sin, drop);
        var killed := Travel(i, kills, drop, cos, sin, o, bs, old(player.score), old(pickups), s0);
        o := Fly(o, bs[i], cos, sin, drop);
        if killed {
          kills := kills + 1;
        }
      }
      assert bs[0..] == bs;
      assert forall k :: 0 <= k < |splatters| ==> splatters[k] in old(splatters) || fresh(splatters[k]) by {
        forall k | 0 <= k < |splatters|
          ensures splatters[k] in old(splatters) || fresh(splatters[k])
        {
          assert splatters[k] in splatters;
        }
      }
    }

    // -------------------------------------------------------------------
    // updatePowerups

    /** Pickup `i`, reached by the player: its kind's timer is set to the
        full duration (Speed Boost also boosts the speed), it is announced
        for 120 frames, and it is spliced out. */
    method Collect(i: nat)
      requires Valid() && i < |pickups|
      modifies this`pickups, this`message, this`messageTimer, player`timers, player`speed
      ensures Valid()
      ensures pickups == Without(old(pickups), i)
      ensures player.timers == Grant(old(player.timers), old(pickups)[i].kind)
      ensures message == Name(old(pickups)[i].kind) + " activated!" && messageTimer == MessageTime
    {
      var k := pickups[i].kind;
      player.timers := player.timers.Set(k, Duration(k));
      if k == SpeedBoost {
        player.speed := player.baseSpeed * 1.5;
      }
      message := Name(k) + " activated!";
      messageTimer := MessageTime;
      pickups := Without(pickups, i);
    }

    /** The pickup loop of `updatePowerups`, from the last pickup to the
        first: what the player reaches is collected, the rest stays. */
    method CollectPickups()
      requires Valid()
      modifies this`pickups, this`message, this`messageTimer, player`timers, player`speed
      ensures Valid()
      ensures var got := Taken(old(pickups), player.x, player.y);
              && pickups == Kept(old(pickups), player.x, player.y)
              && player.timers == GrantAll(old(player.timers), got)
              && (message, messageTimer) == Announced(got, old(message), old(messageTimer))
    {
      ghost var ps := pickups;
      var i := |pickups|;
      assert ps[i..] == [] && ps[..i] == ps;
      while i > 0
        invariant 0 <= i <= |ps|
        invariant Valid()
        invariant Gleaned(ps, i, old(player.timers), old(message), old(messageTimer), player.x, player.y,
                          pickups, player.timers, message, messageTimer)
      {
        i := i - 1;
        Gather(i, ps, old(player.timers), old(message), old(messageTimer));
      }
      assert ps[0..] == ps;
    }

    /** The visit of pickup `i` in the pickup loop. */
    method Gather(i: nat, ghost ps: seq<Pickup>, ghost t0: Timers, ghost m0: string, ghost n0: int)
      requires Valid() && i < |ps| && WellFormed(t0)
      requires Gleaned(ps, i + 1, t0, m0, n0, player.x, player.y, pickups, player.timers, message, messageTimer)
      modifies this`pickups, this`message, this`messageTimer, player`timers, player`speed
      ensures Valid()
      ensures Gleaned(ps, i, t0, m0, n0, player.x, player.y, pickups, player.timers, message, messageTimer)
    {
      GleanedIndex(ps, i, t0, m0, n0, player.x, player.y, pickups, player.timers, message, messageTimer);
      if Reaches(pickups[i], player.x, player.y) {
        GleanedTake(ps, i, t0, m0, n0, player.x, player.y, pickups, player.timers, message, messageTimer);
        Collect(i);
      } else {
        GleanedKeep(ps, i, t0, m0, n0, player.x, player.y, pickups, player.timers, message, messageTimer);
      }
    }

    /** The timer loop of `updatePowerups`, in table order: every running
        timer counts down; one reaching 0 is announced as expired for 60
        frames, and Speed Boost's end restores the base speed. */
    method ExpireTimers()
      requires Valid()
      modifies this`message, this`messageTimer, player`timers, player`speed
      ensures Valid()
      ensures player.timers == Tick(old(player.timers))
      ensures (message, messageTimer) == Expired(Expiring(Kinds, old(player.timers)), old(message), old(messageTimer))
    {
      ghost var t0 := player.timers;
      var i := 0;
      while i < |Kinds|
        invariant 0 <= i <= |Kinds|
        invariant TickedUpTo(t0, i, player.timers)
        invariant player.speed == (if SpeedBoost in Kinds[..i] && t0.Get(SpeedBoost) == 1 then PlayerSpeed else old(player.speed))
        invariant (message, messageTimer) == Expired(Expiring(Kinds[..i], t0), old(message), old(messageTimer))
      {
        Expire(i, t0, old(player.speed), old(message), old(messageTimer));
        i := i + 1;
      }
      assert Kinds[..i] == Kinds;
      TickedAll(t0, player.timers);
    }

    /** The visit of `Kinds[i]` in the timer loop. */
    method Expire(i: nat, ghost t0: Timers, ghost s0: real, ghost m0: string, ghost n0: int)
      requires i < |Kinds| && TickedUpTo(t0, i, player.timers) && player.baseSpeed == PlayerSpeed
      requires player.speed == (if SpeedBoost in Kinds[..i] && t0.Get(SpeedBoost) == 1 then PlayerSpeed else s0)
      requires (message, messageTimer) == Expired(Expiring(Kinds[..i], t0), m0, n0)
      modifies this`message, this`messageTimer, player`timers, player`speed
      ensures TickedUpTo(t0, i + 1, player.timers)
      ensures player.speed == (if SpeedBoost in Kinds[..i + 1] && t0.Get(SpeedBoost) == 1 then PlayerSpeed else s0)
      ensures (message, messageTimer) == Expired(Expiring(Kinds[..i + 1], t0), m0, n0)
    {
      var name := Kinds[i];
      TickedNext(t0, i, player.timers);
      ghost var gone := Expiring(Kinds[..i + 1], t0);
      assert gone != [] && gone[|gone| - 1] == name ==> Expired(gone, m0, n0) == (Name(name) + " expired", ExpiryTime);
      if player.timers.Get(name) > 0 {
        player.timers := player.timers.Set(name, player.timers.Get(name) - 1);
        if player.timers.Get(name) == 0 {
          if name == SpeedBoost {
            player.speed := player.baseSpeed;
          }
          message := Name(name) + " expired";
          messageTimer := ExpiryTime;
        }
      }
    }

    /** `updatePowerups`: the pickup loop, the timer loop, then the
        message timer counts down. */
    method UpdatePowerups()
      requires Valid() && EffectsValid()
      modifies this`pickups, this`message, this`messageTimer, player`timers, player`speed
      ensures Valid() && EffectsValid()
      ensures var got := Taken(old(pickups), player.x, player.y);
              && pickups == Kept(old(pickups), player.x, player.y)
              && player.timers == Tick(GrantAll(old(player.timers), got))
    {
      CollectPickups();
      ExpireTimers();
      if messageTimer > 0 {
        messageTimer := messageTimer - 1;
      }
    }

    // -------------------------------------------------------------------
    // updateVisualEffects

    /** The splatter loop of `updateVisualEffects`: every splatter takes
        one frame and finished ones are dropped. */
    method AgeSplatters()
      requires Valid() && EffectsValid()
      modifies this`splatters, splatters
      ensures Valid() && EffectsValid()
      ensures forall a :: a in old(splatters) ==> (a.frame, a.counter) == Step(old(a.frame), old(a.counter), a.delay)
      ensures splatters == LivingSplatters(old(splatters))
    {
      ghost var s0 := splatters;
      assert forall a :: a in splatters ==> a as object != this && a as object != player;
      var s := UpdateSplatters(splatters);
      LivingSplattersDistinct(s0);
      label updated:
      splatters := s;
      LivingSplattersFrame@updated(s0);
    }

    /** The explosion loop of `updateVisualEffects`. */
    method AgeExplosions()
      requires Valid() && EffectsValid()
      modifies this`explosions, explosions
      ensures Valid() && EffectsValid()
      ensures forall a :: a in old(explosions) ==> (a.frame, a.counter) == Step(old(a.frame), old(a.counter), a.delay)
      ensures explosions == LivingExplosions(old(explosions))
    {
      ghost var e0 := explosions;
      assert forall a :: a in explosions ==> a as object != this && a as object != player;
      var e := UpdateExplosions(explosions);
      LivingExplosionsDistinct(e0);
      label updated:
      explosions := e;
      LivingExplosionsFrame@updated(e0);
    }

    // -------------------------------------------------------------------
    // The AI assistant

    /** `findNearestZombie`: nothing when there are no zombies; otherwise
        the first zombie whose centre is nearest the player's centre. */
    method FindNearestZombie() returns (r: Option<nat>)
      ensures r.None? <==> |zombies| == 0
      ensures r.Some? ==> r.value < |zombies| && Nearest(zombies, r.value, player.x, player.y)
    {
      if |zombies| == 0 {
        return None;
      }
      var best := 0;
      var minDistance := CentreDist2(zombies[0], player.x, player.y);
      var i := 1;
      while i < |zombies|
        invariant 1 <= i <= |zombies| && best < i
        invariant minDistance == CentreDist2(zombies[best], player.x, player.y)
        invariant forall j :: 0 <= j < i ==> minDistance <= CentreDist2(zombies[j], player.x, player.y)
        invariant forall j :: 0 <= j < best ==> minDistance < CentreDist2(zombies[j], player.x, player.y)
      {
        var distance := CentreDist2(zombies[i], player.x, player.y);
        if distance < minDistance {
          minDistance := distance;
          best := i;
        }
        i := i + 1;
      }
      return Some(best);
    }

    /** The AI assistant fires one bullet every 10 frames while its timer
        runs and a zombie exists: from the muzzle, aimed from the player's
        centre at the corner of the zombie whose centre is nearest. */
    method AssistantFire(atan2: (real, real) -> real) returns (target: Option<nat>)
      requires Valid() && EffectsValid()
      modifies this`bullets
      ensures Valid() && EffectsValid()
      ensures target.Some? <==> player.timers.Get(Assistant) > 0 && gameTick % AssistantPeriod == 0 && |zombies| > 0
      ensures target.None? ==> bullets == old(bullets)
      ensures target.Some? ==>
        && target.value < |zombies|
        && Nearest(zombies, target.value, player.x, player.y)
        && bullets == old(bullets) + [AssistantShotAt(zombies[target.value], player.x, player.y, atan2)]
      ensures Assisted(old(bullets), bullets, zombies, player.x, player.y,
                       player.timers.Get(Assistant) > 0 && gameTick % AssistantPeriod == 0, atan2)
    {
      target := None;
      if player.timers.Get(Assistant) > 0 {
        if gameTick % AssistantPeriod == 0 && |zombies| > 0 {
          var nearest := FindNearestZombie();
          if nearest.Some? {
            var z := zombies[nearest.value];
            var dx := z.x - (player.x + PlayerSize / 2.0);
            var dy := z.y - (player.y + PlayerSize / 2.0);
            var angle := atan2(dy, dx);
            bullets := bullets + [Bullet(player.x + PlayerSize / 2.0 - 2.0, player.y + PlayerSize / 2.0 - 2.0,
                                         angle, AssistantShot)];
            target := nearest;
          }
        }
      }
    }

    // -------------------------------------------------------------------
    // The frame

    /** The first half of the game logic: input, waves and the zombie
        pass. */
    method Advance(c: Controls, draws: Draws, maths: Maths)
      requires Valid() && EffectsValid() && InRange(draws.edge)
      modifies this`bullets, this`waveTimer, this`currentWave, this`zombiesPerWave, this`bannerWave,
               this`waveMessageTimer, this`zombies, this`splatters, this`gameOver,
               player`x, player`y, player`angle, player`facing, player`shootCooldown, player`health
      ensures Valid() && EffectsValid()
      ensures player.score == old(player.score) && player.health <= old(player.health)
      ensures gameOver == (old(gameOver) || player.health <= 0)
      ensures (currentWave - 1, waveTimer) == Step(old(currentWave) - 1, old(waveTimer), WaveDuration)
      ensures forall k :: 0 <= k < |splatters| ==> splatters[k] in old(splatters) || fresh(splatters[k])
    {
      HandleInput(c, maths.atan2, maths.pi);
      UpdateWaveSystem(gameTick, draws.edge);
      UpdateZombies(maths.sqrt);
    }

    /** The second half of the game logic: bullets, power-ups, effects and
        the assistant. */
    method Settle(draws: Draws, maths: Maths)
      requires Valid() && EffectsValid()
      modifies this`zombies, this`bullets, this`splatters, this`explosions, this`pickups,
               this`message, this`messageTimer, player`timers, player`speed, player`score,
               splatters, explosions
      ensures Valid() && EffectsValid()
      ensures player.score >= old(player.score)
    {
      Harvest(draws.drop, maths.cos, maths.sin);
      Tidy(maths.atan2);
    }

    /** The bullet pass, then the power-ups. */
    method Harvest(drop: nat -> Option<Kind>, cos: real -> real, sin: real -> real)
      requires Valid() && EffectsValid()
      modifies this`zombies, this`bullets, this`splatters, this`pickups,
               this`message, this`messageTimer, player`timers, player`speed, player`score
      ensures Valid() && EffectsValid()
      ensures player.score >= old(player.score)
      ensures forall k :: 0 <= k < |splatters| ==> splatters[k] in old(splatters) || fresh(splatters[k])
    {
      UpdateBullets(cos, sin, drop);
      BulletPassTotals(old(bullets), old(zombies), cos, sin, drop);
      UpdatePowerups();
    }

    /** The effects, then the assistant. */
    method Tidy(atan2: (real, real) -> real)
      requires Valid() && EffectsValid()
      modifies this`bullets, this`splatters, this`explosions, splatters, explosions
      ensures Valid() && EffectsValid()
      ensures splatters == LivingSplatters(old(splatters)) && explosions == LivingExplosions(old(explosions))
      ensures Assisted(old(bullets), bullets, zombies, player.x, player.y,
                       player.timers.Get(Assistant) > 0 && gameTick % AssistantPeriod == 0, atan2)
    {
      UpdateVisualEffects();
      var _ := AssistantFire(atan2);
    }

    /** `updateVisualEffects`: splatters and explosions age one frame and
        finished ones go. */
    method UpdateVisualEffects()
      requires Valid() && EffectsValid()
      modifies this`splatters, this`explosions, splatters, explosions
      ensures Valid() && EffectsValid()
      ensures splatters == LivingSplatters(old(splatters)) && explosions == LivingExplosions(old(explosions))
    {
      AgeSplatters();
      AgeExplosions();
    }

    /** One call of `draw` while a game runs: the frame counter advances,
        and unless the game is over the game logic runs in the source's
        order.  The score never falls and health never rises; the game is
        over after the frame exactly when it was before or health is at
        or below 0; a new wave starts exactly every 1800 frames of play. */
    method Frame(c: Controls, draws: Draws, maths: Maths)
      requires Valid() && EffectsValid() && InRange(draws.edge)
      modifies this, player, splatters, explosions
      ensures Valid() && EffectsValid()
      ensures gameTick == old(gameTick) + 1
      ensures player.score >= old(player.score) && player.health <= old(player.health)
      ensures gameOver <==> old(gameOver) || player.health <= 0
      ensures old(gameOver) ==> currentWave == old(currentWave) && waveTimer == old(waveTimer)
      ensures !old(gameOver) ==>
        (currentWave - 1, waveTimer) == Step(old(currentWave) - 1, old(waveTimer), WaveDuration)
    {
      gameTick := gameTick + 1;
      if !gameOver {
        Play(c, draws, maths);
      }
    }

    /** The game logic of one frame of a running game, in the source's
        order. */
    method Play(c: Controls, draws: Draws, maths: Maths)
      requires Valid() && EffectsValid() && InRange(draws.edge) && !gameOver
      modifies this`bullets, this`waveTimer, this`currentWave, this`zombiesPerWave, this`bannerWave,
               this`waveMessageTimer, this`zombies, this`splatters, this`explosions, this`pickups,
               this`message, this`messageTimer, this`gameOver,
               player`x, player`y, player`angle, player`facing, player`shootCooldown, player`health,
               player`timers, player`speed, player`score, splatters, explosions
      ensures Valid() && EffectsValid()
      ensures player.score >= old(player.score) && player.health <= old(player.health)
      ensures gameOver <==> player.health <= 0
      ensures (currentWave - 1, waveTimer) == Step(old(currentWave) - 1, old(waveTimer), WaveDuration)
    {
      Advance(c, draws, maths);
      Settle(draws, maths);
    }

    // -------------------------------------------------------------------
    // The e-mail entry of the game-over screen

    /** `keyPressed`: on the game-over screen, Enter submits an address
        that is non-empty and contains `@`, and Backspace removes the last
        character; both are consumed.  Any other key, or any key while the
        game runs, is passed on. */
    method KeyPressed(key: Key) returns (passOn: bool, submit: bool)
      requires Valid()
      modifies this`email
      ensures Valid()
      ensures submit <==> gameOver && key == Enter && |old(email)| > 0 && '@' in old(email)
      ensures passOn <==> !gameOver || key == OtherKey
      ensures email == (if gameOver && key == Backspace && |old(email)| > 0 then old(email)[..|old(email)| - 1]
                        else old(email))
    {
      submit := false;
      if gameOver {
        if key == Enter {
          if |email| > 0 && '@' in email {
            submit := true;
          }
          return false, submit;
        } else if key == Backspace {
          if |email| > 0 {
            email := email[..|email| - 1];
          }
          return false, submit;
        }
      }
      return true, submit;
    }

    /** `keyTyped`: on the game-over screen the typed character is
        appended while the address is shorter than 50, so it never grows
        past 50; the key is consumed.  While the game runs it is passed
        on. */
    method KeyTyped(ch: char) returns (passOn: bool)
      requires Valid()
      modifies this`email
      ensures Valid()
      ensures passOn <==> !gameOver
      ensures email == (if gameOver && |old(email)| < MaxEmailLength then old(email) + [ch] else old(email))
    {
      if gameOver {
        if |email| < MaxEmailLength {
          email := email + [ch];
        }
        return false;
      }
      return true;
    }
  }
}
