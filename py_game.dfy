/** One frame of the Python game (`game_loop` in main.py): shooting with a
    cooldown, movement, the wave and spawn counters, the collision pass,
    bullet flight, power-up timers, pickups, visual effects, banners and
    the AI assistant's automatic fire.  Randomness, the maths library and
    the input devices are parameters of a frame. */
module PyGame {
  import opened Powerups
  import opened Entities
  import opened PyPlayer
  import opened PyWaves
  import opened PyRules
  import opened Effects

  const PickupInterval: int := 600
  const MessageTime: int := 120
  const AssistantPeriod: int := 10
  const MouseCooldown: int := 10
  const RapidCooldown: int := 5
  const KeyCooldown: int := 10

  /** A decorative rock of the map. */
  datatype Rock = Rock(x: int, y: int, size: int)

  /** `Rock.collides_with`: rocks no longer block anything, so the answer
      is always no. */
  function CollidesWith(r: Rock, x: int, y: int, width: int, height: int): (hit: bool)
    ensures !hit
  {
    false
  }

  /** What the keyboard and mouse report for one frame. */
  datatype Controls = Controls(
    quit: bool, mouseX: int, mouseY: int, mouseDown: bool, space: bool,
    left: bool, right: bool, up: bool, down: bool)

  /** The random draws of one frame: one spawn edge and offset per new
      zombie, and the position and kind of a new pickup. */
  datatype Draws = Draws(spawn: nat -> SpawnDraw, pickupX: int, pickupY: int, pickupKind: Kind)

  /** The maths library: square root, cosine, sine and arc tangent, and pi. */
  datatype Maths = Maths(sqrt: real -> real, cos: real -> real, sin: real -> real,
                         atan2: (real, real) -> real, pi: real)

  /** A new zombie of `wave` placed by draw `d`; its facing is only set
      by its first step. */
  function Spawned(d: SpawnDraw, wave: int): (z: Zombie)
    requires OffsetInRange(d) && wave >= 1
    ensures Offscreen((z.x, z.y)) && z.speed == ZombieSpeed(wave)
  {
    var p := SpawnPoint(d);
    Zombie(p.0, p.1, ZombieSpeed(wave), Down)
  }

  /** The batch spawned in `wave`: `BatchSize(wave)` zombies, all off
      screen and no faster than 4. */
  function Batch(spawn: nat -> SpawnDraw, wave: int): (r: seq<Zombie>)
    requires wave >= 1 && forall i :: OffsetInRange(spawn(i))
    ensures |r| == BatchSize(wave)
    ensures forall k :: 0 <= k < |r| ==> Offscreen((r[k].x, r[k].y)) && r[k].speed <= MaxZombieSpeed
  {
    var r := seq(BatchSize(wave), i requires 0 <= i => Spawned(spawn(i), wave));
    assert forall k :: 0 <= k < |r| ==> r[k] == Spawned(spawn(k), wave);
    r
  }

  /** The message and its timer after the pickups of kinds `got` were
      collected: the last one is announced for 120 frames; with none, both
      stay as they were. */
  function Announced(got: seq<Kind>, message: string, timer: int): (r: (string, int))
    ensures got == [] ==> r == (message, timer)
    ensures got != [] ==> r.0 == Name(got[|got| - 1]) + " activated!" && r.1 == MessageTime
  {
    if got == [] then (message, timer) else (Name(got[|got| - 1]) + " activated!", MessageTime)
  }

  /** Index `t` of `zs` is a nearest zombie to (px, py), the first such. */
  predicate Nearest(zs: seq<Zombie>, t: nat, px: real, py: real)
    requires t < |zs|
  {
    (forall j :: 0 <= j < |zs| ==> Dist2(zs[t], px, py) <= Dist2(zs[j], px, py)) &&
    (forall j :: 0 <= j < t ==> Dist2(zs[t], px, py) < Dist2(zs[j], px, py))
  }

  /** Only one index is the first nearest zombie. */
  lemma NearestUnique(zs: seq<Zombie>, t: nat, u: nat, px: real, py: real)
    requires t < |zs| && u < |zs| && Nearest(zs, t, px, py) && Nearest(zs, u, px, py)
    ensures t == u
  {
    var dt, du := Dist2(zs[t], px, py), Dist2(zs[u], px, py);
    assert t < u ==> du < dt;
    assert u < t ==> dt < du;
  }

  /** The assistant's bullet for a player at (px, py): from the muzzle,
      aimed from the player's centre at the corner of zombie `z`. */
  function AssistantShotAt(z: Zombie, px: int, py: int, atan2: (real, real) -> real): (b: Bullet)
    ensures b.origin == AssistantShot
    ensures [b.(origin := Gun)] == Shots((px + Muzzle) as real, (py + Muzzle) as real, b.angle, false)
    ensures b.angle == atan2(z.y - (py + PlayerSize / 2) as real, z.x - (px + PlayerSize / 2) as real)
  {
    Bullet((px + Muzzle) as real, (py + Muzzle) as real,
           atan2(z.y - (py + PlayerSize / 2) as real, z.x - (px + PlayerSize / 2) as real), AssistantShot)
  }

  /** The bullet list goes from `before` to `after` as the assistant
      leaves it in a frame: when it is `armed` (its timer runs and the
      frame is a multiple of 10) and a zombie exists, one bullet aimed at
      the first nearest zombie is appended; otherwise nothing changes. */
  ghost predicate Assisted(before: seq<Bullet>, after: seq<Bullet>, zs: seq<Zombie>, px: int, py: int,
                           armed: bool, atan2: (real, real) -> real): (ok: bool)
    ensures ok ==> |after| == |before| + (if armed && |zs| > 0 then 1 else 0) && after[..|before|] == before
  {
    if armed && |zs| > 0 then
      exists t: nat :: t < |zs| && Nearest(zs, t, px as real, py as real) && after == before + [AssistantShotAt(zs[t], px, py, atan2)]
    else after == before
  }

  /** The assistant's step is determined: there is one list it can leave. */
  lemma AssistedDeterminate(before: seq<Bullet>, a1: seq<Bullet>, a2: seq<Bullet>, zs: seq<Zombie>, px: int, py: int,
                            armed: bool, atan2: (real, real) -> real)
    requires Assisted(before, a1, zs, px, py, armed, atan2) && Assisted(before, a2, zs, px, py, armed, atan2)
    ensures a1 == a2
  {
    if armed && |zs| > 0 {
      var t: nat :| t < |zs| && Nearest(zs, t, px as real, py as real) && a1 == before + [AssistantShotAt(zs[t], px, py, atan2)];
      var u: nat :| u < |zs| && Nearest(zs, u, px as real, py as real) && a2 == before + [AssistantShotAt(zs[u], px, py, atan2)];
      NearestUnique(zs, t, u, px as real, py as real);
    }
  }

  /** A blood splatter just created at `p` by the Python game. */
  predicate NewSplatter(a: Splatter, p: Point)
    reads a
  {
    a.x == p.0 && a.y == p.1 && a.maxFrames == 5 && a.delay == 3 && a.frame == 0 && a.counter == 0
  }

  /** An explosion just created at `p` by the Python game. */
  predicate NewExplosion(a: Explosion, p: Point)
    reads a
  {
    a.x == p.0 && a.y == p.1 && a.maxFrames == 6 && a.delay == 2 && a.frame == 0 && a.counter == 0
  }

  class Game {
    const player: Player
    const rocks: seq<Rock>
    var zombies: seq<Zombie>
    var bullets: seq<Bullet>
    var pickups: seq<Pickup>
    var splatters: seq<Splatter>
    var explosions: seq<Explosion>
    var zombieSpawnTimer: int
    var powerupTimer: int
    var mouseCooldown: int
    var message: string
    var messageTimer: int
    var gameTick: int
    var currentWave: int
    var waveTimer: int
    var zombiesPerWave: int
    /** The wave the "Wave N incoming!" banner announces. */
    var bannerWave: int
    var waveMessageTimer: int
    var gameOver: bool

    /** The counters stay in their ranges and `zombies_per_wave` always
        follows the wave. */
    ghost predicate Valid()
      reads this, player
    {
      && player.Valid()
      && 0 <= mouseCooldown <= MouseCooldown
      && currentWave >= 1 && 0 <= waveTimer < WaveDuration
      && zombiesPerWave == ZombiesPerWave(currentWave)
      && 0 <= zombieSpawnTimer < 60
      && 0 <= powerupTimer < PickupInterval
      && 0 <= messageTimer <= MessageTime
      && 0 <= waveMessageTimer <= WaveBanner
      && 0 <= gameTick
    }

    /** Every effect is well formed and listed once, and none of them is
        the game or the player. */
    ghost predicate EffectsValid()
      reads this`splatters, this`explosions, splatters, explosions
    {
      && DistinctSplatters(splatters) && DistinctExplosions(explosions)
      && (forall a :: a in splatters ==> a.Valid())
      && (forall a :: a in explosions ==> a.Valid())
      && (forall k :: 0 <= k < |splatters| ==> splatters[k] as object != this && splatters[k] as object != player)
      && (forall k :: 0 <= k < |explosions| ==> explosions[k] as object != this && explosions[k] as object != player)
    }

    constructor (rocks: seq<Rock>)
      ensures Valid() && EffectsValid() && fresh(player) && this.rocks == rocks
      ensures player.x == ScreenWidth / 2 - PlayerSize / 2 && player.y == ScreenHeight / 2 - PlayerSize / 2
      ensures player.health == MaxHealth && player.score == 0 && player.facing == Right && player.angle == 0.0
      ensures player.timers == Idle && player.speed == PlayerSpeed as real
      ensures zombies == [] && bullets == [] && pickups == [] && splatters == [] && explosions == []
      ensures zombieSpawnTimer == 0 && powerupTimer == 0 && mouseCooldown == 0 && messageTimer == 0
      ensures gameTick == 0 && currentWave == 1 && waveTimer == 0 && zombiesPerWave == 1
      ensures waveMessageTimer == 0 && !gameOver
    {
      player := new Player();
      this.rocks := rocks;
      zombies, bullets, pickups := [], [], [];
      splatters, explosions := [], [];
      zombieSpawnTimer, powerupTimer, mouseCooldown := 0, 0, 0;
      message, messageTimer := "", 0;
      gameTick := 0;
      currentWave, waveTimer, zombiesPerWave := 1, 0, 1;
      bannerWave, waveMessageTimer := 0, 0;
      gameOver := false;
    }

    /** Mouse and space-bar shooting.  The mouse fires when the cooldown
        is 0 and sets it to 5 under Rapid Fire, else 10; the cooldown then
        counts down once; the space bar fires when it has reached 0 and
        sets it to 10.  So at most one volley leaves per frame and the
        cooldown stays in [0, 10]. */
    method FireInput(mouseDown: bool, space: bool)
      requires Valid()
      modifies this`bullets, this`mouseCooldown
      ensures Valid()
      ensures var c := old(mouseCooldown);
              var mouseShot := mouseDown && c == 0;
              var keyShot := space && !mouseShot && c <= 1;
              var rapid := player.timers.Get(RapidFire) > 0;
              && bullets == old(bullets) + (if mouseShot || keyShot then
                   Shots((player.x + Muzzle) as real, (player.y + Muzzle) as real, player.angle, rapid) else [])
              && mouseCooldown == (if mouseShot then (if rapid then RapidCooldown else MouseCooldown) - 1
                                   else if keyShot then KeyCooldown
                                   else if c > 0 then c - 1 else 0)
    {
      if mouseDown && mouseCooldown <= 0 {
        var shots := player.Shoot();
        bullets := bullets + shots;
        mouseCooldown := if player.timers.Get(RapidFire) > 0 then RapidCooldown else MouseCooldown;
      }
      if mouseCooldown > 0 {
        mouseCooldown := mouseCooldown - 1;
      }
      if space && mouseCooldown <= 0 {
        var shots := player.Shoot();
        bullets := bullets + shots;
        mouseCooldown := KeyCooldown;
      }
    }

    /** The four movement keys, checked left, right, up, down; each held
        key takes one `move`. */
    method MoveInput(left: bool, right: bool, up: bool, down: bool)
      requires Valid()
      modifies player`x, player`y, player`facing
      ensures Valid()
      ensures var p0 := (old(player.x), old(player.y));
              var p1 := if left then Stepped(Left, p0.0, p0.1) else p0;
              var p2 := if right then Stepped(Right, p1.0, p1.1) else p1;
              var p3 := if up then Stepped(Up, p2.0, p2.1) else p2;
              var p4 := if down then Stepped(Down, p3.0, p3.1) else p3;
              (player.x, player.y) == p4
      ensures player.facing == (if down then Down else if up then Up else if right then Right
                                else if left then Left else old(player.facing))
    {
      if left {
        player.Move(Left);
      }
      if right {
        player.Move(Right);
      }
      if up {
        player.Move(Up);
      }
      if down {
        player.Move(Down);
      }
    }

    /** The wave clock: the wave number and the wave timer advance as an
        effect animation with 1800 frames per picture does, so a new wave
        starts exactly every 1800 frames; a new wave is announced for 180
        frames and raises `zombies_per_wave`. */
    method AdvanceWave()
      requires Valid()
      modifies this`waveTimer, this`currentWave, this`bannerWave, this`waveMessageTimer, this`zombiesPerWave
      ensures Valid()
      // The wave clock is the animation step of `Effects`, one picture per wave of 1800 frames.
      ensures (currentWave - 1, waveTimer) == Step(old(currentWave) - 1, old(waveTimer), WaveDuration)
      ensures currentWave != old(currentWave) ==> bannerWave == currentWave && waveMessageTimer == WaveBanner
      ensures currentWave == old(currentWave) ==> bannerWave == old(bannerWave) && waveMessageTimer == old(waveMessageTimer)
    {
      waveTimer := waveTimer + 1;
      if waveTimer >= WaveDuration {
        currentWave := currentWave + 1;
        waveTimer := 0;
        bannerWave := currentWave;
        waveMessageTimer := WaveBanner;
        zombiesPerWave := 1 + currentWave / 2;
      }
    }

    /** The spawn counter: once it reaches the wave's spawn interval a
        whole batch of zombies is appended and the counter restarts. */
    method SpawnZombies(spawn: nat -> SpawnDraw)
      requires Valid()
      requires forall i :: OffsetInRange(spawn(i))
      modifies this`zombies, this`zombieSpawnTimer
      ensures Valid()
      ensures zombieSpawnTimer < SpawnRate(zombiesPerWave)
      ensures var due := old(zombieSpawnTimer) + 1 >= SpawnRate(zombiesPerWave);
              && zombies == old(zombies) + (if due then Batch(spawn, currentWave) else [])
              && zombieSpawnTimer == (if due then 0 else old(zombieSpawnTimer) + 1)
    {
      zombieSpawnTimer := zombieSpawnTimer + 1;
      var spawnRate := SpawnRate(zombiesPerWave);
      if zombieSpawnTimer >= spawnRate {
        var count := BatchSize(currentWave);
        ghost var batch := Batch(spawn, currentWave);
        for i := 0 to count
          invariant zombies == old(zombies) + batch[..i]
        {
          zombies := zombies + [Spawned(spawn(i), currentWave)];
          assert batch[..i + 1] == batch[..i] + [batch[i]];
        }
        assert batch[..count] == batch;
        zombieSpawnTimer := 0;
      }
    }

    /** A new blood splatter at `p` joins the effect list. */
    method AddSplatter(p: Point)
      requires EffectsValid()
      modifies this`splatters
      ensures EffectsValid()
      ensures |splatters| == |old(splatters)| + 1
      ensures forall k :: 0 <= k < |old(splatters)| ==> splatters[k] == old(splatters)[k]
      ensures NewSplatter(splatters[|old(splatters)|], p) && fresh(splatters[|old(splatters)|])
    {
      var a := new Splatter.Py(p.0, p.1);
      splatters := splatters + [a];
    }

    /** A new explosion at `p` joins the effect list. */
    method AddExplosion(p: Point)
      requires EffectsValid()
      modifies this`explosions
      ensures EffectsValid()
      ensures |explosions| == |old(explosions)| + 1
      ensures forall k :: 0 <= k < |old(explosions)| ==> explosions[k] == old(explosions)[k]
      ensures NewExplosion(explosions[|old(explosions)|], p) && fresh(explosions[|old(explosions)|])
    {
      var a := new Explosion.Py(p.0, p.1);
      explosions := explosions + [a];
    }

    /** The bullets, health and score are those of outcome `o` of the
        collision pass, and the splatters and explosions from indexes `s0`
        and `e0` on are the new ones `o` lists. */
    ghost predicate Tracks(o: Outcome, s0: nat, e0: nat)
      reads this`bullets, this`splatters, this`explosions, player`health, player`score, splatters, explosions
    {
      && bullets == o.bullets && player.health == o.health && player.score == o.score
      && |splatters| == s0 + |o.splats| && |explosions| == e0 + |o.blasts|
      && (forall k :: 0 <= k < |o.splats| ==> NewSplatter(splatters[s0 + k], o.splats[k]))
      && (forall k :: 0 <= k < |o.blasts| ==> NewExplosion(explosions[e0 + k], o.blasts[k]))
    }

    /** Health and score are those of outcome `o` of the collision pass,
        and the splatters and explosions from indexes `s0` and `e0` on are
        the new ones `o` lists. */
    ghost predicate Fought(o: Outcome, s0: nat, e0: nat)
      reads this`splatters, this`explosions, player`health, player`score, splatters, explosions
    {
      && player.health == o.health && player.score == o.score
      && |splatters| == s0 + |o.splats| && |explosions| == e0 + |o.blasts|
      && (forall k :: 0 <= k < |o.splats| ==> NewSplatter(splatters[s0 + k], o.splats[k]))
      && (forall k :: 0 <= k < |o.blasts| ==> NewExplosion(explosions[e0 + k], o.blasts[k]))
    }

    /** The state the combat section leaves from zombies `zs`, bullets
        `bs`, health `health`, score `score` and effect lists of lengths
        `s0` and `e0`: the zombies and bullets the collision pass leaves,
        the bullets then moved, and its health, score and new effects. */
    ghost predicate Fights(zs: seq<Zombie>, bs: seq<Bullet>, health: int, score: int, s0: nat, e0: nat,
                           sqrt: real -> real, cos: real -> real, sin: real -> real)
      requires 0 <= health
      reads this`zombies, this`bullets, this`splatters, this`explosions, player`x, player`y, player`timers,
            player`health, player`score, splatters, explosions
    {
      var o := Pass(zs, bs, health, score, player.x, player.y, player.timers.Get(Shield) > 0, sqrt);
      && zombies == o.survivors && bullets == Flown(o.bullets, cos, sin)
      && Fought(o, s0, e0)
    }

    /** A zombie that reached the player: it leaves a blood splatter, and
        the player takes 25 damage or, behind a shield, gains 5 points. */
    method Contact(z: Zombie, ghost o: Outcome, ghost s0: nat, ghost e0: nat)
      requires player.Valid() && EffectsValid() && 0 <= o.health && Tracks(o, s0, e0)
      requires TouchesPlayer(z, player.x, player.y)
      modifies this`splatters, player`health, player`score
      ensures player.Valid() && EffectsValid()
      ensures Tracks(Resolve(o, z, player.x, player.y, player.timers.Get(Shield) > 0), s0, e0)
      ensures forall k :: 0 <= k < |old(splatters)| ==> splatters[k] == old(splatters)[k]
      ensures forall k :: 0 <= k < |old(explosions)| ==> explosions[k] == old(explosions)[k]
      ensures forall a :: a in splatters && a !in old(splatters) ==> fresh(a)
      ensures forall a :: a in explosions && a !in old(explosions) ==> fresh(a)
    {
      AddSplatter(Centre(z));
      if player.timers.Get(Shield) <= 0 {
        var _ := player.TakeDamage(ContactDamage);
      } else {
        player.score := player.score + ShieldBonus;
      }
    }

    /** A zombie hit by bullet `j`, the first inside it: both are removed,
        the player gains 10 points, and a blood splatter and an explosion
        appear. */
    method Shot(z: Zombie, j: nat, ghost o: Outcome, ghost s0: nat, ghost e0: nat)
      requires player.Valid() && EffectsValid() && 0 <= o.health && Tracks(o, s0, e0)
      requires !TouchesPlayer(z, player.x, player.y) && j == FirstHit(bullets, z) && j < |bullets|
      modifies this`bullets, this`splatters, this`explosions, player`score
      ensures player.Valid() && EffectsValid()
      ensures Tracks(Resolve(o, z, player.x, player.y, player.timers.Get(Shield) > 0), s0, e0)
      ensures forall k :: 0 <= k < |old(splatters)| ==> splatters[k] == old(splatters)[k]
      ensures forall k :: 0 <= k < |old(explosions)| ==> explosions[k] == old(explosions)[k]
      ensures forall a :: a in splatters && a !in old(splatters) ==> fresh(a)
      ensures forall a :: a in explosions && a !in old(explosions) ==> fresh(a)
    {
      AddSplatter(Centre(z));
      AddExplosion((bullets[j].x, bullets[j].y));
      bullets := Without(bullets, j);
      player.score := player.score + KillScore;
    }

    /** One zombie of the collision pass, after its step: the state moves
        from outcome `o` to `Resolve(o, z, ...)`; `keep` says whether the
        zombie stays. */
    method Meet(z: Zombie, ghost o: Outcome, ghost s0: nat, ghost e0: nat) returns (keep: bool)
      requires player.Valid() && EffectsValid() && 0 <= o.health && Tracks(o, s0, e0)
      modifies this`bullets, this`splatters, this`explosions, player`health, player`score
      ensures player.Valid() && EffectsValid()
      ensures var r := Resolve(o, z, player.x, player.y, player.timers.Get(Shield) > 0);
              && Tracks(r, s0, e0)
              && r.survivors == (if keep then o.survivors + [z] else o.survivors)
      ensures forall k :: 0 <= k < |old(splatters)| ==> splatters[k] == old(splatters)[k]
      ensures forall k :: 0 <= k < |old(explosions)| ==> explosions[k] == old(explosions)[k]
      ensures forall a :: a in splatters && a !in old(splatters) ==> fresh(a)
      ensures forall a :: a in explosions && a !in old(explosions) ==> fresh(a)
    {
      keep := false;
      if TouchesPlayer(z, player.x, player.y) {
        Contact(z, o, s0, e0);
      } else {
        var j := FirstHit(bullets, z);
        if j < |bullets| {
          Shot(z, j, o, s0, e0);
        } else {
          keep := true;
        }
      }
    }

    /** The loop of the collision pass over the zombies `zs`, in order:
        the state moves from the empty outcome to `Pass(zs, ...)` and the
        zombies kept are returned. */
    method ResolveZombies(zs: seq<Zombie>, sqrt: real -> real) returns (kept: seq<Zombie>)
      requires player.Valid() && EffectsValid()
      modifies this`bullets, this`splatters, this`explosions, player`health, player`score
      ensures player.Valid() && EffectsValid()
      ensures var o := Pass(zs, old(bullets), old(player.health), old(player.score),
                            player.x, player.y, player.timers.Get(Shield) > 0, sqrt);
              kept == o.survivors && Tracks(o, |old(splatters)|, |old(explosions)|)
      ensures forall k :: 0 <= k < |old(splatters)| ==> splatters[k] == old(splatters)[k]
      ensures forall k :: 0 <= k < |old(explosions)| ==> explosions[k] == old(explosions)[k]
      ensures forall a :: a in splatters && a !in old(splatters) ==> fresh(a)
      ensures forall a :: a in explosions && a !in old(explosions) ==> fresh(a)
    {
      ghost var s0, e0 := |splatters|, |explosions|;
      ghost var shielded := player.timers.Get(Shield) > 0;
      ghost var o := Pass([], bullets, player.health, player.score, player.x, player.y, shielded, sqrt);
      kept := [];
      var i := 0;
      while i < |zs|
        invariant 0 <= i <= |zs|
        invariant player.Valid() && EffectsValid()
        invariant player.timers == old(player.timers) && player.x == old(player.x) && player.y == old(player.y)
        invariant o == Pass(zs[..i], old(bullets), old(player.health), old(player.score),
                            player.x, player.y, shielded, sqrt)
        invariant kept == o.survivors && Tracks(o, s0, e0)
        invariant forall k :: 0 <= k < s0 ==> splatters[k] == old(splatters)[k]
        invariant forall k :: 0 <= k < e0 ==> explosions[k] == old(explosions)[k]
        invariant forall a :: a in splatters && a !in old(splatters) ==> fresh(a)
        invariant forall a :: a in explosions && a !in old(explosions) ==> fresh(a)
      {
        PassStep(zs, i, old(bullets), old(player.health), old(player.score), player.x, player.y, shielded, sqrt);
        var z := Chase(zs[i], player.x, player.y, sqrt);
        var keep := Meet(z, o, s0, e0);
        o := Resolve(o, z, player.x, player.y, shielded);
        if keep {
          kept := kept + [z];
        }
        i := i + 1;
      }
      assert zs[..i] == zs;
    }

    /** The collision pass: every zombie steps towards the player and is
        resolved in list order, ending in exactly the state `Pass`
        computes; a new blood splatter or explosion is created for each of
        its points. */
    method CollisionPass(sqrt: real -> real)
      requires Valid() && EffectsValid()
      modifies this`zombies, this`bullets, this`splatters, this`explosions, player`health, player`score
      ensures Valid() && EffectsValid()
      ensures var o := Pass(old(zombies), old(bullets), old(player.health), old(player.score),
                            player.x, player.y, player.timers.Get(Shield) > 0, sqrt);
              zombies == o.survivors && Tracks(o, |old(splatters)|, |old(explosions)|)
      ensures forall k :: 0 <= k < |old(splatters)| ==> splatters[k] == old(splatters)[k]
      ensures forall k :: 0 <= k < |old(explosions)| ==> explosions[k] == old(explosions)[k]
      ensures forall k :: 0 <= k < |splatters| ==> splatters[k] in old(splatters) || fresh(splatters[k])
      ensures forall k :: 0 <= k < |explosions| ==> explosions[k] in old(explosions) || fresh(explosions[k])
    {
      var left := ResolveZombies(zombies, sqrt);
      zombies := left;
    }

    /** The bullet pass: every bullet moves and those off the screen are
        dropped. */
    method MoveBullets(cos: real -> real, sin: real -> real)
      requires Valid()
      modifies this`bullets
      ensures Valid()
      ensures bullets == Flown(old(bullets), cos, sin)
    {
      var bs := bullets;
      var kept: seq<Bullet> := [];
      for i := 0 to |bs|
        invariant kept == Flown(bs[..i], cos, sin)
      {
        assert bs[..i + 1][..i] == bs[..i];
        var b := MoveBullet(bs[i], cos, sin);
        if OnScreen(b) {
          kept := kept + [b];
        }
      }
      assert bs[..|bs|] == bs;
      bullets := kept;
    }

    /** The pickup clock: every 600 frames a pickup of the drawn kind is
        placed at the drawn point, which no rock ever blocks. */
    method SpawnPickup(x: int, y: int, kind: Kind)
      requires Valid()
      modifies this`pickups, this`powerupTimer
      ensures Valid()
      ensures old(powerupTimer) + 1 >= PickupInterval ==>
        pickups == old(pickups) + [Pickup(x as real, y as real, kind)] && powerupTimer == 0
      ensures old(powerupTimer) + 1 < PickupInterval ==>
        pickups == old(pickups) && powerupTimer == old(powerupTimer) + 1
    {
      powerupTimer := powerupTimer + 1;
      if powerupTimer >= PickupInterval {
        var validPosition := true;
        var i := 0;
        while i < |rocks|
          invariant 0 <= i <= |rocks|
          invariant validPosition
        {
          if CollidesWith(rocks[i], x - 15, y - 15, 30, 30) {
            validPosition := false;
            break;
          }
          i := i + 1;
        }
        if validPosition {
          pickups := pickups + [Pickup(x as real, y as real, kind)];
          powerupTimer := 0;
        }
      }
    }

    /** One collected pickup: its power-up is applied and announced; an
        AI Assistant picked up while zombies are on screen has its timer
        and message set a second time, to the same values. */
    method Grab(p: Pickup)
      requires Valid()
      modifies this`message, this`messageTimer, player`timers, player`speed
      ensures Valid()
      ensures player.timers == Grant(old(player.timers), p.kind)
      ensures message == Name(p.kind) + " activated!" && messageTimer == MessageTime
    {
      message := player.ApplyPowerup(p);
      messageTimer := MessageTime;
      if p.kind == Assistant && |zombies| > 0 {
        player.timers := player.timers.Set(Assistant, Duration(Assistant));
        message := Name(Assistant) + " activated!";
        messageTimer := MessageTime;
      }
    }

    /** The pickup pass: every pickup the player's centre reaches is
        removed and its power-up granted, in list order; the message names
        the last one collected. */
    method CollectPickups()
      requires Valid()
      modifies this`pickups, this`message, this`messageTimer, player`timers, player`speed
      ensures Valid()
      ensures var cx, cy := player.x + PlayerSize / 2, player.y + PlayerSize / 2;
              var got := Collected(old(pickups), cx, cy);
              && pickups == Uncollected(old(pickups), cx, cy)
              && player.timers == GrantAll(old(player.timers), got)
              && (message, messageTimer) == Announced(got, old(message), old(messageTimer))
    {
      var cx, cy := player.x + PlayerSize / 2, player.y + PlayerSize / 2;
      var left := GrabAll(pickups, cx, cy);
      pickups := left;
      assert player.x + PlayerSize / 2 == cx && player.y + PlayerSize / 2 == cy;
    }

    /** The loop of the pickup pass over `ps` for the centre (cx, cy):
        the pickups that stay, in order. */
    method GrabAll(ps: seq<Pickup>, cx: int, cy: int) returns (left: seq<Pickup>)
      requires Valid()
      modifies this`message, this`messageTimer, player`timers, player`speed
      ensures Valid()
      ensures left == Uncollected(ps, cx, cy)
      ensures player.timers == GrantAll(old(player.timers), Collected(ps, cx, cy))
      ensures (message, messageTimer) == Announced(Collected(ps, cx, cy), old(message), old(messageTimer))
    {
      left := [];
      ghost var got: seq<Kind> := [];
      for i := 0 to |ps|
        invariant Valid()
        invariant left == Uncollected(ps[..i], cx, cy)
        invariant got == Collected(ps[..i], cx, cy)
        invariant player.timers == GrantAll(old(player.timers), got)
        invariant (message, messageTimer) == Announced(got, old(message), old(messageTimer))
      {
        var p := ps[i];
        CollectStep(ps, i, cx, cy);
        Visit(p, cx, cy, old(player.timers), old(message), old(messageTimer), got);
        if Grabs(p, cx, cy) {
          got := got + [p.kind];
        } else {
          left := left + [p];
        }
      }
      assert ps[..|ps|] == ps;
    }

    /** One pickup of the pass: collected when the centre (cx, cy) reaches
        it.  `got` lists the kinds collected before it, from timers `t0`
        and message `m0` with timer `n0`. */
    method Visit(p: Pickup, cx: int, cy: int, ghost t0: Timers, ghost m0: string, ghost n0: int, ghost got: seq<Kind>)
      requires Valid() && WellFormed(t0)
      requires player.timers == GrantAll(t0, got) && (message, messageTimer) == Announced(got, m0, n0)
      modifies this`message, this`messageTimer, player`timers, player`speed
      ensures Valid()
      ensures var now := if Grabs(p, cx, cy) then got + [p.kind] else got;
              player.timers == GrantAll(t0, now) && (message, messageTimer) == Announced(now, m0, n0)
    {
      if Grabs(p, cx, cy) {
        GrantAllSnoc(t0, got, p.kind);
        Grab(p);
      }
    }

    /** The splatter pass: every splatter takes one frame and finished
        ones are dropped. */
    method UpdateSplatterList()
      requires Valid() && EffectsValid()
      modifies this`splatters, splatters
      ensures Valid() && EffectsValid()
      ensures forall a :: a in old(splatters) ==> (a.frame, a.counter) == Step(old(a.frame), old(a.counter), a.delay)
      ensures splatters == LivingSplatters(old(splatters))
    {
      ghost var s0 := splatters;
      assert forall a :: a in splatters ==> a as object != this && a as object != player;
      var s := UpdateSplatters(splatters);
      LivingSplattersDistinct(s0);
      label updated:
      splatters := s;
      LivingSplattersFrame@updated(s0);
    }

    /** The explosion pass: every explosion takes one frame and finished
        ones are dropped. */
    method UpdateExplosionList()
      requires Valid() && EffectsValid()
      modifies this`explosions, explosions
      ensures Valid() && EffectsValid()
      ensures forall a :: a in old(explosions) ==> (a.frame, a.counter) == Step(old(a.frame), old(a.counter), a.delay)
      ensures explosions == LivingExplosions(old(explosions))
    {
      ghost var e0 := explosions;
      assert forall a :: a in explosions ==> a as object != this && a as object != player;
      var e := UpdateExplosions(explosions);
      LivingExplosionsDistinct(e0);
      label updated:
      explosions := e;
      LivingExplosionsFrame@updated(e0);
    }

    /** The AI assistant fires one bullet every 10 frames while its timer
        runs and a zombie exists: from the muzzle, aimed from the player's
        centre at the corner of the zombie nearest the player's corner. */
    method AssistantFire(atan2: (real, real) -> real) returns (target: Option<nat>)
      requires Valid()
      modifies this`bullets
      ensures Valid()
      ensures target.Some? <==> player.timers.Get(Assistant) > 0 && gameTick % AssistantPeriod == 0 && |zombies| > 0
      ensures target.None? ==> bullets == old(bullets)
      ensures target.Some? ==>
        && target.value < |zombies|
        && Nearest(zombies, target.value, player.x as real, player.y as real)
        && bullets == old(bullets) + [AssistantShotAt(zombies[target.value], player.x, player.y, atan2)]
      ensures Assisted(old(bullets), bullets, zombies, player.x, player.y,
                       player.timers.Get(Assistant) > 0 && gameTick % AssistantPeriod == 0, atan2)
    {
      target := None;
      if player.timers.Get(Assistant) > 0 && gameTick % AssistantPeriod == 0 && |zombies| > 0 {
        var t := NearestIndex(zombies, player.x as real, player.y as real);
        var nearest := zombies[t];
        var dx := nearest.x - (player.x + PlayerSize / 2) as real;
        var dy := nearest.y - (player.y + PlayerSize / 2) as real;
        var angle := atan2(dy, dx);
        bullets := bullets + [Bullet((player.x + Muzzle) as real, (player.y + Muzzle) as real, angle, AssistantShot)];
        target := Some(t);
      }
    }

    /** The input section of a frame: the frame counter advances, closing
        the window ends the game, and the aim, shooting and movement
        follow the mouse and keys. */
    method HandleInput(input: Controls, atan2: (real, real) -> real, pi: real)
      requires Valid() && EffectsValid()
      modifies this`gameTick, this`gameOver, this`bullets, this`mouseCooldown,
               player`angle, player`facing, player`x, player`y
      ensures Valid() && EffectsValid()
      ensures gameTick == old(gameTick) + 1
      ensures gameOver == (old(gameOver) || input.quit)
    {
      gameTick := gameTick + 1;
      if input.quit {
        gameOver := true;
      }
      player.UpdateAim(input.mouseX, input.mouseY, atan2, pi);
      FireInput(input.mouseDown, input.space);
      MoveInput(input.left, input.right, input.up, input.down);
    }

    /** The wave section of a frame: the wave clock, then the spawn
        counter. */
    method WaveSection(spawn: nat -> SpawnDraw)
      requires Valid() && EffectsValid()
      requires forall i :: OffsetInRange(spawn(i))
      modifies this`waveTimer, this`currentWave, this`bannerWave, this`waveMessageTimer, this`zombiesPerWave,
               this`zombies, this`zombieSpawnTimer
      ensures Valid() && EffectsValid()
      ensures (currentWave - 1, waveTimer) == Step(old(currentWave) - 1, old(waveTimer), WaveDuration)
      ensures currentWave != old(currentWave) ==> bannerWave == currentWave && waveMessageTimer == WaveBanner
      ensures currentWave == old(currentWave) ==> bannerWave == old(bannerWave) && waveMessageTimer == old(waveMessageTimer)
      ensures var due := old(zombieSpawnTimer) + 1 >= SpawnRate(zombiesPerWave);
              && zombies == old(zombies) + (if due then Batch(spawn, currentWave) else [])
              && zombieSpawnTimer == (if due then 0 else old(zombieSpawnTimer) + 1)
    {
      AdvanceWave();
      SpawnZombies(spawn);
    }

    /** The combat section of a frame: the collision pass and the bullet
        pass; the game ends once health is 0.  The score never falls and
        health never rises. */
    method Combat(sqrt: real -> real, cos: real -> real, sin: real -> real)
      requires Valid() && EffectsValid()
      modifies this`zombies, this`bullets, this`splatters, this`explosions, this`gameOver,
               player`health, player`score
      ensures Valid() && EffectsValid()
      ensures Fights(old(zombies), old(bullets), old(player.health), old(player.score),
                     |old(splatters)|, |old(explosions)|, sqrt, cos, sin)
      ensures player.score >= old(player.score) && player.health <= old(player.health)
      ensures gameOver == (old(gameOver) || player.health == 0)
      ensures forall k :: 0 <= k < |old(splatters)| ==> splatters[k] == old(splatters)[k]
      ensures forall k :: 0 <= k < |old(explosions)| ==> explosions[k] == old(explosions)[k]
      ensures forall k :: 0 <= k < |splatters| ==> splatters[k] in old(splatters) || fresh(splatters[k])
      ensures forall k :: 0 <= k < |explosions| ==> explosions[k] in old(explosions) || fresh(explosions[k])
    {
      CollisionPass(sqrt);
      MoveBullets(cos, sin);
      if player.health <= 0 {
        gameOver := true;
      }
    }

    /** The power-up section of a frame: every timer ticks, the pickup
        clock may place a pickup, and the pickups the player reaches are
        collected, a pickup placed this frame included. */
    method PowerupSection(x: int, y: int, kind: Kind)
      requires Valid() && EffectsValid()
      modifies this`pickups, this`powerupTimer, this`message, this`messageTimer, player`timers, player`speed
      ensures Valid() && EffectsValid()
      ensures var due := old(powerupTimer) + 1 >= PickupInterval;
              var placed := old(pickups) + (if due then [Pickup(x as real, y as real, kind)] else []);
              var cx, cy := player.x + PlayerSize / 2, player.y + PlayerSize / 2;
              var got := Collected(placed, cx, cy);
              && powerupTimer == (if due then 0 else old(powerupTimer) + 1)
              && pickups == Uncollected(placed, cx, cy)
              && player.timers == GrantAll(Powerups.Tick(old(player.timers)), got)
              && (message, messageTimer) == Announced(got, old(message), old(messageTimer))
    {
      player.UpdatePowerups();
      PlaceAndCollect(x, y, kind);
    }

    /** The pickup clock, then the pickup pass over the list it leaves. */
    method PlaceAndCollect(x: int, y: int, kind: Kind)
      requires Valid()
      modifies this`pickups, this`powerupTimer, this`message, this`messageTimer, player`timers, player`speed
      ensures Valid()
      ensures var due := old(powerupTimer) + 1 >= PickupInterval;
              var placed := old(pickups) + (if due then [Pickup(x as real, y as real, kind)] else []);
              var cx, cy := player.x + PlayerSize / 2, player.y + PlayerSize / 2;
              var got := Collected(placed, cx, cy);
              && powerupTimer == (if due then 0 else old(powerupTimer) + 1)
              && pickups == Uncollected(placed, cx, cy)
              && player.timers == GrantAll(old(player.timers), got)
              && (message, messageTimer) == Announced(got, old(message), old(messageTimer))
    {
      SpawnPickup(x, y, kind);
      assert old(pickups) + [] == old(pickups);
      CollectPickups();
    }

    /** The effects section of a frame: splatters and explosions age and
        finished ones go. */
    method AgeEffects()
      requires Valid() && EffectsValid()
      modifies this`splatters, this`explosions, splatters, explosions
      ensures Valid() && EffectsValid()
      ensures splatters == LivingSplatters(old(splatters)) && explosions == LivingExplosions(old(explosions))
      ensures player.health == old(player.health) && player.score == old(player.score) && gameOver == old(gameOver)
      ensures currentWave == old(currentWave) && waveTimer == old(waveTimer) && gameTick == old(gameTick)
    {
      UpdateSplatterList();
      UpdateExplosionList();
    }

    /** The end of a frame: the message timer counts down, the assistant
        may fire, and the banner timer counts down. */
    method Countdown(atan2: (real, real) -> real)
      requires Valid() && EffectsValid()
      modifies this`messageTimer, this`bullets, this`waveMessageTimer
      ensures Valid() && EffectsValid()
      ensures messageTimer == (if old(messageTimer) > 0 then old(messageTimer) - 1 else 0)
      ensures waveMessageTimer == (if old(waveMessageTimer) > 0 then old(waveMessageTimer) - 1 else 0)
      ensures Assisted(old(bullets), bullets, zombies, player.x, player.y,
                       player.timers.Get(Assistant) > 0 && gameTick % AssistantPeriod == 0, atan2)
    {
      if messageTimer > 0 {
        messageTimer := messageTimer - 1;
      }
      var _ := AssistantFire(atan2);
      if waveMessageTimer > 0 {
        waveMessageTimer := waveMessageTimer - 1;
      }
    }

    /** The end of a frame: effects age, then the countdowns and the
        assistant. */
    method Tidy(atan2: (real, real) -> real)
      requires Valid() && EffectsValid()
      modifies this`splatters, this`explosions, this`messageTimer, this`bullets, this`waveMessageTimer,
               splatters, explosions
      ensures Valid() && EffectsValid()
      ensures player.health == old(player.health) && player.score == old(player.score)
      ensures gameOver == old(gameOver) && gameTick == old(gameTick)
      ensures currentWave == old(currentWave) && waveTimer == old(waveTimer)
      ensures splatters == LivingSplatters(old(splatters)) && explosions == LivingExplosions(old(explosions))
      ensures messageTimer == (if old(messageTimer) > 0 then old(messageTimer) - 1 else 0)
      ensures waveMessageTimer == (if old(waveMessageTimer) > 0 then old(waveMessageTimer) - 1 else 0)
      ensures Assisted(old(bullets), bullets, zombies, player.x, player.y,
                       player.timers.Get(Assistant) > 0 && gameTick % AssistantPeriod == 0, atan2)
    {
      AgeEffects();
      Countdown(atan2);
    }

    /** The first half of a frame: input, waves and combat. */
    method Advance(input: Controls, draws: Draws, maths: Maths)
      requires Valid() && EffectsValid() && !gameOver
      requires forall i :: OffsetInRange(draws.spawn(i))
      modifies this`gameTick, this`gameOver, this`bullets, this`mouseCooldown, this`waveTimer, this`currentWave,
               this`bannerWave, this`waveMessageTimer, this`zombiesPerWave, this`zombies, this`zombieSpawnTimer,
               this`splatters, this`explosions,
               player`angle, player`facing, player`x, player`y, player`health, player`score
      ensures Valid() && EffectsValid()
      ensures gameTick == old(gameTick) + 1
      ensures player.score >= old(player.score) && player.health <= old(player.health)
      ensures gameOver <==> input.quit || player.health == 0
      ensures (currentWave - 1, waveTimer) == Step(old(currentWave) - 1, old(waveTimer), WaveDuration)
      ensures forall k :: 0 <= k < |splatters| ==> splatters[k] in old(splatters) || fresh(splatters[k])
      ensures forall k :: 0 <= k < |explosions| ==> explosions[k] in old(explosions) || fresh(explosions[k])
    {
      HandleInput(input, maths.atan2, maths.pi);
      Engage(draws.spawn, maths);
    }

    /** The wave section, then the combat section. */
    method Engage(spawn: nat -> SpawnDraw, maths: Maths)
      requires Valid() && EffectsValid()
      requires forall i :: OffsetInRange(spawn(i))
      modifies this`gameOver, this`waveTimer, this`currentWave, this`bannerWave, this`waveMessageTimer,
               this`zombiesPerWave, this`zombies, this`zombieSpawnTimer, this`bullets, this`splatters, this`explosions,
               player`health, player`score
      ensures Valid() && EffectsValid()
      ensures player.score >= old(player.score) && player.health <= old(player.health)
      ensures gameOver == (old(gameOver) || player.health == 0)
      ensures (currentWave - 1, waveTimer) == Step(old(currentWave) - 1, old(waveTimer), WaveDuration)
      ensures forall k :: 0 <= k < |splatters| ==> splatters[k] in old(splatters) || fresh(splatters[k])
      ensures forall k :: 0 <= k < |explosions| ==> explosions[k] in old(explosions) || fresh(explosions[k])
    {
      WaveSection(spawn);
      Combat(maths.sqrt, maths.cos, maths.sin);
    }

    /** The second half of a frame: power-ups, effects and timers.
        Health, score, the game-over flag, the frame counter and the wave
        clock are not touched. */
    method Upkeep(draws: Draws, atan2: (real, real) -> real)
      requires Valid() && EffectsValid()
      modifies this`pickups, this`powerupTimer, this`message, this`messageTimer, this`splatters,
               this`explosions, this`bullets, this`waveMessageTimer,
               player`timers, player`speed, splatters, explosions
      ensures Valid() && EffectsValid()
      ensures player.health == old(player.health) && player.score == old(player.score)
      ensures gameOver == old(gameOver) && gameTick == old(gameTick)
      ensures currentWave == old(currentWave) && waveTimer == old(waveTimer)
    {
      PowerupSection(draws.pickupX, draws.pickupY, draws.pickupKind);
      Tidy(atan2);
    }

    /** One frame of the game loop, in the loop's order.  The score never
        falls and health never rises; the game is over after the frame
        exactly when the window was closed or health reached 0; a new wave
        starts exactly every 1800 frames. */
    method Tick(input: Controls, draws: Draws, maths: Maths)
      requires Valid() && EffectsValid() && !gameOver
      requires forall i :: OffsetInRange(draws.spawn(i))
      modifies this, player, splatters, explosions
      ensures Valid() && EffectsValid()
      ensures gameTick == old(gameTick) + 1
      ensures player.score >= old(player.score) && player.health <= old(player.health)
      ensures gameOver <==> input.quit || player.health == 0
      ensures (currentWave - 1, waveTimer) == Step(old(currentWave) - 1, old(waveTimer), WaveDuration)
    {
      Advance(input, draws, maths);
      Upkeep(draws, maths.atan2);
    }
  }
}
