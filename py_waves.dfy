/** The difficulty schedule of the Python game: a new wave every 1800
    frames (30 seconds at 60 frames per second), and per wave the spawn
    interval, the size of each spawn batch and the speed of new zombies. */
module PyWaves {
  import opened Entities

  const WaveDuration: nat := 1800
  const WaveBanner: nat := 180
  const BaseZombieSpeed: real := 2.0
  const MaxZombieSpeed: real := 4.0

  /** Zombies per second of a wave (it only sets the spawn interval). */
  function ZombiesPerWave(wave: int): (r: int)
    requires wave >= 1
    ensures r >= 1
    ensures 2 * r - 1 <= wave + 1 <= 2 * r + 1
  {
    1 + wave / 2
  }

  lemma ZombiesPerWaveGrows(a: int, b: int)
    requires 1 <= a <= b
    ensures ZombiesPerWave(a) <= ZombiesPerWave(b)
  {
  }

  /** Frames between two spawn batches: `max(10, 60 // zombies_per_wave)`. */
  function SpawnRate(zombiesPerWave: int): (r: int)
    requires zombiesPerWave >= 1
    ensures 10 <= r <= 60
    ensures r == 60 <==> zombiesPerWave == 1
    ensures r == 10 <==> zombiesPerWave >= 6
  {
    var q := 60 / zombiesPerWave;
    if q < 10 then 10 else q
  }

  /** A denser wave never spawns less often. */
  lemma {:induction false} SpawnRateShrinks(a: int, b: int)
    requires 1 <= a <= b
    ensures SpawnRate(b) <= SpawnRate(a)
  {
    var qa, qb := 60 / a, 60 / b;
    assert qb * b <= 60;
    assert qb * a <= qb * b by { MulLeftMono(qb, a, b); }
    if qb > qa {
      assert (qa + 1) * a <= qb * a by { MulLeftMono(a, qa + 1, qb); }
    }
  }

  lemma MulLeftMono(k: int, a: int, b: int)
    requires 0 <= k && a <= b
    ensures k * a <= k * b && a * k <= b * k
  {
  }

  /** Zombies added per spawn: one more every three waves. */
  function BatchSize(wave: int): (r: int)
    requires wave >= 1
    ensures r >= 1
    ensures 3 * r - 2 <= wave + 1 <= 3 * r
  {
    1 + wave / 3
  }

  /** Speed of zombies spawned in `wave`: 10% faster per wave, capped at
      4.0. */
  function ZombieSpeed(wave: int): (r: real)
    requires wave >= 1
    ensures BaseZombieSpeed < r <= MaxZombieSpeed
    ensures r == MaxZombieSpeed <==> wave >= 10
  {
    var s := BaseZombieSpeed * (1.0 + wave as real * 0.1);
    if s < MaxZombieSpeed then s else MaxZombieSpeed
  }

  lemma ZombieSpeedGrows(a: int, b: int)
    requires 1 <= a <= b
    ensures ZombieSpeed(a) <= ZombieSpeed(b)
  {
  }

  /** Where a new zombie appears: just outside the edge it was drawn for,
      at a drawn offset along that edge. */
  datatype SpawnDraw = SpawnDraw(edge: Direction, offset: int)

  /** The offset range `randint` draws from for that edge. */
  predicate OffsetInRange(d: SpawnDraw) {
    0 <= d.offset <= (if d.edge == Up || d.edge == Down then 640 - 32 else 480 - 32)
  }

  /** Top-left corner of a zombie spawned by `d` on the 640 by 480 screen. */
  function SpawnPoint(d: SpawnDraw): (r: (real, real))
    requires OffsetInRange(d)
    ensures Offscreen(r)
    ensures d.edge == Up ==> r.1 + ZombieSize == 0.0
    ensures d.edge == Down ==> r.1 == 480.0
    ensures d.edge == Left ==> r.0 + ZombieSize == 0.0
    ensures d.edge == Right ==> r.0 == 640.0
  {
    match d.edge
    case Up => (d.offset as real, -ZombieSize)
    case Right => (640.0, d.offset as real)
    case Down => (d.offset as real, 480.0)
    case Left => (-ZombieSize, d.offset as real)
  }

  /** A 32 by 32 square at `p` shares no pixel with the screen but spans
      its width or height along the edge it touches. */
  predicate Offscreen(p: (real, real)) {
    (p.0 + ZombieSize <= 0.0 || p.0 >= 640.0 || p.1 + ZombieSize <= 0.0 || p.1 >= 480.0)
    && -ZombieSize <= p.0 <= 640.0 && -ZombieSize <= p.1 <= 480.0
  }
}
