/** The power-up catalogue shared by the Python and p5.js versions of the game:
    the four kinds, their display names and durations, and the per-kind timer
    table that the player carries and ticks down once per frame. */
module Powerups {

  datatype Kind = Assistant | SpeedBoost | Shield | RapidFire

  /** The order in which the timer table is iterated (the insertion order of
      the dictionary / object literal that holds it). */
  const Kinds: seq<Kind> := [Assistant, SpeedBoost, Shield, RapidFire]

  lemma KindsListsEveryKind(k: Kind)
    ensures k in Kinds
  {
  }

  function Name(k: Kind): (s: string)
    ensures |s| > 0
  {
    match k
    case Assistant => "AI Assistant"
    case SpeedBoost => "Speed Boost"
    case Shield => "Shield"
    case RapidFire => "Rapid Fire"
  }

  /** Ticks of effect granted by picking up a power-up of kind `k`. */
  function Duration(k: Kind): (d: nat)
    ensures 180 <= d <= 300
  {
    match k
    case Assistant => 300
    case SpeedBoost => 180
    case Shield => 240
    case RapidFire => 200
  }

  /** Remaining ticks per power-up kind: the table has exactly one entry
      for each of the four kinds, and no entry is ever added or removed, so
      it is a record with one counter per kind, read and written by kind. */
  datatype Timers = Timers(assistant: int, speedBoost: int, shield: int, rapidFire: int)
  {
    function Get(k: Kind): int {
      match k
      case Assistant => assistant
      case SpeedBoost => speedBoost
      case Shield => shield
      case RapidFire => rapidFire
    }

    /** The table with the entry of `k` replaced by `v`. */
    function Set(k: Kind, v: int): (r: Timers)
      ensures r.Get(k) == v
      ensures forall j :: j != k ==> r.Get(j) == Get(j)
    {
      match k
      case Assistant => this.(assistant := v)
      case SpeedBoost => this.(speedBoost := v)
      case Shield => this.(shield := v)
      case RapidFire => this.(rapidFire := v)
    }
  }

  /** Two tables that agree on every kind are the same table. */
  lemma TimersAgree(t: Timers, u: Timers)
    requires forall k :: t.Get(k) == u.Get(k)
    ensures t == u
  {
    assert t.Get(Assistant) == u.Get(Assistant) && t.Get(SpeedBoost) == u.Get(SpeedBoost);
    assert t.Get(Shield) == u.Get(Shield) && t.Get(RapidFire) == u.Get(RapidFire);
  }

  /** No timer is negative. */
  predicate WellFormed(t: Timers) {
    forall k: Kind :: t.Get(k) >= 0
  }

  const Idle: Timers := Timers(0, 0, 0, 0)

  lemma IdleWellFormed()
    ensures WellFormed(Idle)
    ensures forall k :: Idle.Get(k) == 0
  {
    forall k: Kind ensures Idle.Get(k) == 0 {
      match k
      case Assistant =>
      case SpeedBoost =>
      case Shield =>
      case RapidFire =>
    }
  }

  /** The effect of one frame on one timer: a running timer loses one tick,
      a stopped one stays where it is. */
  function TickOne(v: int): (r: int)
    ensures v > 0 ==> r == v - 1
    ensures v <= 0 ==> r == v
  {
    if v > 0 then v - 1 else v
  }

  /** One frame of the whole timer table: every kind's timer ticks on its
      own. */
  function Tick(t: Timers): (r: Timers)
    ensures forall k :: r.Get(k) == TickOne(t.Get(k))
    ensures WellFormed(t) ==> WellFormed(r)
  {
    Timers(TickOne(t.assistant), TickOne(t.speedBoost), TickOne(t.shield), TickOne(t.rapidFire))
  }

  /** `n` consecutive frames with no pickup. */
  function TickMany(t: Timers, n: nat): (r: Timers)
    ensures WellFormed(t) ==> WellFormed(r)
  {
    if n == 0 then t else Tick(TickMany(t, n - 1))
  }

  /** A timer that starts at `t.Get(k) >= 0` reads `t.Get(k) - n` after `n`
      frames while that is positive and then stays at exactly 0: it never
      goes negative, it loses exactly one tick per frame while it runs, and
      it stops after exactly `t.Get(k)` frames. */
  lemma {:induction false} TickManyClosedForm(t: Timers, n: nat, k: Kind)
    requires WellFormed(t)
    ensures TickMany(t, n).Get(k) == if t.Get(k) >= n then t.Get(k) - n else 0
  {
    if n > 0 {
      TickManyClosedForm(t, n - 1, k);
    }
  }

  /** Picking up a power-up overwrites that kind's timer with the full
      duration (it does not add to what was left) and touches no other kind. */
  function Grant(t: Timers, k: Kind): (r: Timers)
    ensures WellFormed(t) ==> WellFormed(r)
    ensures r.Get(k) == Duration(k)
    ensures forall j :: j != k ==> r.Get(j) == t.Get(j)
  {
    t.Set(k, Duration(k))
  }

  /** Re-picking a kind before it expires does not stack: the result only
      depends on the kind, not on what was left of the earlier pickup. */
  lemma GrantDoesNotStack(t: Timers, u: Timers, k: Kind)
    requires forall j :: j != k ==> t.Get(j) == u.Get(j)
    ensures Grant(t, k) == Grant(u, k)
  {
    TimersAgree(Grant(t, k), Grant(u, k));
  }

  /** The timer table after granting every kind of `ks` in turn. */
  function GrantAll(t: Timers, ks: seq<Kind>): (r: Timers)
    requires WellFormed(t)
    ensures WellFormed(r)
  {
    if ks == [] then t
    else Grant(GrantAll(t, ks[..|ks| - 1]), ks[|ks| - 1])
  }

  /** Granting a list of kinds gives each listed kind its full duration
      and leaves every other timer as it was: the order and repeats in the
      list do not matter. */
  lemma {:induction false} GrantAllTimers(t: Timers, ks: seq<Kind>)
    requires WellFormed(t)
    ensures forall k: Kind :: GrantAll(t, ks).Get(k) == if k in ks then Duration(k) else t.Get(k)
  {
    if ks != [] {
      GrantAllTimers(t, ks[..|ks| - 1]);
      assert ks == ks[..|ks| - 1] + [ks[|ks| - 1]];
    }
  }

  lemma GrantAllSnoc(t: Timers, ks: seq<Kind>, k: Kind)
    requires WellFormed(t)
    ensures GrantAll(t, ks + [k]) == Grant(GrantAll(t, ks), k)
  {
    assert (ks + [k])[..|ks|] == ks;
  }
}
