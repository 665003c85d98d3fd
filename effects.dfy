/** The short-lived visual effects: blood splatters and bullet-impact
    explosions.  Each one is a frame counter: `Update` is called once per
    frame, advances the animation by one picture every `delay` calls and
    reports whether there are pictures left to show; the game drops an
    effect as soon as `Update` answers false.  The two kinds share this
    counter but differ in their constants, in both versions of the game. */
module Effects {

  /** Pure view of one `Update`: the (frame, counter) pair afterwards. */
  function Step(frame: nat, counter: nat, delay: nat): (r: (nat, nat))
    ensures counter < delay ==> r.1 < delay && r.0 * delay + r.1 == frame * delay + counter + 1
  {
    if counter + 1 >= delay then (frame + 1, 0) else (frame, counter + 1)
  }

  /** The (frame, counter) pair after `k` updates of a fresh effect. */
  function Run(k: nat, delay: nat): (r: (nat, nat))
    ensures delay > 0 ==> r.1 < delay && r.0 * delay + r.1 == k
  {
    if k == 0 then (0, 0) else Step(Run(k - 1, delay).0, Run(k - 1, delay).1, delay)
  }

  /** After `k` updates the effect shows picture `k / delay` and its counter
      is `k % delay`, so the counter always stays in [0, delay). */
  lemma {:induction false} RunClosedForm(k: nat, delay: nat)
    requires delay > 0
    ensures Run(k, delay) == (k / delay, k % delay)
  {
    if k > 0 {
      RunClosedForm(k - 1, delay);
      var q, r := (k - 1) / delay, (k - 1) % delay;
      DivModSplit(k - 1, delay);
      if r + 1 >= delay {
        MulSucc(q, delay);
        DivModUnique(k, q + 1, 0, delay);
      } else {
        DivModUnique(k, q, r + 1, delay);
      }
    }
  }

  lemma DivModSplit(k: nat, delay: nat)
    requires delay > 0
    ensures k == (k / delay) * delay + k % delay && k % delay < delay
  {
  }

  lemma MulSucc(q: nat, d: nat)
    ensures (q + 1) * d == q * d + d
  {
  }

  lemma DivModUnique(k: nat, q: nat, r: nat, delay: nat)
    requires delay > 0 && r < delay && k == q * delay + r
    ensures k / delay == q && k % delay == r
  {
    var q', r' := k / delay, k % delay;
    assert k == q' * delay + r';
    if q' < q {
      assert q' * delay + delay <= q * delay by { MulMono(q' + 1, q, delay); }
    } else if q' > q {
      assert q * delay + delay <= q' * delay by { MulMono(q + 1, q', delay); }
    }
  }

  lemma MulMono(a: nat, b: nat, c: nat)
    requires a <= b
    ensures a * c <= b * c
  {
  }

  /** An effect with `maxFrames` pictures answers true on its updates
      numbered 1 to `maxFrames * delay - 1`; the update numbered
      `maxFrames * delay` is the first to answer false. */
  lemma Lifetime(k: nat, delay: nat, maxFrames: nat)
    requires delay > 0
    ensures Run(k, delay).0 < maxFrames <==> k < maxFrames * delay
  {
    var q := Run(k, delay).0;
    if q < maxFrames {
      MulMono(q + 1, maxFrames, delay);
      MulSucc(q, delay);
    } else {
      MulMono(maxFrames, q, delay);
    }
  }

  /** A blood splatter, left where a zombie dies. */
  class Splatter {
    const x: real
    const y: real
    const maxFrames: nat
    const delay: nat
    var frame: nat
    var counter: nat

    ghost predicate Valid()
      reads this
    {
      delay > 0 && counter < delay
    }

    /** Blood splatter of the Python game: 5 pictures, 3 frames each. */
    constructor Py(x: real, y: real)
      ensures Valid() && this.x == x && this.y == y
      ensures maxFrames == 5 && delay == 3 && frame == 0 && counter == 0
    {
      this.x, this.y := x, y;
      maxFrames, delay := 5, 3;
      frame, counter := 0, 0;
    }

    /** Blood splatter of the p5.js game: 10 pictures, 3 frames each. */
    constructor Js(x: real, y: real)
      ensures Valid() && this.x == x && this.y == y
      ensures maxFrames == 10 && delay == 3 && frame == 0 && counter == 0
    {
      this.x, this.y := x, y;
      maxFrames, delay := 10, 3;
      frame, counter := 0, 0;
    }

    /** One frame of the animation; answers whether pictures remain. */
    method Update() returns (alive: bool)
      requires Valid()
      modifies this
      ensures Valid()
      ensures (frame, counter) == Step(old(frame), old(counter), delay)
      ensures alive <==> frame < maxFrames
    {
      counter := counter + 1;
      if counter >= delay {
        frame := frame + 1;
        counter := 0;
      }
      alive := frame < maxFrames;
    }
  }

  /** The splatters of `s`, in order, that still have pictures to show. */
  function LivingSplatters(s: seq<Splatter>): (r: seq<Splatter>)
    reads set a | a in s
    ensures |r| <= |s|
    ensures forall i :: 0 <= i < |r| ==> r[i] in s && r[i].frame < r[i].maxFrames
    ensures forall i :: 0 <= i < |s| && s[i].frame < s[i].maxFrames ==> s[i] in r
  {
    if s == [] then []
    else
      var rest := LivingSplatters(s[..|s| - 1]);
      var last := s[|s| - 1];
      assert s == s[..|s| - 1] + [last];
      if last.frame < last.maxFrames then rest + [last] else rest
  }

  /** Only the effects themselves decide which are living. */
  twostate lemma LivingSplattersFrame(s: seq<Splatter>)
    requires forall i :: 0 <= i < |s| ==> unchanged(s[i])
    ensures LivingSplatters(s) == old(LivingSplatters(s))
  {
    if s != [] {
      LivingSplattersFrame(s[..|s| - 1]);
    }
  }

  predicate DistinctSplatters(s: seq<Splatter>) {
    forall i, j :: 0 <= i < j < |s| ==> s[i] != s[j]
  }

  /** Dropping finished effects keeps the list free of repeats. */
  lemma {:induction false} LivingSplattersDistinct(s: seq<Splatter>)
    requires DistinctSplatters(s)
    ensures DistinctSplatters(LivingSplatters(s))
  {
    if s != [] {
      LivingSplattersDistinct(s[..|s| - 1]);
    }
  }

  /** The per-frame pass over the splatters: each is updated once and those whose update answered false are dropped, keeping the order of the rest. */
  method UpdateSplatters(s: seq<Splatter>) returns (alive: seq<Splatter>)
    requires DistinctSplatters(s)
    requires forall a :: a in s ==> a.Valid()
    modifies set a | a in s
    ensures forall a :: a in s ==> a.Valid() && (a.frame, a.counter) == Step(old(a.frame), old(a.counter), a.delay)
    ensures alive == LivingSplatters(s)
  {
    alive := [];
    var i := 0;
    while i < |s|
      invariant 0 <= i <= |s|
      invariant forall a :: a in s ==> a.Valid()
      invariant forall j :: 0 <= j < i ==> (s[j].frame, s[j].counter) == Step(old(s[j].frame), old(s[j].counter), s[j].delay)
      invariant forall j :: i <= j < |s| ==> s[j].frame == old(s[j].frame) && s[j].counter == old(s[j].counter)
      invariant alive == LivingSplatters(s[..i])
    {
      var a := s[i];
      label before:
      var keep := a.Update();
      LivingSplattersFrame@before(s[..i]);
      assert s[..i + 1][..i] == s[..i];
      if keep {
        alive := alive + [a];
      }
      i := i + 1;
    }
    assert s[..i] == s;
  }

  /** An explosion, drawn where a bullet hits. */
  class Explosion {
    const x: real
    const y: real
    const maxFrames: nat
    const delay: nat
    var frame: nat
    var counter: nat

    ghost predicate Valid()
      reads this
    {
      delay > 0 && counter < delay
    }

    /** Explosion of the Python game: 6 pictures, 2 frames each. */
    constructor Py(x: real, y: real)
      ensures Valid() && this.x == x && this.y == y
      ensures maxFrames == 6 && delay == 2 && frame == 0 && counter == 0
    {
      this.x, this.y := x, y;
      maxFrames, delay := 6, 2;
      frame, counter := 0, 0;
    }

    /** Explosion of the p5.js game: 10 pictures, 2 frames each. */
    constructor Js(x: real, y: real)
      ensures Valid() && this.x == x && this.y == y
      ensures maxFrames == 10 && delay == 2 && frame == 0 && counter == 0
    {
      this.x, this.y := x, y;
      maxFrames, delay := 10, 2;
      frame, counter := 0, 0;
    }

    /** One frame of the animation; answers whether pictures remain. */
    method Update() returns (alive: bool)
      requires Valid()
      modifies this
      ensures Valid()
      ensures (frame, counter) == Step(old(frame), old(counter), delay)
      ensures alive <==> frame < maxFrames
    {
      counter := counter + 1;
      if counter >= delay {
        frame := frame + 1;
        counter := 0;
      }
      alive := frame < maxFrames;
    }
  }

  /** The explosions of `s`, in order, that still have pictures to show. */
  function LivingExplosions(s: seq<Explosion>): (r: seq<Explosion>)
    reads set a | a in s
    ensures |r| <= |s|
    ensures forall i :: 0 <= i < |r| ==> r[i] in s && r[i].frame < r[i].maxFrames
    ensures forall i :: 0 <= i < |s| && s[i].frame < s[i].maxFrames ==> s[i] in r
  {
    if s == [] then []
    else
      var rest := LivingExplosions(s[..|s| - 1]);
      var last := s[|s| - 1];
      assert s == s[..|s| - 1] + [last];
      if last.frame < last.maxFrames then rest + [last] else rest
  }

  /** Only the effects themselves decide which are living. */
  twostate lemma LivingExplosionsFrame(s: seq<Explosion>)
    requires forall i :: 0 <= i < |s| ==> unchanged(s[i])
    ensures LivingExplosions(s) == old(LivingExplosions(s))
  {
    if s != [] {
      LivingExplosionsFrame(s[..|s| - 1]);
    }
  }

  predicate DistinctExplosions(s: seq<Explosion>) {
    forall i, j :: 0 <= i < j < |s| ==> s[i] != s[j]
  }

  /** Dropping finished effects keeps the list free of repeats. */
  lemma {:induction false} LivingExplosionsDistinct(s: seq<Explosion>)
    requires DistinctExplosions(s)
    ensures DistinctExplosions(LivingExplosions(s))
  {
    if s != [] {
      LivingExplosionsDistinct(s[..|s| - 1]);
    }
  }

  /** The per-frame pass over the explosions, as for splatters. */
  method UpdateExplosions(s: seq<Explosion>) returns (alive: seq<Explosion>)
    requires DistinctExplosions(s)
    requires forall a :: a in s ==> a.Valid()
    modifies set a | a in s
    ensures forall a :: a in s ==> a.Valid() && (a.frame, a.counter) == Step(old(a.frame), old(a.counter), a.delay)
    ensures alive == LivingExplosions(s)
  {
    alive := [];
    var i := 0;
    while i < |s|
      invariant 0 <= i <= |s|
      invariant forall a :: a in s ==> a.Valid()
      invariant forall j :: 0 <= j < i ==> (s[j].frame, s[j].counter) == Step(old(s[j].frame), old(s[j].counter), s[j].delay)
      invariant forall j :: i <= j < |s| ==> s[j].frame == old(s[j].frame) && s[j].counter == old(s[j].counter)
      invariant alive == LivingExplosions(s[..i])
    {
      var a := s[i];
      label before:
      var keep := a.Update();
      LivingExplosionsFrame@before(s[..i]);
      assert s[..i + 1][..i] == s[..i];
      if keep {
        alive := alive + [a];
      }
      i := i + 1;
    }
    assert s[..i] == s;
  }
}
