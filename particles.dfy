/** The particle pool and its two modes (src/particles.js).

    A `ParticleSystem` keeps a pool of particles. In FLOW mode particles
    spawned from motion drift, slow down and fade out; in TEXT mode the first
    particles of the pool are each given a target point of the label and are
    held alive while they are drawn towards it.

    Particles are records: no particle object is ever shared between two
    slots of the pool, so updating one in place is modelled by replacing its
    slot. Numbers are JavaScript doubles in the source and `real` here. Every
    call of `Math.random()` becomes an oracle argument. */
module Particles {
  import opened Types

  /** The unit vector (cos a, sin a) of the random angle a of a new particle. */
  type Heading = h: Point | h.x * h.x + h.y * h.y == 1.0 witness Point(1.0, 0.0)

  /** The `Math.random()` draws of the `Particle` constructor, in the order it
      makes them: the angle (seen through its cosine and sine), the speed, the
      decay and the size. */
  datatype Draw = Draw(heading: Heading, speedRoll: Unit, decayRoll: Unit, sizeRoll: Unit)

  /** The shuffle `[...pts].sort(() => Math.random() - 0.5)`: sorting with a
      random comparator returns some permutation of its input. */
  type Shuffler = f: seq<Point> -> seq<Point> | forall s :: multiset(f(s)) == multiset(s)
    witness (s: seq<Point>) => s

  /** The two draws `setMode` makes for the position of a particle it adds. */
  datatype Spot = Spot(xRoll: Unit, yRoll: Unit)

  datatype Particle = Particle(
    x: real, y: real,
    vx: real, vy: real,
    life: real,
    decay: real,
    hue: nat,  // in half-degrees: 720 units make a full turn of 360 degrees
    size: real,
    target: Option<Point>)

  /** What every particle of the pool satisfies. */
  predicate WellFormed(p: Particle)
  {
    && 0.01 <= p.decay < 0.03
    && 1.0 <= p.size < 4.0
    && p.hue < 720
    && p.life <= 1.0
  }

  predicate AllWellFormed(ps: seq<Particle>)
  {
    forall i :: 0 <= i < |ps| ==> WellFormed(ps[i])
  }

  lemma SpeedSquared(hx: real, hy: real, s: real)
    requires hx * hx + hy * hy == 1.0
    requires 0.5 <= s < 2.5
    ensures 0.25 <= (hx * s) * (hx * s) + (hy * s) * (hy * s) < 6.25
  {
    calc {
      (hx * s) * (hx * s) + (hy * s) * (hy * s);
      (hx * hx + hy * hy) * (s * s);
      s * s;
    }
    assert 0.5 * s <= s * s < 2.5 * s;
  }

  /** A new particle at (x, y): fully alive, untargeted, with a heading drawn
      at random, a speed in [0.5, 2.5), a decay in [0.01, 0.03) and a size in
      [1, 4). */
  function NewParticle(x: real, y: real, hue: nat, d: Draw): (p: Particle)
    ensures p.x == x && p.y == y && p.hue == hue
    ensures p.target == None && p.life == 1.0
    ensures 0.01 <= p.decay < 0.03
    ensures 1.0 <= p.size < 4.0
    ensures 0.25 <= p.vx * p.vx + p.vy * p.vy < 6.25
  {
    var speed := d.speedRoll * 2.0 + 0.5;
    SpeedSquared(d.heading.x, d.heading.y, speed);
    Particle(x, y, d.heading.x * speed, d.heading.y * speed,
             1.0, d.decayRoll * 0.02 + 0.01, hue, d.sizeRoll * 3.0 + 1.0, None)
  }

  /** One step of `Particle.update`. A targeted particle is pulled towards its
      target by a damped spring while it is more than 1 away (distance
      compared through its square) and is kept at full life; an untargeted one
      is slowed by friction and loses `decay` life. Either then moves by its
      velocity. */
  function Step(p: Particle): (r: Particle)
    ensures r.target == p.target && r.decay == p.decay && r.size == p.size && r.hue == p.hue
    ensures r.x == p.x + r.vx && r.y == p.y + r.vy
    ensures p.target.Some? ==> r.life == 1.0
    ensures p.target.None? ==> r.life == p.life - p.decay && r.vx == 0.95 * p.vx && r.vy == 0.95 * p.vy
  {
    match p.target
    case Some(t) =>
      var dx, dy := t.x - p.x, t.y - p.y;
      var vx := if dx * dx + dy * dy > 1.0 then (p.vx + dx * 0.05 * 0.1) * 0.8 else p.vx;
      var vy := if dx * dx + dy * dy > 1.0 then (p.vy + dy * 0.05 * 0.1) * 0.8 else p.vy;
      p.(vx := vx, vy := vy, life := 1.0, x := p.x + vx, y := p.y + vy)
    case None =>
      var vx, vy := p.vx * 0.95, p.vy * 0.95;
      p.(vx := vx, vy := vy, life := p.life - p.decay, x := p.x + vx, y := p.y + vy)
  }

  /** `update` removes a particle whose life is used up and that has no target. */
  predicate Dead(p: Particle)
  {
    p.life <= 0.0 && p.target.None?
  }

  /** A step keeps the target; it pins a targeted particle's life to 1.0 and
      lowers an untargeted one's by its decay, that is by at least 0.01 and by
      less than 0.03; it preserves well-formedness; and a targeted particle
      never dies. */
  lemma StepLife(p: Particle)
    requires WellFormed(p)
    ensures Step(p).target == p.target
    ensures WellFormed(Step(p))
    ensures p.target.Some? ==> Step(p).life == 1.0 && !Dead(Step(p))
    ensures p.target.None? ==> Step(p).life == p.life - p.decay
    ensures p.target.None? ==> p.life - 0.03 < Step(p).life <= p.life - 0.01
  {
  }

  /** The pool after `update`: every particle stepped once, the dead ones
      dropped, the others in their old order. */
  function Evolve(ps: seq<Particle>): seq<Particle>
  {
    if ps == [] then []
    else (if Dead(Step(ps[0])) then [] else [Step(ps[0])]) + Evolve(ps[1..])
  }

  lemma {:induction false} EvolveConcat(a: seq<Particle>, b: seq<Particle>)
    ensures Evolve(a + b) == Evolve(a) + Evolve(b)
  {
    if a == [] {
      assert a + b == b;
    } else {
      assert (a + b)[0] == a[0];
      assert (a + b)[1..] == a[1..] + b;
      EvolveConcat(a[1..], b);
    }
  }

  /** `Evolve` of a sequence split off at index `i`. */
  lemma EvolveAt(ps: seq<Particle>, i: nat)
    requires i < |ps|
    ensures Evolve(ps[i..]) == (if Dead(Step(ps[i])) then [] else [Step(ps[i])]) + Evolve(ps[i + 1..])
  {
    assert ps[i..][1..] == ps[i + 1..];
  }

  /** One iteration of the backward loop of `update` at index `i`: the slot
      holds the original particle, and stepping it (and removing it if it
      dies) extends the evolved suffix by one particle. */
  lemma UpdateStep(ps: seq<Particle>, cur: seq<Particle>, i: nat)
    requires i < |ps| && cur == ps[..i + 1] + Evolve(ps[i + 1..])
    ensures i < |cur| && cur[i] == ps[i]
    ensures var c := cur[i := Step(cur[i])];
      (if Dead(Step(cur[i])) then c[..i] + c[i + 1..] else c) == ps[..i] + Evolve(ps[i..])
  {
    EvolveAt(ps, i);
    var q := Step(ps[i]);
    var e := Evolve(ps[i + 1..]);
    assert ps[..i + 1] == ps[..i] + [ps[i]];
    assert cur == ps[..i] + [ps[i]] + e;
    var c := cur[i := q];
    assert c == ps[..i] + [q] + e by {
      assert forall k :: 0 <= k < |c| ==> c[k] == (ps[..i] + [q] + e)[k];
    }
    if Dead(q) {
      assert c[..i] == ps[..i];
      assert c[i + 1..] == e;
    }
  }

  /** The indices, among the first `n`, of the particles that survive a step,
      in increasing order. */
  function Survivors(ps: seq<Particle>, n: nat): seq<nat>
    requires n <= |ps|
  {
    if n == 0 then []
    else Survivors(ps, n - 1) + (if Dead(Step(ps[n - 1])) then [] else [n - 1])
  }

  /** The survivors among the first `n` are exactly the particles not dead
      after their step, listed once each in increasing order. */
  lemma {:induction false} SurvivorsFacts(ps: seq<Particle>, n: nat)
    requires n <= |ps|
    ensures var ix := Survivors(ps, n);
      && (forall k: nat :: k in ix <==> k < n && !Dead(Step(ps[k])))
      && (forall j :: 0 <= j < |ix| ==> ix[j] < n)
      && (forall i, j :: 0 <= i < j < |ix| ==> ix[i] < ix[j])
  {
    if n > 0 {
      SurvivorsFacts(ps, n - 1);
    }
  }

  /** `update` keeps exactly the particles that are not dead after their
      step, in their relative order: the surviving pool is the stepped
      particles at the strictly increasing indices `Survivors`. */
  lemma {:induction false} EvolveKeepsSurvivors(ps: seq<Particle>, n: nat)
    requires n <= |ps|
    ensures var ix := Survivors(ps, n);
      |Evolve(ps[..n])| == |ix| && forall j :: 0 <= j < |ix| ==> ix[j] < n && Evolve(ps[..n])[j] == Step(ps[ix[j]])
  {
    if n > 0 {
      EvolveKeepsSurvivors(ps, n - 1);
      assert ps[..n] == ps[..n - 1] + [ps[n - 1]];
      EvolveConcat(ps[..n - 1], [ps[n - 1]]);
      assert [ps[n - 1]][1..] == [];
    }
  }

  /** The targets of the targeted particles of `ps`, in pool order. */
  function TargetList(ps: seq<Particle>): seq<Point>
  {
    if ps == [] then []
    else
      var last := ps[|ps| - 1];
      TargetList(ps[..|ps| - 1]) + (if last.target.Some? then [last.target.value] else [])
  }

  lemma {:induction false} TargetListConcat(a: seq<Particle>, b: seq<Particle>)
    ensures TargetList(a + b) == TargetList(a) + TargetList(b)
  {
    if b == [] {
      assert a + b == a;
    } else {
      var c := b[..|b| - 1];
      assert (a + b)[|a + b| - 1] == b[|b| - 1];
      assert (a + b)[..|a + b| - 1] == a + c;
      TargetListConcat(a, c);
    }
  }

  /** `update` never removes a targeted particle nor changes its target: the
      targets of the pool, in order, are the same before and after. */
  lemma {:induction false} EvolveKeepsTargets(ps: seq<Particle>)
    requires AllWellFormed(ps)
    ensures TargetList(Evolve(ps)) == TargetList(ps)
  {
    if ps != [] {
      StepLife(ps[0]);
      EvolveKeepsTargets(ps[1..]);
      assert ps == [ps[0]] + ps[1..];
      TargetListConcat([ps[0]], ps[1..]);
      var head := if Dead(Step(ps[0])) then [] else [Step(ps[0])];
      TargetListConcat(head, Evolve(ps[1..]));
      assert TargetList([ps[0]]) == TargetList(head) by {
        assert [ps[0]][..0] == [];
        if head != [] {
          assert head[..0] == [];
        }
      }
    }
  }

  /** After `update` the pool is still well formed and every targeted
      particle in it is at full life. */
  lemma {:induction false} EvolveWellFormed(ps: seq<Particle>)
    requires AllWellFormed(ps)
    ensures AllWellFormed(Evolve(ps))
    ensures forall i :: 0 <= i < |Evolve(ps)| && Evolve(ps)[i].target.Some? ==> Evolve(ps)[i].life == 1.0
  {
    if ps != [] {
      StepLife(ps[0]);
      EvolveWellFormed(ps[1..]);
    }
  }

  /** Switching to FLOW and then updating once removes none of the
      particles that were held on a target: released, each has full life
      and so survives its first free step. Full life is what `update` gives
      every targeted particle (`EvolveWellFormed`); a particle targeted by
      `setMode` and released again before any update may still die. */
  lemma FlowKeepsHeldParticles(ps: seq<Particle>)
    requires AllWellFormed(ps)
    requires forall i :: 0 <= i < |ps| && ps[i].target.Some? ==> ps[i].life == 1.0
    ensures forall i :: 0 <= i < |ps| && ps[i].target.Some? ==> i in Survivors(ReleaseAll(ps), |ps|)
    ensures forall i :: 0 <= i < |ps| && ps[i].target.Some? ==> Step(ReleaseAll(ps)[i]) in Evolve(ReleaseAll(ps))
  {
    var r := ReleaseAll(ps);
    SurvivorsFacts(r, |ps|);
    EvolveKeepsSurvivors(r, |ps|);
    assert r[..|ps|] == r;
    var ix := Survivors(r, |ps|);
    forall i | 0 <= i < |ps| && ps[i].target.Some?
      ensures i in ix && Step(r[i]) in Evolve(r)
    {
      StepLife(r[i]);
      assert i in ix;
      var j :| 0 <= j < |ix| && ix[j] == i;
      assert Evolve(r)[j] == Step(r[i]);
    }
  }

  /** The particle `setMode` adds at pool index `k` of a `width` by `height`
      canvas: at a random position, with the current hue. */
  function Spawned(k: nat, hue: nat, width: nat, height: nat, spot: nat -> Spot, draw: nat -> Draw): Particle
  {
    NewParticle(spot(k).xRoll * width as real, spot(k).yRoll * height as real, hue, draw(k))
  }

  /** The pool after the growing loop of `setMode`: new particles are
      appended until it holds at least `n`. */
  function Grow(ps: seq<Particle>, n: nat, hue: nat, width: nat, height: nat,
                spot: nat -> Spot, draw: nat -> Draw): seq<Particle>
    decreases n - |ps|
  {
    if |ps| >= n then ps
    else Grow(ps + [Spawned(|ps|, hue, width, height, spot, draw)], n, hue, width, height, spot, draw)
  }

  /** Growing keeps every existing particle in its slot and appends, for each
      missing slot `k` below `n`, a new particle at a random position of the
      canvas with hue `hue`. */
  lemma {:induction false} GrowShape(ps: seq<Particle>, n: nat, hue: nat, width: nat, height: nat,
                                     spot: nat -> Spot, draw: nat -> Draw)
    decreases n - |ps|
    ensures var g := Grow(ps, n, hue, width, height, spot, draw);
      && |g| == (if |ps| >= n then |ps| else n)
      && g[..|ps|] == ps
      && forall k :: |ps| <= k < |g| ==> g[k] == Spawned(k, hue, width, height, spot, draw)
  {
    if |ps| < n {
      var ps' := ps + [Spawned(|ps|, hue, width, height, spot, draw)];
      GrowShape(ps', n, hue, width, height, spot, draw);
      var g := Grow(ps, n, hue, width, height, spot, draw);
      assert g[..|ps|] == g[..|ps'|][..|ps|];
    }
  }

  /** A particle released by `setMode`: no target, everything else kept. */
  function Released(p: Particle): Particle
  {
    p.(target := None)
  }

  /** The pool after `setMode` in FLOW mode: every particle released. */
  function ReleaseAll(ps: seq<Particle>): seq<Particle>
  {
    seq(|ps|, i requires 0 <= i < |ps| => Released(ps[i]))
  }

  /** What the assigning loop of `setMode` makes of the particle in slot
      `i`: below `|shuffled|` it is given target `shuffled[i]` and hue
      `hue + i` degrees (modulo 360), beyond it is released. */
  function Assigned(p: Particle, i: nat, shuffled: seq<Point>, hue: nat): Particle
  {
    if i < |shuffled| then p.(target := Some(shuffled[i]), hue := (hue + 2 * i) % 720)
    else Released(p)
  }

  /** The pool after the assigning loop of `setMode`. */
  function Assign(ps: seq<Particle>, shuffled: seq<Point>, hue: nat): seq<Particle>
  {
    seq(|ps|, i requires 0 <= i < |ps| => Assigned(ps[i], i, shuffled, hue))
  }

  /** The targets of a pool whose slot `i` is targeted at `ts[i]` for
      `i < |ts|` and untargeted beyond are `ts`. */
  lemma {:induction false} TargetListPrefix(ps: seq<Particle>, ts: seq<Point>)
    requires |ts| <= |ps|
    requires forall i :: 0 <= i < |ps| ==> ps[i].target == if i < |ts| then Some(ts[i]) else None
    ensures TargetList(ps) == ts
  {
    if ps != [] {
      var n := |ps| - 1;
      if |ts| == |ps| {
        TargetListPrefix(ps[..n], ts[..n]);
        assert ts == ts[..n] + [ts[n]];
      } else {
        TargetListPrefix(ps[..n], ts);
      }
    }
  }

  /** Assigning `shuffled` to a pool at least as long targets slot `i`
      exactly when `i < |shuffled|`, at `shuffled[i]` and with hue `hue + i`
      degrees; it changes nothing else, so the targets of the pool are
      `shuffled` in slot order. */
  lemma AssignShape(g: seq<Particle>, shuffled: seq<Point>, hue: nat)
    requires |shuffled| <= |g|
    ensures var r := Assign(g, shuffled, hue);
      && |r| == |g|
      && (forall i :: 0 <= i < |r| ==>
            r[i].x == g[i].x && r[i].y == g[i].y && r[i].vx == g[i].vx && r[i].vy == g[i].vy
            && r[i].life == g[i].life && r[i].decay == g[i].decay && r[i].size == g[i].size)
      && (forall i :: 0 <= i < |r| ==> r[i].target == if i < |shuffled| then Some(shuffled[i]) else None)
      && (forall i :: 0 <= i < |shuffled| ==> r[i].hue == (hue + 2 * i) % 720)
      && (forall i :: |shuffled| <= i < |r| ==> r[i].hue == g[i].hue)
      && TargetList(r) == shuffled
  {
    TargetListPrefix(Assign(g, shuffled, hue), shuffled);
  }

  /** The pool after `setMode('TEXT', pts)`, when `shuffled` is the shuffled
      copy of `pts`: the pool holds at least `|pts|` particles; the old
      particles stay in their slots with their position, velocity, life,
      decay and size; slot `i` is targeted exactly when `i < |pts|`, then with
      hue `hue + i` degrees; the other old particles keep their hue; and the
      targets of the pool are a permutation of `pts`. */
  lemma TextModeShape(ps: seq<Particle>, pts: seq<Point>, shuffled: seq<Point>, hue: nat,
                      width: nat, height: nat, spot: nat -> Spot, draw: nat -> Draw)
    requires multiset(shuffled) == multiset(pts)
    ensures var r := Assign(Grow(ps, |shuffled|, hue, width, height, spot, draw), shuffled, hue);
      && |r| >= |pts| && |r| >= |ps|
      && (forall i :: 0 <= i < |ps| ==>
            r[i].x == ps[i].x && r[i].y == ps[i].y && r[i].vx == ps[i].vx && r[i].vy == ps[i].vy
            && r[i].life == ps[i].life && r[i].decay == ps[i].decay && r[i].size == ps[i].size)
      && (forall i :: 0 <= i < |r| ==> (r[i].target.Some? <==> i < |pts|))
      && (forall i :: 0 <= i < |pts| ==> r[i].hue == (hue + 2 * i) % 720)
      && (forall i :: |pts| <= i < |ps| ==> r[i].hue == ps[i].hue)
      && multiset(TargetList(r)) == multiset(pts)
  {
    var g := Grow(ps, |shuffled|, hue, width, height, spot, draw);
    GrowShape(ps, |shuffled|, hue, width, height, spot, draw);
    assert |shuffled| == |pts| by {
      assert |multiset(shuffled)| == |multiset(pts)|;
    }
    forall i | 0 <= i < |ps|
      ensures g[i] == ps[i]
    {
      assert g[i] == g[..|ps|][i];
    }
    AssignShape(g, shuffled, hue);
  }

  /** `setMode` with any other mode releases every particle and changes
      nothing else; no particle is targeted afterwards. */
  lemma FlowModeShape(ps: seq<Particle>)
    ensures var r := ReleaseAll(ps);
      && |r| == |ps|
      && (forall i :: 0 <= i < |ps| ==> r[i].target == None && r[i] == ps[i].(target := None))
      && TargetList(r) == []
  {
    TargetListPrefix(ReleaseAll(ps), []);
  }

  /** Number of motion points `addParticles` looks at, every 4th one: the
      ceiling of n / 4. */
  function Samples(n: nat): (k: nat)
    ensures 4 * k >= n && (k > 0 ==> 4 * (k - 1) < n)
  {
    (n + 3) / 4
  }

  /** The spawning loop moves from one sample to the next. */
  lemma SampleStep(i: nat, n: nat)
    requires i % 4 == 0 && i < n
    ensures (i + 4) % 4 == 0 && i + 4 <= 4 * Samples(n)
  {
  }

  /** `Math.random() > 0.9`: the spawning chance of a considered sample. */
  predicate Hit(u: Unit)
  {
    u > 0.9
  }

  /** The particles the spawning loop of `addParticles` appends while its
      index runs up to `i`, each at its motion point with hue `hue`. */
  function SpawnsBefore(points: seq<Point>, i: nat, hue: nat, coin: nat -> Unit, draw: nat -> Draw): seq<Particle>
    requires i % 4 == 0 && i <= 4 * Samples(|points|)
  {
    if i == 0 then []
    else
      SpawnsBefore(points, i - 4, hue, coin, draw)
      + (if Hit(coin(i - 4)) then [NewParticle(points[i - 4].x, points[i - 4].y, hue, draw(i - 4))] else [])
  }

  function Spawns(points: seq<Point>, hue: nat, coin: nat -> Unit, draw: nat -> Draw): seq<Particle>
  {
    SpawnsBefore(points, 4 * Samples(|points|), hue, coin, draw)
  }

  /** The spawning loop considers motion points 0, 4, 8, ... below `i`; it
      spawns one particle per such point whose draw is a hit, placed at that
      point with hue `hue` and nothing else, so at most one per sample. */
  lemma {:induction false} SpawnsFacts(points: seq<Point>, i: nat, hue: nat, coin: nat -> Unit, draw: nat -> Draw)
    requires i % 4 == 0 && i <= 4 * Samples(|points|)
    ensures var s := SpawnsBefore(points, i, hue, coin, draw);
      && |s| <= i / 4
      && (forall q :: q in s <==>
            exists j :: 0 <= j < i && j < |points| && j % 4 == 0 && Hit(coin(j))
                        && q == NewParticle(points[j].x, points[j].y, hue, draw(j)))
  {
    if i > 0 {
      SpawnsFacts(points, i - 4, hue, coin, draw);
      forall j | 0 <= j < i && j % 4 == 0
        ensures j < i - 4 || j == i - 4
      {
        SampleBefore(j, i);
      }
    }
  }

  /** Below a multiple of 4, the next lower multiple of 4 is 4 less. */
  lemma SampleBefore(j: int, i: int)
    requires j % 4 == 0 && i % 4 == 0 && j < i
    ensures j <= i - 4
  {
  }

  /** `addParticles` appends at most ceil(n / 4) particles for n motion
      points. Each sits at some motion point `i` with `i % 4 == 0`, carries
      the hue `hue`, is at full life and untargeted; every such point whose
      draw is a hit yields one. */
  lemma SpawnsShape(points: seq<Point>, hue: nat, coin: nat -> Unit, draw: nat -> Draw)
    ensures var s := Spawns(points, hue, coin, draw);
      && |s| <= Samples(|points|)
      && (forall q :: q in s ==>
            && q.hue == hue && q.life == 1.0 && q.target == None
            && exists j :: 0 <= j < |points| && j % 4 == 0 && q.x == points[j].x && q.y == points[j].y)
      && (forall j :: 0 <= j < |points| && j % 4 == 0 && Hit(coin(j)) ==>
            NewParticle(points[j].x, points[j].y, hue, draw(j)) in s)
      && (hue < 720 ==> AllWellFormed(s))
  {
    SpawnsFacts(points, 4 * Samples(|points|), hue, coin, draw);
  }

  class ParticleSystem {
    /** Canvas size. */
    var width: nat
    var height: nat
    var particles: seq<Particle>
    /** Hue of newly spawned particles, in half-degrees. */
    var hueCycle: nat
    /** The target list of the active TEXT mode, `None` in FLOW mode. */
    var targets: Option<seq<Point>>

    ghost predicate Valid()
      reads this
    {
      hueCycle < 720 && AllWellFormed(particles)
    }

    constructor (width: nat, height: nat)
      ensures Valid()
      ensures this.width == width && this.height == height
      ensures particles == [] && hueCycle == 0 && targets == None
    {
      this.width := width;
      this.height := height;
      particles := [];
      hueCycle := 0;
      targets := None;
    }

    /** Takes the new canvas size and drops the target list, so that motion
        spawns particles again. */
    method Resize(w: nat, h: nat)
      requires Valid()
      modifies this
      ensures Valid()
      ensures width == w && height == h && targets == None
      ensures particles == old(particles) && hueCycle == old(hueCycle)
    {
      width := w;
      height := h;
      targets := None;
    }

    /** Switches to mode `modeName`. For "TEXT", `shuffled` is what sorting
        a copy of `targetPoints` with a random comparator returned (some
        permutation of it), and `spot` and `draw` give the random draws for
        the particle added at each pool index. */
    method SetMode(modeName: string, targetPoints: seq<Point>, shuffled: seq<Point>,
                   spot: nat -> Spot, draw: nat -> Draw)
      requires Valid()
      requires modeName == "TEXT" ==> multiset(shuffled) == multiset(targetPoints)
      modifies this
      ensures Valid()
      ensures width == old(width) && height == old(height) && hueCycle == old(hueCycle)
      ensures modeName == "TEXT" ==>
                && targets == Some(targetPoints)
                && particles == Assign(Grow(old(particles), |shuffled|, hueCycle, width, height, spot, draw),
                                       shuffled, hueCycle)
      ensures modeName != "TEXT" ==>
                && targets == None
                && particles == ReleaseAll(old(particles))
    {
      if modeName == "TEXT" {
        targets := Some(targetPoints);
        GrowPool(|shuffled|, spot, draw);
        AssignTargets(shuffled);
      } else {
        targets := None;
        ReleaseTargets();
      }
    }

    /** The growing loop of `setMode`: appends particles at random positions
        until the pool holds at least `n`. */
    method GrowPool(n: nat, spot: nat -> Spot, draw: nat -> Draw)
      requires Valid()
      modifies this`particles
      ensures Valid()
      ensures particles == Grow(old(particles), n, hueCycle, width, height, spot, draw)
    {
      ghost var grown := Grow(particles, n, hueCycle, width, height, spot, draw);
      while |particles| < n
        invariant Valid()
        invariant Grow(particles, n, hueCycle, width, height, spot, draw) == grown
        decreases n - |particles|
      {
        particles := particles + [Spawned(|particles|, hueCycle, width, height, spot, draw)];
      }
    }

    /** The assigning loop of `setMode`. */
    method AssignTargets(shuffled: seq<Point>)
      requires Valid()
      modifies this`particles
      ensures Valid()
      ensures particles == Assign(old(particles), shuffled, hueCycle)
    {
      var i := 0;
      while i < |particles|
        invariant 0 <= i <= |particles| == |old(particles)|
        invariant forall k :: 0 <= k < i ==> particles[k] == Assigned(old(particles)[k], k, shuffled, hueCycle)
        invariant forall k :: i <= k < |particles| ==> particles[k] == old(particles)[k]
        invariant Valid()
      {
        if i < |shuffled| {
          particles := particles[i := particles[i].(target := Some(shuffled[i]))];
          particles := particles[i := particles[i].(hue := (hueCycle + 2 * i) % 720)];
        } else {
          particles := particles[i := particles[i].(target := None)];
        }
        i := i + 1;
      }
    }

    /** The releasing loop of `setMode`. */
    method ReleaseTargets()
      requires Valid()
      modifies this`particles
      ensures Valid()
      ensures particles == ReleaseAll(old(particles))
    {
      var i := 0;
      while i < |particles|
        invariant 0 <= i <= |particles| == |old(particles)|
        invariant forall k :: 0 <= k < i ==> particles[k] == Released(old(particles)[k])
        invariant forall k :: i <= k < |particles| ==> particles[k] == old(particles)[k]
        invariant Valid()
      {
        particles := particles[i := particles[i].(target := None)];
        i := i + 1;
      }
    }

    /** Spawns particles from the motion points `motionPoints` unless a
        target list is active; `coin(i)` and `draw(i)` are the random draws
        for sample `i`. */
    method AddParticles(motionPoints: seq<Point>, coin: nat -> Unit, draw: nat -> Draw)
      requires Valid()
      modifies this
      ensures Valid()
      ensures width == old(width) && height == old(height) && targets == old(targets)
      ensures old(targets).Some? ==> particles == old(particles) && hueCycle == old(hueCycle)
      ensures old(targets).None? ==>
                && particles == old(particles) + Spawns(motionPoints, old(hueCycle), coin, draw)
                && hueCycle == (old(hueCycle) + 1) % 720
    {
      if targets.Some? {
        return;
      }
      var i := 0;
      while i < |motionPoints|
        modifies this`particles
        invariant i % 4 == 0 && i <= 4 * Samples(|motionPoints|)
        invariant particles == old(particles) + SpawnsBefore(motionPoints, i, hueCycle, coin, draw)
        invariant Valid()
      {
        SampleStep(i, |motionPoints|);
        if Hit(coin(i)) {
          var p := motionPoints[i];
          particles := particles + [NewParticle(p.x, p.y, hueCycle, draw(i))];
        }
        i := i + 4;
      }
      hueCycle := (hueCycle + 1) % 720;
    }

    /** Steps every particle, from the last to the first, removing in place
        each one that is dead after its step. */
    method Update()
      requires Valid()
      modifies this
      ensures Valid()
      ensures particles == Evolve(old(particles))
      ensures width == old(width) && height == old(height)
      ensures hueCycle == old(hueCycle) && targets == old(targets)
    {
      ghost var ps := particles;
      var i: int := |particles| - 1;
      while i >= 0
        modifies this`particles
        invariant -1 <= i < |ps|
        invariant particles == ps[..i + 1] + Evolve(ps[i + 1..])
      {
        UpdateStep(ps, particles, i);
        var p := Step(particles[i]);
        particles := particles[i := p];
        if p.life <= 0.0 && p.target.None? {
          particles := particles[..i] + particles[i + 1..];
        }
        i := i - 1;
      }
      EvolveWellFormed(ps);
    }
  }
}
