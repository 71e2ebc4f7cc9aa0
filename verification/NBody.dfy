/** benchmarks/c/nbody.c over real numbers: the total momentum of the system. The factor `mag`
    that the source computes with a square root is an arbitrary function of the time step and
    the squared distance. */
module NBody {

  function Sum(terms: seq<real>): real {
    if terms == [] then 0.0 else Sum(terms[..|terms| - 1]) + terms[|terms| - 1]
  }

  function Product(a: real, b: real): real { a * b }

  function Products(v: seq<real>, mass: seq<real>): (terms: seq<real>)
    requires |v| == |mass|
    ensures |terms| == |v|
  {
    seq(|v|, i requires 0 <= i < |v| => Product(v[i], mass[i]))
  }

  /** The total momentum along one axis. */
  function Momentum(v: seq<real>, mass: seq<real>): real
    requires |v| == |mass|
  {
    Sum(Products(v, mass))
  }

  lemma {:induction false} SumUpdate(terms: seq<real>, i: nat, x: real)
    requires i < |terms|
    ensures Sum(terms[i := x]) == Sum(terms) - terms[i] + x
    decreases |terms|
  {
    var n := |terms| - 1;
    if i == n {
      assert terms[i := x][..n] == terms[..n];
    } else {
      assert terms[i := x][..n] == terms[..n][i := x];
      SumUpdate(terms[..n], i, x);
    }
  }

  /** Changing one body's velocity changes the total by that body's share alone. */
  lemma MomentumUpdate(v: seq<real>, mass: seq<real>, i: nat, x: real)
    requires |v| == |mass| && i < |v|
    ensures Momentum(v[i := x], mass) == Momentum(v, mass) - Product(v[i], mass[i]) + Product(x, mass[i])
  {
    assert Products(v[i := x], mass) == Products(v, mass)[i := Product(x, mass[i])];
    SumUpdate(Products(v, mass), i, Product(x, mass[i]));
  }

  lemma MomentumNext(v: seq<real>, mass: seq<real>, i: nat)
    requires |v| == |mass| && i < |v|
    ensures Momentum(v[..i + 1], mass[..i + 1]) == Momentum(v[..i], mass[..i]) + Product(v[i], mass[i])
  {
    assert Products(v[..i + 1], mass[..i + 1])[..i] == Products(v[..i], mass[..i]);
  }

  /** One body's velocity along an axis falls by a and another's rises by b. */
  function Exchanged(v: seq<real>, i: nat, j: nat, a: real, b: real): (w: seq<real>)
    requires i < j < |v|
    ensures |w| == |v|
  {
    v[i := v[i] - a][j := v[j] + b]
  }

  lemma ExchangeChange(v: seq<real>, mass: seq<real>, i: nat, j: nat, a: real, b: real)
    requires |v| == |mass| && i < j < |v|
    ensures Momentum(Exchanged(v, i, j, a, b), mass)
         == Momentum(v, mass) - Product(v[i], mass[i]) + Product(v[i] - a, mass[i])
            - Product(v[j], mass[j]) + Product(v[j] + b, mass[j])
  {
    var w := v[i := v[i] - a];
    MomentumUpdate(v, mass, i, v[i] - a);
    MomentumUpdate(w, mass, j, v[j] + b);
  }

  /** Momentum is kept exactly when what one body loses the other gains. */
  lemma ExchangeKeepsMomentum(v: seq<real>, mass: seq<real>, i: nat, j: nat, a: real, b: real)
    requires |v| == |mass| && i < j < |v|
    ensures Momentum(Exchanged(v, i, j, a, b), mass) == Momentum(v, mass) <==> Product(a, mass[i]) == Product(b, mass[j])
  {
    ExchangeChange(v, mass, i, j, a, b);
    Distribute(v[i], -a, mass[i]);
    Distribute(v[j], b, mass[j]);
    Negate(a, mass[i]);
  }

  lemma Distribute(x: real, y: real, m: real)
    ensures Product(x + y, m) == Product(x, m) + Product(y, m)
  {
  }

  lemma Negate(a: real, m: real)
    ensures Product(-a, m) == -Product(a, m)
  {
  }

  lemma ImpulsesMatch(d: real, mi: real, mj: real, mag: real)
    ensures Product(Impulse(d, mj, mag), mi) == Product(Impulse(d, mi, mag), mj)
  {
  }

  /** The velocity at which a body of mass m has momentum -p. */
  function Cancelling(p: real, m: real): real
    requires m != 0.0
  {
    -p / m
  }

  /** The sun's velocity, replaced by what cancels the total. */
  function Offset(v: seq<real>, mass: seq<real>, solarMass: real): seq<real>
    requires |v| == |mass| >= 1 && solarMass != 0.0
  {
    v[0 := Cancelling(Momentum(v, mass), solarMass)]
  }

  /** With the sun's own mass as divisor, the total becomes zero if and only if the sun was at
      rest: its old share is not taken out. */
  lemma OffsetStopsIff(v: seq<real>, mass: seq<real>, solarMass: real)
    requires |v| == |mass| >= 1 && solarMass != 0.0 && mass[0] == solarMass
    ensures Momentum(Offset(v, mass, solarMass), mass) == 0.0 <==> v[0] == 0.0
  {
    var p := Momentum(v, mass);
    MomentumUpdate(v, mass, 0, Cancelling(p, solarMass));
    OffsetBalance(v[0], p, solarMass);
  }

  /** Positions of all bodies, and the factor as a function of time step and distance. */
  datatype Scene = Scene(x: seq<real>, y: seq<real>, z: seq<real>, dt: real, magnitude: (real, real) -> real)
  {
    ghost predicate Fits(n: nat) { |x| == |y| == |z| == n }

    function Mag(i: nat, j: nat): real
      requires Fits(|x|) && i < |x| && j < |x|
    {
      magnitude(dt, DistanceSquared(x[i] - x[j], y[i] - y[j], z[i] - z[j]))
    }
  }

  function DistanceSquared(dx: real, dy: real, dz: real): real { dx * dx + dy * dy + dz * dz }

  /** The change of velocity that a body of this mass causes over a distance d. */
  function Impulse(d: real, mass: real, mag: real): real { d * mass * mag }

  /** One pair along the axis with positions p: what body i loses and body j gains. */
  function PairExchanged(v: seq<real>, mass: seq<real>, p: seq<real>, s: Scene, i: nat, j: nat): (w: seq<real>)
    requires |v| == |mass| == |p| && s.Fits(|v|) && i < j < |v|
    ensures |w| == |v|
  {
    var d, mag := p[i] - p[j], s.Mag(i, j);
    Exchanged(v, i, j, Impulse(d, mass[j], mag), Impulse(d, mass[i], mag))
  }

  /** The velocities along the axis with positions p, after every pair before (i, j) has
      interacted, in the order of the nested loops. */
  function Interacted(v: seq<real>, mass: seq<real>, p: seq<real>, s: Scene, i: nat, j: nat): (w: seq<real>)
    requires |v| == |mass| == |p| && s.Fits(|v|) && i < j <= |v|
    ensures |w| == |v|
    decreases i, j
  {
    if j > i + 1 then PairExchanged(Interacted(v, mass, p, s, i, j - 1), mass, p, s, i, j - 1)
    else if i > 0 then Interacted(v, mass, p, s, i - 1, |v|)
    else v
  }

  lemma {:induction false} InteractionKeepsMomentum(v: seq<real>, mass: seq<real>, p: seq<real>, s: Scene, i: nat, j: nat)
    requires |v| == |mass| == |p| && s.Fits(|v|) && i < j <= |v|
    ensures Momentum(Interacted(v, mass, p, s, i, j), mass) == Momentum(v, mass)
    decreases i, j
  {
    if j > i + 1 {
      InteractionKeepsMomentum(v, mass, p, s, i, j - 1);
      var d, mag := p[i] - p[j - 1], s.Mag(i, j - 1);
      ImpulsesMatch(d, mass[i], mass[j - 1], mag);
      ExchangeKeepsMomentum(Interacted(v, mass, p, s, i, j - 1), mass, i, j - 1,
                            Impulse(d, mass[j - 1], mag), Impulse(d, mass[i], mag));
    } else if i > 0 {
      InteractionKeepsMomentum(v, mass, p, s, i - 1, |v|);
    }
  }

  /** All pairs. */
  function AllInteracted(v: seq<real>, mass: seq<real>, p: seq<real>, s: Scene): (w: seq<real>)
    requires |v| == |mass| == |p| >= 1 && s.Fits(|v|)
    ensures |w| == |v|
  {
    Interacted(v, mass, p, s, |v| - 1, |v|)
  }

  function Drift(p: real, v: real, dt: real): real { p + dt * v }

  function Moved(p: seq<real>, v: seq<real>, dt: real): (q: seq<real>)
    requires |p| == |v|
    ensures |q| == |p|
  {
    seq(|p|, i requires 0 <= i < |p| => Drift(p[i], v[i], dt))
  }

  // ---------- What the pair loops do to one body

  function Square(a: real): real { a * a }

  /** The change of velocity that body j causes in body i, towards it. */
  function Pull(mass: seq<real>, p: seq<real>, s: Scene, i: nat, j: nat): real
    requires |mass| == |p| && s.Fits(|p|) && i < |p| && j < |p|
  {
    var distance := Square(s.x[j] - s.x[i]) + Square(s.y[j] - s.y[i]) + Square(s.z[j] - s.z[i]);
    mass[j] * s.magnitude(s.dt, distance) * (p[j] - p[i])
  }

  /** The pull of all bodies before k on body i, which does not pull itself. */
  function PullOf(mass: seq<real>, p: seq<real>, s: Scene, i: nat, k: nat): real
    requires |mass| == |p| && s.Fits(|p|) && i < |p| && k <= |p|
  {
    if k == 0 then 0.0 else PullOf(mass, p, s, i, k - 1) + if k - 1 == i then 0.0 else Pull(mass, p, s, i, k - 1)
  }

  lemma SquareNegated(a: real)
    ensures Square(-a) == a * a
  {
  }

  lemma Reordered(u: real, d: real, m: real, g: real)
    ensures u - Impulse(d, m, g) == u + m * g * -d && u + Impulse(d, m, g) == u + m * g * d
  {
    assert d * m * g == m * g * d;
    assert m * g * -d == -(m * g * d);
  }

  /** One pair: each body is pulled towards the other. */
  lemma PairPulls(v: seq<real>, mass: seq<real>, p: seq<real>, s: Scene, i: nat, j: nat)
    requires |v| == |mass| == |p| && s.Fits(|v|) && i < j < |v|
    ensures var w := PairExchanged(v, mass, p, s, i, j);
            && w[i] == v[i] + Pull(mass, p, s, i, j) && w[j] == v[j] + Pull(mass, p, s, j, i)
            && forall k :: 0 <= k < |v| && k != i && k != j ==> w[k] == v[k]
  {
    var dx, dy, dz := s.x[i] - s.x[j], s.y[i] - s.y[j], s.z[i] - s.z[j];
    SquareNegated(dx);
    SquareNegated(dy);
    SquareNegated(dz);
    assert s.x[j] - s.x[i] == -dx && s.y[j] - s.y[i] == -dy && s.z[j] - s.z[i] == -dz;
    var d, mag := p[i] - p[j], s.Mag(i, j);
    assert p[j] - p[i] == -d;
    Reordered(v[i], d, mass[j], mag);
    Reordered(v[j], d, mass[i], mag);
  }

  /** How many bodies have pulled body k before pair (i, j): each meets the others in order. */
  function Met(n: nat, k: nat, i: nat, j: nat): nat {
    if k < i then n else if k == i then j else if k < j then i + 1 else i
  }

  lemma {:induction false} InteractionPulls(v: seq<real>, mass: seq<real>, p: seq<real>, s: Scene, i: nat, j: nat, k: nat)
    requires |v| == |mass| == |p| && s.Fits(|v|) && i < j <= |v| && k < |v|
    ensures Interacted(v, mass, p, s, i, j)[k] == v[k] + PullOf(mass, p, s, k, Met(|v|, k, i, j))
    decreases i, j
  {
    if j > i + 1 {
      InteractionPulls(v, mass, p, s, i, j - 1, k);
      PairPulls(Interacted(v, mass, p, s, i, j - 1), mass, p, s, i, j - 1);
    } else if i > 0 {
      InteractionPulls(v, mass, p, s, i - 1, |v|, k);
    }
  }

  /** The pair loops give each body the pull of all the others, whatever order they go in. */
  lemma EveryBodyIsPulled(v: seq<real>, mass: seq<real>, p: seq<real>, s: Scene, k: nat)
    requires |v| == |mass| == |p| && s.Fits(|v|) && k < |v|
    ensures AllInteracted(v, mass, p, s)[k] == v[k] + PullOf(mass, p, s, k, |v|)
  {
    InteractionPulls(v, mass, p, s, |v| - 1, |v|, k);
  }

  /** And then each body moves for the time step with the velocity it has then. */
  lemma EveryBodyMoves(v: seq<real>, mass: seq<real>, p: seq<real>, s: Scene, k: nat)
    requires |v| == |mass| == |p| && s.Fits(|v|) && k < |v|
    ensures Moved(p, AllInteracted(v, mass, p, s), s.dt)[k] ==
              p[k] + Product(s.dt, v[k] + PullOf(mass, p, s, k, |v|))
  {
    EveryBodyIsPulled(v, mass, p, s, k);
    DriftMeans(p[k], AllInteracted(v, mass, p, s)[k], s.dt);
  }

  lemma DriftMeans(p: real, v: real, dt: real)
    ensures Drift(p, v, dt) == p + Product(dt, v)
  {
  }

  method Exchange(v: array<real>, i: nat, j: nat, a: real, b: real)
    requires i < j < v.Length
    modifies v
    ensures v[..] == Exchanged(old(v[..]), i, j, a, b)
  {
    v[i] := v[i] - a;
    v[j] := v[j] + b;
  }

  method Move(p: array<real>, v: array<real>, dt: real)
    requires p != v && p.Length == v.Length
    modifies p
    ensures p[..] == Moved(old(p[..]), v[..], dt)
  {
    for i := 0 to p.Length
      invariant forall k :: 0 <= k < i ==> p[k] == Drift(old(p[k]), v[k], dt)
      invariant forall k :: i <= k < p.Length ==> p[k] == old(p[k])
    {
      p[i] := Drift(p[i], v[i], dt);
    }
  }

  class Bodies {
    const count: nat
    const x: array<real>
    const y: array<real>
    const z: array<real>
    const vx: array<real>
    const vy: array<real>
    const vz: array<real>
    const mass: array<real>

    /** The arrays are the source's globals: as many bodies in each, and no two the same. */
    ghost predicate Valid() {
      && count >= 1
      && x.Length == y.Length == z.Length == vx.Length == vy.Length == vz.Length == mass.Length == count
      && x != y && x != z && x != vx && x != vy && x != vz && x != mass
      && y != z && y != vx && y != vy && y != vz && y != mass
      && z != vx && z != vy && z != vz && z != mass
      && vx != vy && vx != vz && vx != mass && vy != vz && vy != mass && vz != mass
    }

    /** Total momentum along each axis. */
    ghost predicate Still()
      requires Valid()
      reads vx, vy, vz, mass
    {
      && Momentum(vx[..], mass[..]) == 0.0
      && Momentum(vy[..], mass[..]) == 0.0
      && Momentum(vz[..], mass[..]) == 0.0
    }

    constructor (count: nat)
      requires count >= 1
      ensures Valid() && this.count == count
      ensures fresh({x, y, z, vx, vy, vz, mass})
    {
      this.count := count;
      x, y, z := new real[count], new real[count], new real[count];
      vx, vy, vz := new real[count], new real[count], new real[count];
      mass := new real[count];
    }

    /** `offset_momentum`: the sun's velocity cancels everybody else's. */
    method OffsetMomentum(solarMass: real)
      requires Valid() && solarMass != 0.0
      modifies vx, vy, vz
      ensures vx[..] == Offset(old(vx[..]), mass[..], solarMass)
      ensures vy[..] == Offset(old(vy[..]), mass[..], solarMass)
      ensures vz[..] == Offset(old(vz[..]), mass[..], solarMass)
    {
      var px, py, pz := 0.0, 0.0, 0.0;
      ghost var ux, uy, uz, m := vx[..], vy[..], vz[..], mass[..];
      for i := 0 to count
        invariant px == Momentum(ux[..i], m[..i])
        invariant py == Momentum(uy[..i], m[..i])
        invariant pz == Momentum(uz[..i], m[..i])
        modifies {}
      {
        MomentumNext(ux, m, i);
        MomentumNext(uy, m, i);
        MomentumNext(uz, m, i);
        assert vx[i] == ux[i] && vy[i] == uy[i] && vz[i] == uz[i] && mass[i] == m[i];
        px := px + Product(vx[i], mass[i]);
        py := py + Product(vy[i], mass[i]);
        pz := pz + Product(vz[i], mass[i]);
      }
      assert ux[..count] == ux && uy[..count] == uy && uz[..count] == uz && m[..count] == m;
      assert px == Momentum(ux, m) && py == Momentum(uy, m) && pz == Momentum(uz, m);
      vx[0] := Cancelling(px, solarMass);
      vy[0] := Cancelling(py, solarMass);
      vz[0] := Cancelling(pz, solarMass);
      assert mass[..] == m;
    }

    ghost function Here(dt: real, magnitude: (real, real) -> real): (s: Scene)
      requires Valid()
      reads x, y, z
      ensures s.Fits(count)
    {
      Scene(x[..], y[..], z[..], dt, magnitude)
    }

    /** One pair: the factor depends on the distance, and each axis exchanges its share. */
    method ExchangePair(i: nat, j: nat, dt: real, magnitude: (real, real) -> real)
      requires Valid() && i < j < count
      modifies vx, vy, vz
      ensures var s := Here(dt, magnitude);
              && vx[..] == PairExchanged(old(vx[..]), mass[..], x[..], s, i, j)
              && vy[..] == PairExchanged(old(vy[..]), mass[..], y[..], s, i, j)
              && vz[..] == PairExchanged(old(vz[..]), mass[..], z[..], s, i, j)
    {
      var dx, dy, dz := x[i] - x[j], y[i] - y[j], z[i] - z[j];
      var mag := magnitude(dt, DistanceSquared(dx, dy, dz));
      assert mag == Here(dt, magnitude).Mag(i, j);
      Exchange(vx, i, j, Impulse(dx, mass[j], mag), Impulse(dx, mass[i], mag));
      Exchange(vy, i, j, Impulse(dy, mass[j], mag), Impulse(dy, mass[i], mag));
      Exchange(vz, i, j, Impulse(dz, mass[j], mag), Impulse(dz, mass[i], mag));
    }

    /** The nested loops of `advance`: every pair exchanges momentum. */
    method Interact(dt: real, magnitude: (real, real) -> real)
      requires Valid()
      modifies vx, vy, vz
      ensures vx[..] == AllInteracted(old(vx[..]), mass[..], x[..], Here(dt, magnitude))
      ensures vy[..] == AllInteracted(old(vy[..]), mass[..], y[..], Here(dt, magnitude))
      ensures vz[..] == AllInteracted(old(vz[..]), mass[..], z[..], Here(dt, magnitude))
    {
      ghost var s, m := Here(dt, magnitude), mass[..];
      ghost var ux, uy, uz := vx[..], vy[..], vz[..];
      for i := 0 to count
        invariant i < count ==> vx[..] == Interacted(ux, m, s.x, s, i, i + 1)
        invariant i < count ==> vy[..] == Interacted(uy, m, s.y, s, i, i + 1)
        invariant i < count ==> vz[..] == Interacted(uz, m, s.z, s, i, i + 1)
        invariant i == count ==> vx[..] == AllInteracted(ux, m, s.x, s)
        invariant i == count ==> vy[..] == AllInteracted(uy, m, s.y, s)
        invariant i == count ==> vz[..] == AllInteracted(uz, m, s.z, s)
      {
        for j := i + 1 to count
          invariant vx[..] == Interacted(ux, m, s.x, s, i, j)
          invariant vy[..] == Interacted(uy, m, s.y, s, i, j)
          invariant vz[..] == Interacted(uz, m, s.z, s, i, j)
        {
          ExchangePair(i, j, dt, magnitude);
          assert mass[..] == m && x[..] == s.x && y[..] == s.y && z[..] == s.z;
        }
      }
    }

    /** `advance`: every pair exchanges momentum, then every body moves with its new velocity. */
    method Advance(dt: real, magnitude: (real, real) -> real)
      requires Valid()
      modifies x, y, z, vx, vy, vz
      ensures vx[..] == AllInteracted(old(vx[..]), mass[..], old(x[..]), old(Here(dt, magnitude)))
      ensures vy[..] == AllInteracted(old(vy[..]), mass[..], old(y[..]), old(Here(dt, magnitude)))
      ensures vz[..] == AllInteracted(old(vz[..]), mass[..], old(z[..]), old(Here(dt, magnitude)))
      ensures x[..] == Moved(old(x[..]), vx[..], dt)
      ensures y[..] == Moved(old(y[..]), vy[..], dt)
      ensures z[..] == Moved(old(z[..]), vz[..], dt)
    {
      ghost var m := mass[..];
      Interact(dt, magnitude);
      ghost var ux, uy, uz := vx[..], vy[..], vz[..];
      Move(x, vx, dt);
      Move(y, vy, dt);
      Move(z, vz, dt);
      assert vx[..] == ux && vy[..] == uy && vz[..] == uz && mass[..] == m;
    }

    /** A step keeps total momentum at zero. */
    method Step(dt: real, magnitude: (real, real) -> real)
      requires Valid() && Still()
      modifies x, y, z, vx, vy, vz
      ensures Still()
    {
      ghost var s, m := Here(dt, magnitude), mass[..];
      InteractionKeepsMomentum(vx[..], m, x[..], s, count - 1, count);
      InteractionKeepsMomentum(vy[..], m, y[..], s, count - 1, count);
      InteractionKeepsMomentum(vz[..], m, z[..], s, count - 1, count);
      Advance(dt, magnitude);
      assert mass[..] == m;
    }

    /** The step loop of `main`: from a sun at rest, total momentum is zero after any number
        of steps. */
    method Simulate(steps: nat, solarMass: real, magnitude: (real, real) -> real)
      requires Valid() && solarMass != 0.0 && mass[0] == solarMass
      requires vx[0] == 0.0 && vy[0] == 0.0 && vz[0] == 0.0
      modifies x, y, z, vx, vy, vz
      ensures Still()
    {
      OffsetStopsIff(vx[..], mass[..], solarMass);
      OffsetStopsIff(vy[..], mass[..], solarMass);
      OffsetStopsIff(vz[..], mass[..], solarMass);
      OffsetMomentum(solarMass);
      for i := 0 to steps
        invariant Still()
      {
        Step(0.01, magnitude);
      }
    }
  }

  /** Replacing velocity u by -p / m changes the total p to -u * m. */
  lemma OffsetBalance(u: real, p: real, m: real)
    requires m != 0.0
    ensures p - Product(u, m) + Product(Cancelling(p, m), m) == 0.0 <==> u == 0.0
  {
    assert -p / m * m == -p;
    if u * m == 0.0 {
      assert u == u * m / m;
    }
  }
}
