/** `FiniteSquareWell`: the potential, the search for bound-state energies,
    the piecewise wavefunction of each, the tunnelling factor and the
    measurement histogram of the decorative circuit. */
module FiniteWell {
  import opened Numerics
  import opened Ordering
  import Histogram

  datatype Parity = Even | Odd

  /** The well's state after construction: half-width a (= width / 2), depth
      V0, mass m, hbar, and the position grid x. Nothing mutates it later.
      Valid: hbar is a usable divisor. */
  datatype Well = Well(a: real, V0: real, m: real, hbar: real, x: seq<real>) {
    predicate Valid() { hbar != 0.0 }
  }

  /** The acceptance tolerance on |f(E)|. */
  const Tolerance: real := 0.000001

  // ---------------------------------------------------------------------
  // Potential

  function PotentialAt(w: Well, x: real): real {
    if Abs(x) <= w.a then 0.0 else w.V0
  }

  /** `np.where(np.abs(x) <= a, 0, V0)` over a whole array of positions. */
  function Potential(w: Well, xs: seq<real>): (v: seq<real>)
    ensures |v| == |xs|
    ensures forall i :: 0 <= i < |xs| ==>
      (Abs(xs[i]) <= w.a && v[i] == 0.0) || (Abs(xs[i]) > w.a && v[i] == w.V0)
  {
    seq(|xs|, i requires 0 <= i < |xs| => PotentialAt(w, xs[i]))
  }

  /** The potential is the same at x and -x, element by element. */
  lemma PotentialSymmetric(w: Well, xs: seq<real>, ys: seq<real>)
    requires |xs| == |ys|
    requires forall i :: 0 <= i < |xs| ==> ys[i] == -xs[i]
    ensures Potential(w, ys) == Potential(w, xs)
  {
  }

  // ---------------------------------------------------------------------
  // Matching conditions

  function WaveNumber(w: Well, num: Oracles, E: real): real
    requires w.Valid()
  {
    num.sqrt(2.0 * w.m * E) / w.hbar
  }

  function DecayRate(w: Well, num: Oracles, E: real): real
    requires w.Valid()
  {
    num.sqrt(2.0 * w.m * (w.V0 - E)) / w.hbar
  }

  predicate InBand(w: Well, E: real) {
    0.0 < E < w.V0
  }

  /** `even_equation`: k tan(k a) - gamma, or the +inf sentinel outside (0, V0). */
  function EvenEquation(w: Well, num: Oracles, E: real): (f: Float)
    requires w.Valid()
    ensures f == PosInf <==> !InBand(w, E)
    ensures InBand(w, E) ==> f.Finite?
  {
    if E >= w.V0 || E <= 0.0 then PosInf
    else
      Finite(WaveNumber(w, num, E) * num.tan(Phase(w, num, E, w.a)) - DecayRate(w, num, E))
  }

  /** `odd_equation`: -k / tan(k a) - gamma, or the +inf sentinel outside
      (0, V0). Inside the band a zero tangent makes it infinite or NaN, as in
      numpy. */
  function OddEquation(w: Well, num: Oracles, E: real): (f: Float)
    requires w.Valid()
    ensures !InBand(w, E) ==> f == PosInf
    ensures InBand(w, E) ==> (f.Finite? <==> num.tan(Phase(w, num, E, w.a)) != 0.0)
  {
    if E >= w.V0 || E <= 0.0 then PosInf
    else
      Minus(Divide(-WaveNumber(w, num, E), num.tan(Phase(w, num, E, w.a))), DecayRate(w, num, E))
  }

  function Matching(w: Well, num: Oracles, p: Parity, E: real): Float
    requires w.Valid()
  {
    match p
    case Even => EvenEquation(w, num, E)
    case Odd => OddEquation(w, num, E)
  }

  /** The matching function of one parity, as the closure handed to fsolve. */
  function Equation(w: Well, num: Oracles, p: Parity): real -> Float
    requires w.Valid()
  {
    E => Matching(w, num, p, E)
  }

  /** The sentinel keeps every energy outside (0, V0) from passing the
      |f| < 1e-6 test, for both parities. */
  lemma SentinelRejects(w: Well, num: Oracles, p: Parity, E: real)
    requires w.Valid()
    requires !InBand(w, E)
    ensures Matching(w, num, p, E) == PosInf
    ensures !AbsBelow(Matching(w, num, p, E), Tolerance)
  {
  }

  // ---------------------------------------------------------------------
  // Seeds and acceptance

  /** The n-th starting guess: V0 (n - 0.5) / 10 for even, V0 n / 10 for odd. */
  function Seed(p: Parity, V0: real, n: int): real {
    match p
    case Even => V0 * (n as real - 0.5) / 10.0
    case Odd => V0 * n as real / 10.0
  }

  /** The guesses for n = 1..9, in loop order. */
  function Seeds(p: Parity, V0: real): (s: seq<real>)
    ensures |s| == 9
    ensures forall i :: 0 <= i < 9 ==> s[i] == Seed(p, V0, i + 1)
  {
    seq(9, i => Seed(p, V0, i + 1))
  }

  /** For a positive depth every seed lies strictly inside (0, V0). */
  lemma SeedsInBand(p: Parity, V0: real)
    requires V0 > 0.0
    ensures forall i :: 0 <= i < 9 ==> 0.0 < Seeds(p, V0)[i] < V0
  {
    forall i | 0 <= i < 9
      ensures 0.0 < Seeds(p, V0)[i] < V0
    {
      var c := if p == Even then (i + 1) as real - 0.5 else (i + 1) as real;
      assert 0.0 < c < 10.0;
      assert Seeds(p, V0)[i] == V0 * c / 10.0;
      ScaledInside(V0, c);
    }
  }

  lemma ScaledInside(V0: real, c: real)
    requires V0 > 0.0 && 0.0 < c < 10.0
    ensures 0.0 < V0 * c / 10.0 < V0
  {
    assert V0 * c < V0 * 10.0;
  }

  /** The filter a solution must pass before it is appended. */
  predicate Accepted(w: Well, num: Oracles, p: Parity, E: real)
    requires w.Valid()
    ensures Accepted(w, num, p, E) ==> InBand(w, E) && Matching(w, num, p, E).Finite?
  {
    0.0 < E < w.V0 && AbsBelow(Matching(w, num, p, E), Tolerance)
  }

  /** One pass of the loop body: fsolve from the seed, then the filter. A call
      that raises (None) and a solution that fails the filter both add nothing. */
  function Attempt(w: Well, num: Oracles, p: Parity, seed: real): (r: Option<real>)
    requires w.Valid()
    ensures r.Some? <==>
      num.fsolve(Equation(w, num, p), seed).Some? && Accepted(w, num, p, num.fsolve(Equation(w, num, p), seed).value)
    ensures r.Some? ==> r == num.fsolve(Equation(w, num, p), seed)
  {
    match num.fsolve(Equation(w, num, p), seed)
    case None => None
    case Some(E) => if Accepted(w, num, p, E) then Some(E) else None
  }

  /** The energies one parity's loop appends, in seed order. */
  function Harvest(w: Well, num: Oracles, p: Parity, seeds: seq<real>): (found: seq<real>)
    requires w.Valid()
    ensures |found| <= |seeds|
    ensures forall E :: E in found ==> Accepted(w, num, p, E)
  {
    if seeds == [] then []
    else
      var before := Harvest(w, num, p, seeds[..|seeds| - 1]);
      match Attempt(w, num, p, seeds[|seeds| - 1])
      case None => before
      case Some(E) => before + [E]
  }

  /** An energy is harvested exactly when some seed's attempt produced it. */
  lemma {:induction false} HarvestMembers(w: Well, num: Oracles, p: Parity, seeds: seq<real>, E: real)
    requires w.Valid()
    ensures E in Harvest(w, num, p, seeds) <==>
      exists i :: 0 <= i < |seeds| && Attempt(w, num, p, seeds[i]) == Some(E)
  {
    if seeds != [] {
      var k := |seeds| - 1;
      HarvestMembers(w, num, p, seeds[..k], E);
      if E in Harvest(w, num, p, seeds) && E !in Harvest(w, num, p, seeds[..k]) {
        assert Attempt(w, num, p, seeds[k]) == Some(E);
      }
      if exists i :: 0 <= i < |seeds| && Attempt(w, num, p, seeds[i]) == Some(E) {
        var i :| 0 <= i < |seeds| && Attempt(w, num, p, seeds[i]) == Some(E);
        if i < k {
          assert seeds[..k][i] == seeds[i];
        }
      }
    }
  }

  /** Everything both loops append, even parity first. */
  function Candidates(w: Well, num: Oracles): (found: seq<real>)
    requires w.Valid()
    ensures |found| <= 18
    ensures forall E :: E in found ==> Accepted(w, num, Even, E) || Accepted(w, num, Odd, E)
  {
    Harvest(w, num, Even, Seeds(Even, w.V0)) + Harvest(w, num, Odd, Seeds(Odd, w.V0))
  }

  /** One of the two `for n in range(1, 10)` loops of `bound_states`: fsolve
      from each seed of the parity, append the solution when it passes the
      filter, swallow a failed solve. */
  method SolveParity(w: Well, num: Oracles, p: Parity) returns (found: seq<real>)
    requires w.Valid()
    ensures found == Harvest(w, num, p, Seeds(p, w.V0))
    ensures |found| <= 9
    ensures forall E :: E in found ==> 0.0 < E < w.V0 && AbsBelow(Matching(w, num, p, E), Tolerance)
  {
    found := [];
    for n := 1 to 10
      invariant found == Harvest(w, num, p, Seeds(p, w.V0)[..n - 1])
    {
      var guess := Seed(p, w.V0, n);
      assert Seeds(p, w.V0)[..n][..n - 1] == Seeds(p, w.V0)[..n - 1];
      var solution := num.fsolve(Equation(w, num, p), guess);
      match solution {
        case None =>
        case Some(E) =>
          if 0.0 < E < w.V0 && AbsBelow(Matching(w, num, p, E), Tolerance) {
            found := found + [E];
          }
      }
    }
    assert Seeds(p, w.V0)[..9] == Seeds(p, w.V0);
  }

  /** `bound_states`: the even loop, then the odd loop, then
      `sorted(list(set(...)))`. */
  method BoundStates(w: Well, num: Oracles) returns (energies: seq<real>)
    requires w.Valid()
    ensures energies == SortedSet(Candidates(w, num))
    ensures StrictlyAscending(energies)
    ensures |energies| <= 18
    ensures forall E :: E in energies <==> E in Candidates(w, num)
    ensures forall E :: E in energies ==>
      0.0 < E < w.V0 && (Accepted(w, num, Even, E) || Accepted(w, num, Odd, E))
  {
    var evens := SolveParity(w, num, Even);
    var odds := SolveParity(w, num, Odd);
    energies := SortedSet(evens + odds);
  }

  /** With V0 <= 0 no energy passes the filter, so a loop appends nothing. */
  lemma {:induction false} HarvestEmptyWithoutDepth(w: Well, num: Oracles, p: Parity, seeds: seq<real>)
    requires w.Valid() && w.V0 <= 0.0
    ensures Harvest(w, num, p, seeds) == []
  {
    if seeds != [] {
      HarvestEmptyWithoutDepth(w, num, p, seeds[..|seeds| - 1]);
      assert Attempt(w, num, p, seeds[|seeds| - 1]) == None;
    }
  }

  /** A well of depth V0 <= 0 has no bound states. */
  lemma NoBoundStatesWithoutDepth(w: Well, num: Oracles)
    requires w.Valid() && w.V0 <= 0.0
    ensures SortedSet(Candidates(w, num)) == []
  {
    HarvestEmptyWithoutDepth(w, num, Even, Seeds(Even, w.V0));
    HarvestEmptyWithoutDepth(w, num, Odd, Seeds(Odd, w.V0));
  }

  // ---------------------------------------------------------------------
  // Wavefunction

  /** k x: the argument of the inside cos / sin (and, at x = a, of tan). */
  function Phase(w: Well, num: Oracles, E: real, x: real): real
    requires w.Valid()
  {
    WaveNumber(w, num, E) * x
  }

  /** gamma x: the argument of exp, so exp(-gamma x) is exp of Growth at -x. */
  function Growth(w: Well, num: Oracles, E: real, x: real): real
    requires w.Valid()
  {
    DecayRate(w, num, E) * x
  }

  /** cos(k x) or sin(k x) inside the well. */
  function Inside(w: Well, num: Oracles, E: real, p: Parity, x: real): real
    requires w.Valid()
  {
    match p
    case Even => num.cos(Phase(w, num, E, x))
    case Odd => num.sin(Phase(w, num, E, x))
  }

  /** B = A exp(gamma a), A the inside value at x = a. */
  function Amplitude(w: Well, num: Oracles, E: real, p: Parity): real
    requires w.Valid()
  {
    Inside(w, num, E, p, w.a) * num.exp(Growth(w, num, E, w.a))
  }

  /** B exp(-gamma x), the decaying tail to the right, for both parities. */
  function RightTail(w: Well, num: Oracles, E: real, B: real, x: real): real
    requires w.Valid()
  {
    B * num.exp(Growth(w, num, E, -x))
  }

  /** B exp(gamma x), the tail to the left, negated for odd parity. */
  function LeftTail(w: Well, num: Oracles, E: real, p: Parity, B: real, x: real): real
    requires w.Valid()
  {
    match p
    case Even => B * num.exp(Growth(w, num, E, x))
    case Odd => -B * num.exp(Growth(w, num, E, x))
  }

  function Right(w: Well, num: Oracles, E: real, p: Parity, x: real): real
    requires w.Valid()
  {
    RightTail(w, num, E, Amplitude(w, num, E, p), x)
  }

  function Left(w: Well, num: Oracles, E: real, p: Parity, x: real): real
    requires w.Valid()
  {
    LeftTail(w, num, E, p, Amplitude(w, num, E, p), x)
  }

  /** The value after the inside assignment into zeros. */
  function AfterInside(w: Well, num: Oracles, E: real, p: Parity, x: real): real
    requires w.Valid()
  {
    if Abs(x) <= w.a then Inside(w, num, E, p, x) else 0.0
  }

  /** The value after the right-region assignment. */
  function AfterRight(w: Well, num: Oracles, E: real, p: Parity, x: real): real
    requires w.Valid()
  {
    if x > w.a then Right(w, num, E, p, x) else AfterInside(w, num, E, p, x)
  }

  /** The value after the left-region assignment, the last of the three. */
  function Unnormalised(w: Well, num: Oracles, E: real, p: Parity, x: real): (u: real)
    requires w.Valid()
    ensures x < -w.a ==> u == Left(w, num, E, p, x)
    ensures -w.a <= x && x > w.a ==> u == Right(w, num, E, p, x)
    ensures -w.a <= x <= w.a ==> u == Inside(w, num, E, p, x)
  {
    if x < -w.a then Left(w, num, E, p, x) else AfterRight(w, num, E, p, x)
  }

  /** psi before normalisation, on the whole grid. */
  function Profile(w: Well, num: Oracles, E: real, p: Parity): (u: seq<real>)
    requires w.Valid()
    ensures |u| == |w.x|
    ensures forall i :: 0 <= i < |u| ==> u[i] == Unnormalised(w, num, E, p, w.x[i])
  {
    seq(|w.x|, i requires 0 <= i < |w.x| => Unnormalised(w, num, E, p, w.x[i]))
  }

  function Squares(s: seq<real>): (q: seq<real>)
    ensures |q| == |s|
    ensures forall i :: 0 <= i < |s| ==> q[i] == s[i] * s[i]
  {
    seq(|s|, i requires 0 <= i < |s| => s[i] * s[i])
  }

  /** `trapz(psi**2, x)`. */
  function Norm(w: Well, num: Oracles, u: seq<real>): real {
    num.trapz(Squares(u), w.x)
  }

  /** Divide by sqrt(norm) when norm > 0; otherwise leave psi as it is. */
  function Normalised(w: Well, num: Oracles, u: seq<real>): (r: seq<real>)
    requires RootsPositive(num)
    ensures |r| == |u|
    ensures Norm(w, num, u) <= 0.0 ==> r == u
  {
    var norm := Norm(w, num, u);
    if norm > 0.0 then seq(|u|, i requires 0 <= i < |u| => u[i] / num.sqrt(norm)) else u
  }

  /** What `wavefunction(E, parity)` returns. */
  function WaveSpec(w: Well, num: Oracles, E: real, p: Parity): (psi: seq<real>)
    requires w.Valid() && RootsPositive(num)
    ensures |psi| == |w.x|
    ensures forall i :: 0 <= i < |psi| ==>
      (psi[i] > 0.0 <==> Profile(w, num, E, p)[i] > 0.0) &&
      (psi[i] < 0.0 <==> Profile(w, num, E, p)[i] < 0.0)
  {
    var u := Profile(w, num, E, p);
    assert forall i :: 0 <= i < |u| ==>
      (Normalised(w, num, u)[i] > 0.0 <==> u[i] > 0.0) &&
      (Normalised(w, num, u)[i] < 0.0 <==> u[i] < 0.0)
    by {
      forall i | 0 <= i < |u|
        ensures (Normalised(w, num, u)[i] > 0.0 <==> u[i] > 0.0) &&
          (Normalised(w, num, u)[i] < 0.0 <==> u[i] < 0.0)
      {
        NormalisationKeepsSigns(w, num, u, i);
      }
    }
    Normalised(w, num, u)
  }

  lemma DivideKeepsSign(a: real, s: real)
    requires s > 0.0
    ensures a / s > 0.0 <==> a > 0.0
    ensures a / s < 0.0 <==> a < 0.0
  {
  }

  lemma DivideNegated(a: real, b: real, s: real)
    requires s != 0.0 && b == -a
    ensures b / s == -(a / s)
  {
  }

  /** Normalisation rescales by one positive factor, so every amplitude keeps
      its sign and every node stays a node. */
  lemma NormalisationKeepsSigns(w: Well, num: Oracles, u: seq<real>, i: int)
    requires RootsPositive(num)
    requires 0 <= i < |u|
    ensures Normalised(w, num, u)[i] > 0.0 <==> u[i] > 0.0
    ensures Normalised(w, num, u)[i] < 0.0 <==> u[i] < 0.0
  {
    var norm := Norm(w, num, u);
    if norm > 0.0 {
      DivideKeepsSign(u[i], num.sqrt(norm));
    }
  }

  /** `psi[mask] = values` over the grid: each entry whose grid point
      satisfies the mask receives f of that point, every other entry is kept. */
  method AssignWhere(psi: array<real>, xs: seq<real>, mask: real -> bool, f: real -> real)
    requires psi.Length == |xs|
    modifies psi
    ensures forall j :: 0 <= j < |xs| ==> psi[j] == (if mask(xs[j]) then f(xs[j]) else old(psi[j]))
  {
    for i := 0 to |xs|
      invariant forall j :: 0 <= j < i ==> psi[j] == (if mask(xs[j]) then f(xs[j]) else old(psi[j]))
      invariant forall j :: i <= j < |xs| ==> psi[j] == old(psi[j])
    {
      if mask(xs[i]) {
        psi[i] := f(xs[i]);
      }
    }
  }

  /** `psi /= d` in place. */
  method DivideAll(psi: array<real>, d: real)
    requires d != 0.0
    modifies psi
    ensures forall j :: 0 <= j < psi.Length ==> psi[j] == old(psi[j]) / d
  {
    for i := 0 to psi.Length
      invariant forall j :: 0 <= j < i ==> psi[j] == old(psi[j]) / d
      invariant forall j :: i <= j < psi.Length ==> psi[j] == old(psi[j])
    {
      psi[i] := psi[i] / d;
    }
  }

  /** `wavefunction`: zeros, the three masked assignments, then the
      normalisation in place. */
  method Wavefunction(w: Well, num: Oracles, E: real, p: Parity) returns (psi: seq<real>)
    requires w.Valid() && RootsPositive(num)
    ensures psi == WaveSpec(w, num, E, p)
    ensures |psi| == |w.x|
  {
    var n := |w.x|;
    var buf := new real[n](_ => 0.0);
    AssignWhere(buf, w.x, x => Abs(x) <= w.a, x => Inside(w, num, E, p, x));
    var B := Amplitude(w, num, E, p);
    AssignWhere(buf, w.x, x => x > w.a, x => RightTail(w, num, E, B, x));
    AssignWhere(buf, w.x, x => x < -w.a, x => LeftTail(w, num, E, p, B, x));
    ghost var u := buf[..];
    assert u == Profile(w, num, E, p);
    var norm := num.trapz(Squares(buf[..]), w.x);
    if norm > 0.0 {
      DivideAll(buf, num.sqrt(norm));
    }
    psi := buf[..];
  }

  /** For a non-negative half-width the three masks split the grid: each
      position is in exactly one of inside, right and left, and psi there takes
      that region's formula. */
  lemma RegionsPartition(w: Well, num: Oracles, E: real, p: Parity, x: real)
    requires w.Valid() && w.a >= 0.0
    ensures (Abs(x) <= w.a) != (x > w.a || x < -w.a)
    ensures !(x > w.a && x < -w.a)
    ensures Abs(x) <= w.a ==> Unnormalised(w, num, E, p, x) == Inside(w, num, E, p, x)
    ensures x > w.a ==> Unnormalised(w, num, E, p, x) == Right(w, num, E, p, x)
    ensures x < -w.a ==> Unnormalised(w, num, E, p, x) == Left(w, num, E, p, x)
  {
  }

  lemma PhaseOdd(w: Well, num: Oracles, E: real, x: real)
    requires w.Valid()
    ensures Phase(w, num, E, -x) == -Phase(w, num, E, x)
  {
  }

  lemma NegatedProduct(b: real, e: real)
    ensures -b * e == -(b * e)
  {
  }

  /** The tails mirror each other: the left tail at x is the right tail at -x
      for even parity and its negation for odd parity. */
  lemma TailsMirror(w: Well, num: Oracles, E: real, p: Parity, x: real)
    requires w.Valid()
    ensures Left(w, num, E, p, x) ==
      (if p == Even then Right(w, num, E, p, -x) else -Right(w, num, E, p, -x))
  {
    assert --x == x;
    NegatedProduct(Amplitude(w, num, E, p), num.exp(Growth(w, num, E, x)));
  }

  /** Inside the well cos keeps and sin flips its sign under x -> -x. */
  lemma InsideMirror(w: Well, num: Oracles, E: real, p: Parity, x: real)
    requires w.Valid()
    requires EvenFunction(num.cos) && OddFunction(num.sin)
    ensures Inside(w, num, E, p, -x) ==
      (if p == Even then Inside(w, num, E, p, x) else -Inside(w, num, E, p, x))
  {
    var t := Phase(w, num, E, x);
    PhaseOdd(w, num, E, x);
    match p {
      case Even => assert num.cos(-t) == num.cos(t);
      case Odd => assert num.sin(-t) == -num.sin(t);
    }
  }

  /** Continuity at the right wall, given exp(t) exp(-t) == 1: the outside
      formula meets the inside value at x = a. */
  lemma ContinuousAtRightWall(w: Well, num: Oracles, E: real, p: Parity)
    requires w.Valid()
    requires num.exp(Growth(w, num, E, w.a)) * num.exp(Growth(w, num, E, -w.a)) == 1.0
    ensures Right(w, num, E, p, w.a) == Inside(w, num, E, p, w.a)
  {
    var A := Inside(w, num, E, p, w.a);
    var up := num.exp(Growth(w, num, E, w.a));
    var down := num.exp(Growth(w, num, E, -w.a));
    assert Right(w, num, E, p, w.a) == (A * up) * down;
    assert (A * up) * down == A * (up * down);
  }

  /** Continuity at the left wall, given also that cos is even and sin odd. */
  lemma ContinuousAtLeftWall(w: Well, num: Oracles, E: real, p: Parity)
    requires w.Valid()
    requires EvenFunction(num.cos) && OddFunction(num.sin)
    requires num.exp(Growth(w, num, E, w.a)) * num.exp(Growth(w, num, E, -w.a)) == 1.0
    ensures Left(w, num, E, p, -w.a) == Inside(w, num, E, p, -w.a)
  {
    TailsMirror(w, num, E, p, -w.a);
    assert --w.a == w.a;
    ContinuousAtRightWall(w, num, E, p);
    InsideMirror(w, num, E, p, w.a);
  }

  /** Pointwise reflection symmetry of psi for a non-negative half-width:
      psi(-x) == psi(x) for even parity and psi(-x) == -psi(x) for odd, given
      that cos is even and sin odd. */
  lemma UnnormalisedSymmetric(w: Well, num: Oracles, E: real, p: Parity, x: real)
    requires w.Valid() && w.a >= 0.0
    requires EvenFunction(num.cos) && OddFunction(num.sin)
    ensures Unnormalised(w, num, E, p, -x) ==
      (if p == Even then Unnormalised(w, num, E, p, x) else -Unnormalised(w, num, E, p, x))
  {
    if x > w.a {
      TailsMirror(w, num, E, p, -x);
      assert --x == x;
    } else if x < -w.a {
      TailsMirror(w, num, E, p, x);
    } else {
      InsideMirror(w, num, E, p, x);
    }
  }

  /** On a grid mirrored about 0, the returned wavefunction is even or odd
      according to its parity, after normalisation as before it. */
  lemma WaveSymmetric(w: Well, num: Oracles, E: real, p: Parity, i: int)
    requires w.Valid() && w.a >= 0.0 && RootsPositive(num)
    requires EvenFunction(num.cos) && OddFunction(num.sin)
    requires forall j :: 0 <= j < |w.x| ==> w.x[|w.x| - 1 - j] == -w.x[j]
    requires 0 <= i < |w.x|
    ensures |WaveSpec(w, num, E, p)| == |w.x|
    ensures WaveSpec(w, num, E, p)[|w.x| - 1 - i] ==
      (if p == Even then WaveSpec(w, num, E, p)[i] else -WaveSpec(w, num, E, p)[i])
  {
    var u := Profile(w, num, E, p);
    var n := |w.x|;
    var mirror := n - 1 - i;
    UnnormalisedSymmetric(w, num, E, p, w.x[i]);
    assert u[mirror] == (if p == Even then u[i] else -u[i]);
    var norm := Norm(w, num, u);
    if norm > 0.0 && p == Odd {
      DivideNegated(u[i], u[mirror], num.sqrt(norm));
    }
  }

  // ---------------------------------------------------------------------
  // Spectrum with wavefunctions

  /** The parity the source assigns to the i-th energy: by position in the
      sorted list, not by the equation that produced it. */
  function IndexParity(i: nat): (p: Parity)
    ensures i == 0 ==> p == Even
    ensures i > 0 ==> p != IndexParity(i - 1)
  {
    if i % 2 == 0 then Even else Odd
  }

  /** `bound_wavefunction`: one (E, psi) pair per bound-state energy, in
      ascending order, psi built with parity alternating from even. */
  method BoundWavefunction(w: Well, num: Oracles) returns (pairs: seq<(real, seq<real>)>)
    requires w.Valid() && RootsPositive(num)
    ensures |pairs| == |SortedSet(Candidates(w, num))|
    ensures forall i :: 0 <= i < |pairs| ==>
      pairs[i].0 == SortedSet(Candidates(w, num))[i] &&
      pairs[i].1 == WaveSpec(w, num, pairs[i].0, IndexParity(i))
    ensures forall i, j :: 0 <= i < j < |pairs| ==> pairs[i].0 < pairs[j].0
  {
    var energies := BoundStates(w, num);
    pairs := [];
    for i := 0 to |energies|
      invariant |pairs| == i
      invariant forall j :: 0 <= j < i ==>
        pairs[j].0 == energies[j] && pairs[j].1 == WaveSpec(w, num, energies[j], IndexParity(j))
    {
      var parity := IndexParity(i);
      var psi := Wavefunction(w, num, energies[i], parity);
      pairs := pairs + [(energies[i], psi)];
    }
  }

  // ---------------------------------------------------------------------
  // Tunnelling and the measurement histogram

  /** `tunneling_probability`: 1.0 at or above the barrier, otherwise
      exp(-2 gamma width). The barrier start is accepted and unused. */
  function TunnelingProbability(w: Well, num: Oracles, E: real, barrierStart: real, barrierWidth: real): (t: real)
    requires w.Valid()
    ensures E >= w.V0 ==> t == 1.0
  {
    if E >= w.V0 then 1.0
    else num.exp(-2.0 * DecayRate(w, num, E) * barrierWidth)
  }

  /** With sqrt non-negative and exp mapping non-positive arguments into
      (0, 1], the tunnelling factor is a probability. */
  lemma TunnelingIsProbability(w: Well, num: Oracles, E: real, barrierStart: real, barrierWidth: real)
    requires w.hbar > 0.0 && w.m >= 0.0 && barrierWidth >= 0.0
    requires forall y: real {:trigger num.sqrt(y)} :: y >= 0.0 ==> num.sqrt(y) >= 0.0
    requires forall t: real {:trigger num.exp(t)} :: t <= 0.0 ==> 0.0 < num.exp(t) <= 1.0
    ensures 0.0 < TunnelingProbability(w, num, E, barrierStart, barrierWidth) <= 1.0
  {
    if E < w.V0 {
      var g := DecayRate(w, num, E);
      assert g >= 0.0 by {
        assert 2.0 * w.m * (w.V0 - E) >= 0.0;
        assert num.sqrt(2.0 * w.m * (w.V0 - E)) >= 0.0;
      }
      assert g * barrierWidth >= 0.0;
      assert -2.0 * g * barrierWidth <= 0.0;
    }
  }

  /** The histogram at the end of `quantum_tunneling`, over the bit-vectors the
      simulator returned: 2**n bins, bin b the share of shots whose
      little-endian index is b. */
  method QuantumTunneling(nQubits: nat, shots: nat, measurements: seq<seq<Histogram.Bit>>)
    returns (dist: seq<Float>)
    requires Histogram.AllOfWidth(nQubits, measurements) && |measurements| == shots
    ensures dist == Histogram.Shares(Histogram.Tally(nQubits, measurements), shots)
    ensures |dist| == Histogram.Pow2(nQubits)
    ensures shots == 0 ==> forall b :: 0 <= b < |dist| ==> dist[b] == NaN
    ensures shots > 0 ==> forall b :: 0 <= b < |dist| ==> dist[b].Finite? && 0.0 <= dist[b].v <= 1.0
    ensures shots > 0 ==>
      Histogram.RealSum(Histogram.Distribution(Histogram.Tally(nQubits, measurements), shots)) == 1.0
  {
    dist := Histogram.Frequencies(nQubits, shots, measurements);
    Histogram.SharesAreFrequencies(nQubits, shots, measurements);
  }
}
