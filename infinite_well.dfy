/** `InfiniteSquareWell`: the closed-form energies and eigenfunctions of a box
    of length L, the time evolution of a superposition sampled at given
    times, and the measurement histogram of its decorative circuit. */
module InfiniteWell {
  import opened Numerics
  import Histogram

  /** numpy's pi, as a double. */
  const Pi: real := 3.141592653589793

  /** The box after construction: length L, mass m, hbar and the grid x. */
  datatype Box = Box(L: real, m: real, hbar: real, x: seq<real>) {
    predicate Physical() { L > 0.0 && m > 0.0 && hbar > 0.0 }
  }

  // ---------------------------------------------------------------------
  // Energy levels

  /** x * y, with the sign rules the energy lemmas rely on. */
  function Mul(x: real, y: real): (p: real)
    ensures x > 0.0 && y > 0.0 ==> p > 0.0
    ensures x < 0.0 && y < 0.0 ==> p > 0.0
    ensures x == 0.0 || y == 0.0 ==> p == 0.0
  {
    x * y
  }

  /** x**2: nonnegative, and zero exactly at zero. */
  function Square(x: real): (s: real)
    ensures s >= 0.0
    ensures s == 0.0 <==> x == 0.0
  {
    Mul(x, x)
  }

  lemma SquareOfNegation(x: real)
    ensures Square(-x) == Square(x)
  {
  }

  lemma SquareOfProduct(x: real, y: real)
    ensures Square(x * y) == Square(x) * Square(y)
  {
  }

  /** Squaring is strictly increasing on the nonnegative reals. */
  lemma SquareIncreasing(x: real, y: real)
    requires 0.0 <= x < y
    ensures Square(x) < Square(y)
  {
    assert Square(y) - Square(x) == Mul(y - x, y + x);
  }

  /** 2 m L**2, the denominator of every level. */
  function Denominator(b: Box): (d: real)
    requires b.m != 0.0 && b.L != 0.0
    ensures d != 0.0
    ensures b.Physical() ==> d > 0.0
  {
    var d := 2.0 * b.m * Square(b.L);
    assert b.m > 0.0 ==> d > 0.0;
    assert b.m < 0.0 ==> d < 0.0;
    d
  }

  /** `energy_level(n)`: (n pi hbar)**2 / (2 m L**2). */
  function EnergyLevel(b: Box, n: int): (e: real)
    requires b.m != 0.0 && b.L != 0.0
    ensures e == 0.0 <==> n == 0 || b.hbar == 0.0
    ensures b.Physical() ==> e >= 0.0
  {
    var top := Square(n as real * Pi * b.hbar);
    var d := Denominator(b);
    assert n as real * Pi * b.hbar == Mul(Mul(n as real, Pi), b.hbar);
    assert top == 0.0 <==> n == 0 || b.hbar == 0.0;
    assert b.Physical() ==> top / d >= 0.0;
    top / d
  }

  /** E_n = n**2 E_1: the spectrum is the ground level scaled by n**2. */
  lemma EnergyQuadratic(b: Box, n: int)
    requires b.m != 0.0 && b.L != 0.0
    ensures EnergyLevel(b, n) == Square(n as real) * EnergyLevel(b, 1)
  {
    var r := n as real;
    assert r * Pi * b.hbar == r * (Pi * b.hbar);
    SquareOfProduct(r, Pi * b.hbar);
    assert 1 as real * Pi * b.hbar == Pi * b.hbar;
    var d := Denominator(b);
    assert Square(r) * Square(Pi * b.hbar) / d == Square(r) * (Square(Pi * b.hbar) / d);
  }

  /** The level depends on n only through n**2: E_{-n} = E_n. */
  lemma EnergySignInvariant(b: Box, n: int)
    requires b.m != 0.0 && b.L != 0.0
    ensures EnergyLevel(b, -n) == EnergyLevel(b, n)
  {
    EnergyQuadratic(b, n);
    EnergyQuadratic(b, -n);
    SquareOfNegation(n as real);
    assert (-n) as real == -(n as real);
  }

  /** n = 0 gives the zero function and zero energy. */
  lemma EnergyOfZero(b: Box)
    requires b.m != 0.0 && b.L != 0.0
    ensures EnergyLevel(b, 0) == 0.0
  {
    assert 0 as real * Pi * b.hbar == 0.0;
  }

  /** Every level other than n = 0 lies above zero. */
  lemma EnergyPositive(b: Box, n: int)
    requires b.Physical() && n != 0
    ensures EnergyLevel(b, n) > 0.0
  {
    EnergyQuadratic(b, n);
    assert Pi * b.hbar != 0.0;
    assert EnergyLevel(b, 1) == Square(Pi * b.hbar) / Denominator(b);
    assert EnergyLevel(b, 1) > 0.0;
    assert Mul(Square(n as real), EnergyLevel(b, 1)) > 0.0;
  }

  /** The spectrum is strictly increasing from the ground level up. */
  lemma EnergyIncreasing(b: Box, n: int, n': int)
    requires b.Physical() && 1 <= n < n'
    ensures EnergyLevel(b, n) < EnergyLevel(b, n')
  {
    EnergyQuadratic(b, n);
    EnergyQuadratic(b, n');
    EnergyPositive(b, 1);
    SquareIncreasing(n as real, n' as real);
    var gap := Square(n' as real) - Square(n as real);
    assert Mul(gap, EnergyLevel(b, 1)) > 0.0;
  }

  // ---------------------------------------------------------------------
  // Eigenfunctions

  /** n pi x / L, the argument of the sine. */
  function ModeAngle(b: Box, n: int, x: real): real
    requires b.L != 0.0
  {
    n as real * Pi * x / b.L
  }

  /** `wavefunction(n, x)`: sqrt(2 / L) sin(n pi x / L) at every point of x,
      the box's own grid when x is None. */
  function Wavefunction(b: Box, num: Oracles, n: int, xs: Option<seq<real>>): (psi: seq<real>)
    requires b.L != 0.0
    ensures |psi| == (if xs.None? then |b.x| else |xs.value|)
    ensures forall i :: 0 <= i < |psi| ==>
      psi[i] == Mode(b, num, n, (if xs.None? then b.x else xs.value)[i])
    ensures n == 0 && num.sin(0.0) == 0.0 ==> forall i :: 0 <= i < |psi| ==> psi[i] == 0.0
  {
    var pts := if xs.None? then b.x else xs.value;
    seq(|pts|, i requires 0 <= i < |pts| => Mode(b, num, n, pts[i]))
  }

  /** sqrt(2 / L) sin(n pi x / L) at one point. */
  function Mode(b: Box, num: Oracles, n: int, x: real): (y: real)
    requires b.L != 0.0
    ensures n == 0 && num.sin(0.0) == 0.0 ==> y == 0.0
  {
    assert n == 0 ==> ModeAngle(b, n, x) == 0.0;
    num.sqrt(2.0 / b.L) * num.sin(ModeAngle(b, n, x))
  }

  /** `probability_density(n, x)`: |psi|**2 element-wise. */
  function ProbabilityDensity(b: Box, num: Oracles, n: int, xs: Option<seq<real>>): (rho: seq<real>)
    requires b.L != 0.0
    ensures |rho| == |Wavefunction(b, num, n, xs)|
    ensures forall i :: 0 <= i < |rho| ==> rho[i] >= 0.0
    ensures forall i :: 0 <= i < |rho| ==> (rho[i] == 0.0 <==> Wavefunction(b, num, n, xs)[i] == 0.0)
  {
    var psi := Wavefunction(b, num, n, xs);
    seq(|psi|, i requires 0 <= i < |psi| => Square(Abs(psi[i])))
  }

  lemma ModeAngleOdd(b: Box, n: int, x: real)
    requires b.L != 0.0
    ensures ModeAngle(b, -n, x) == -ModeAngle(b, n, x)
  {
    assert (-n) as real * Pi * x == -(n as real * Pi * x);
  }

  lemma ModeNegated(b: Box, num: Oracles, n: int, x: real)
    requires b.L != 0.0 && OddFunction(num.sin)
    ensures Mode(b, num, -n, x) == -Mode(b, num, n, x)
  {
    ModeAngleOdd(b, n, x);
    var t := ModeAngle(b, n, x);
    assert num.sin(-t) == -num.sin(t);
  }

  /** With sin odd, the eigenfunction of -n is the negation of that of n. */
  lemma NegatedQuantumNumber(b: Box, num: Oracles, n: int, xs: Option<seq<real>>)
    requires b.L != 0.0 && OddFunction(num.sin)
    ensures |Wavefunction(b, num, -n, xs)| == |Wavefunction(b, num, n, xs)|
    ensures forall i :: 0 <= i < |Wavefunction(b, num, n, xs)| ==>
      Wavefunction(b, num, -n, xs)[i] == -Wavefunction(b, num, n, xs)[i]
  {
    var pts := if xs.None? then b.x else xs.value;
    forall i | 0 <= i < |pts|
      ensures Wavefunction(b, num, -n, xs)[i] == -Wavefunction(b, num, n, xs)[i]
    {
      ModeNegated(b, num, n, pts[i]);
    }
  }

  /** ... and so the two share one probability density. */
  lemma DensitySignInvariant(b: Box, num: Oracles, n: int, xs: Option<seq<real>>)
    requires b.L != 0.0 && OddFunction(num.sin)
    ensures ProbabilityDensity(b, num, -n, xs) == ProbabilityDensity(b, num, n, xs)
  {
    NegatedQuantumNumber(b, num, n, xs);
    var psi := Wavefunction(b, num, n, xs);
    var rhoNeg := ProbabilityDensity(b, num, -n, xs);
    var rho := ProbabilityDensity(b, num, n, xs);
    forall i | 0 <= i < |rho|
      ensures rhoNeg[i] == rho[i]
    {
      assert Abs(-psi[i]) == Abs(psi[i]);
    }
  }

  // ---------------------------------------------------------------------
  // Time evolution

  datatype Complex = Complex(re: real, im: real)

  /** `np.abs(psi)**2` of a complex array, element-wise. */
  function ProbabilityRow(psi: seq<Complex>): (row: seq<real>)
    ensures |row| == |psi|
    ensures forall i :: 0 <= i < |psi| ==> row[i] >= 0.0
    ensures forall i :: 0 <= i < |psi| ==> (row[i] == 0.0 <==> psi[i] == Complex(0.0, 0.0))
  {
    seq(|psi|, i requires 0 <= i < |psi| => Modulus2(psi[i]))
  }

  /** |z|**2 = re**2 + im**2. */
  function Modulus2(z: Complex): (r: real)
    ensures r >= 0.0
    ensures r == 0.0 <==> z == Complex(0.0, 0.0)
  {
    Square(z.re) + Square(z.im)
  }

  /** `time_evolve`: one probability row per time, in the order of `times`.
      `state(t)` stands for `superposition_state(coefficients,
      quantum_numbers, t)`. */
  method TimeEvolve(state: real -> seq<Complex>, times: seq<real>) returns (results: seq<seq<real>>)
    ensures |results| == |times|
    ensures forall i :: 0 <= i < |times| ==> results[i] == ProbabilityRow(state(times[i]))
  {
    results := [];
    for i := 0 to |times|
      invariant |results| == i
      invariant forall j :: 0 <= j < i ==> results[j] == ProbabilityRow(state(times[j]))
    {
      var psi := state(times[i]);
      var prob := ProbabilityRow(psi);
      results := results + [prob];
    }
  }

  // ---------------------------------------------------------------------
  // Measurement histogram

  /** The histogram at the end of `simulate_quantum_measurement`, over the
      bit-vectors the simulator returned: 2**n bins, bin b the share of shots
      whose little-endian index is b. */
  method SimulateQuantumMeasurement(nQubits: nat, shots: nat, measurements: seq<seq<Histogram.Bit>>)
    returns (dist: seq<Float>)
    requires Histogram.AllOfWidth(nQubits, measurements) && |measurements| == shots
    ensures dist == Histogram.Shares(Histogram.Tally(nQubits, measurements), shots)
    ensures |dist| == Histogram.Pow2(nQubits)
    ensures shots == 0 ==> forall b :: 0 <= b < |dist| ==> dist[b] == NaN
    ensures shots > 0 ==> forall b :: 0 <= b < |dist| ==> dist[b].Finite? && 0.0 <= dist[b].v <= 1.0
    ensures shots > 0 ==>
      Histogram.RealSum(Histogram.Distribution(Histogram.Tally(nQubits, measurements), shots)) == 1.0
  {
    dist := Histogram.Frequencies(nQubits, shots, measurements);
    Histogram.SharesAreFrequencies(nQubits, shots, measurements);
  }
}
