# Quantum-Box wells in Dafny

A model of the two square-well classes of Quantum-Box and proofs about them.

- `FiniteSquareWell` has six parts:
  - the piecewise potential;
  - the bound-state search (`bound_states`): two parities, nine `fsolve` seeds each, an acceptance filter, then `sorted(list(set(...)))`;
  - the piecewise wavefunction of one energy and its normalisation;
  - the pairing of energies with wavefunctions (`bound_wavefunction`);
  - the tunnelling factor;
  - the histogram loop at the end of `quantum_tunneling`.
- `InfiniteSquareWell` has four parts:
  - the closed-form energy levels;
  - the eigenfunctions and their probability density;
  - the loop of `time_evolve`;
  - the histogram loop of `simulate_quantum_measurement`.

Every numerical library call is a field of a `Numerics.Oracles` value: `sqrt`, `tan`, `sin`, `cos`, `exp`, numpy's `trapz` and scipy's `fsolve`. The model proves its properties for whatever those functions return. Where a property depends on a fact about one of them, that fact is a hypothesis of the lemma, for example:
- `cos` is even and `sin` is odd;
- `exp(t) * exp(-t) == 1`;
- `sqrt` is positive on positive numbers.

`fsolve(f, guess)` returns `None` when the call raised; the source's bare `except: pass` swallows that case. Double results that are not finite are a `Float` datatype, so three cases are explicit:
- the `float('inf')` sentinel of the matching equations;
- numpy's division by a zero tangent in the odd equation;
- numpy's `counts / shots` with no shots, NaN for an empty bin (`Histogram.Shares`).

Files:

- `numerics.dfy`: the oracles, `Float`, numpy-style division.
- `ordering.dfy`: `sorted(list(set(xs)))` on reals.
- `histogram.dfy`: the measurement histogram shared by both wells.
- `finite_well.dfy`: `FiniteSquareWell`.
- `infinite_well.dfy`: `InfiniteSquareWell`.

Three points where the model follows the code as written:

1. Deduplication of the energies is exact equality, as Python's `set` does it. The model does not merge energies that are merely close: two seeds that converge to the same root with different rounding stay two entries.
2. `bound_wavefunction` chooses each energy's parity from its position in the sorted list (even, odd, even, ...), not from the equation that produced it. `FiniteWell.IndexParity` keeps that rule.
3. The wavefunction is built by three masked assignments in source order: inside, then right, then left. The last one that applies wins. For a negative half-width the masks overlap, and the model keeps that overwrite order.

## Model

| member | source | states |
|---|---|---|
| Numerics.Divide | src/finite_square.py:46 | numpy division of finite doubles: finite exactly when the divisor is non-zero; a zero divisor gives +inf, -inf or NaN according to the dividend's sign |
| Numerics.Minus | src/finite_square.py:46 | `f - gamma` for a finite gamma: finite exactly when f is, with f - gamma + gamma = f; an infinity or NaN passes through unchanged |
| FiniteWell.Potential | src/finite_square.py:16-17 | one value per position: 0 where abs(x) <= a, V0 everywhere else |
| FiniteWell.PotentialSymmetric | src/finite_square.py:16-17 | the potential at -x equals the potential at x, element by element |
| FiniteWell.EvenEquation | src/finite_square.py:25-30 | the +inf sentinel exactly when E lies outside (0, V0), a finite value inside |
| FiniteWell.OddEquation | src/finite_square.py:41-46 | the sentinel outside (0, V0); inside, finite exactly when tan(k a) is non-zero |
| FiniteWell.SentinelRejects | src/finite_square.py:26-27 | for both parities an energy outside (0, V0) yields +inf, which never passes abs(f) < 1e-6 |
| FiniteWell.Accepted | src/finite_square.py:34 | an accepted solution lies in (0, V0) and its equation value is finite, never the sentinel or a NaN |
| FiniteWell.Attempt | src/finite_square.py:33-37 | one loop pass yields E exactly when fsolve returned E and E passed the filter; a raised fsolve or a rejected solution yields nothing |
| FiniteWell.Seeds | src/finite_square.py:23-32 | nine guesses, the i-th being the guess of loop index n = i + 1 |
| FiniteWell.SeedsInBand | src/finite_square.py:32-48 | for V0 > 0 every even and odd guess lies strictly inside (0, V0) |
| FiniteWell.Harvest | src/finite_square.py:23-37 | one parity's loop appends at most one energy per seed, and only energies that pass the acceptance filter |
| FiniteWell.HarvestMembers | src/finite_square.py:33-37 | E is appended if and only if some seed's fsolve returned E and E passed the filter; a raised fsolve adds nothing |
| FiniteWell.Candidates | src/finite_square.py:21-53 | the two loops together append at most 18 energies, each accepted by one of the two equations |
| FiniteWell.SolveParity | src/finite_square.py:23-53 | either parity's loop over n = 1..9 (lines 23-37 even, 39-53 odd) appends exactly the harvest of the nine seeds; at most 9 energies, each in (0, V0) with abs(f) < 1e-6 |
| FiniteWell.BoundStates | src/finite_square.py:19-55 | the result is sorted(set(even + odd)): strictly ascending, exactly the appended energies, at most 18, each in (0, V0) and accepted |
| FiniteWell.HarvestEmptyWithoutDepth | src/finite_square.py:34 | for V0 <= 0 no energy passes 0 < E < V0, so a loop appends nothing |
| FiniteWell.NoBoundStatesWithoutDepth | src/finite_square.py:19-55 | a well with V0 <= 0 has no bound states |
| Ordering.Insert | src/finite_square.py:55 | adding one element to an ascending duplicate-free list keeps it ascending, with exactly the old elements plus the new one |
| Ordering.SortedSet | src/finite_square.py:55 | sorted(list(set(s))) is strictly ascending, has exactly the elements of s, and is no longer than s |
| Ordering.AscendingUnique | src/finite_square.py:55 | two strictly ascending lists with the same elements are equal, so the sorted set is unique |
| Ordering.SortedSetIdempotent | src/finite_square.py:55 | sorting the set of an already sorted set changes nothing |
| FiniteWell.Profile | src/finite_square.py:61-81 | psi before normalisation, one value per grid point: the value of the last masked assignment that covers that point |
| FiniteWell.Unnormalised | src/finite_square.py:61-81 | the value at x after the three masked stores in source order: the left formula wherever x < -a, else the right formula wherever x > a, else the inside formula |
| FiniteWell.RegionsPartition | src/finite_square.py:63-81 | for a >= 0 each point is in exactly one of inside, right and left, and psi there follows that region's formula |
| FiniteWell.ContinuousAtRightWall | src/finite_square.py:66-77 | with exp(t) exp(-t) = 1, the right tail at x = a equals the inside value A |
| FiniteWell.ContinuousAtLeftWall | src/finite_square.py:66-81 | with cos even and sin odd as well, the left tail at x = -a equals the inside value there, for both parities |
| FiniteWell.TailsMirror | src/finite_square.py:76-81 | the left tail at x is the right tail at -x, negated for odd parity |
| FiniteWell.InsideMirror | src/finite_square.py:63-70 | inside the well the even solution is unchanged under x -> -x and the odd one changes sign |
| FiniteWell.UnnormalisedSymmetric | src/finite_square.py:57-81 | for a >= 0, psi(-x) = psi(x) for even parity and psi(-x) = -psi(x) for odd parity |
| FiniteWell.Normalised | src/finite_square.py:83-85 | psi keeps its length, and is returned unchanged when trapz(psi**2) <= 0 |
| FiniteWell.NormalisationKeepsSigns | src/finite_square.py:83-85 | dividing by sqrt(norm) keeps every entry's sign and every zero |
| FiniteWell.WaveSpec | src/finite_square.py:57-87 | the returned wavefunction has one entry per grid point, each with the sign of the unnormalised psi there (positive, negative or zero) |
| FiniteWell.AssignWhere | src/finite_square.py:65 | `psi[mask] = f(x[mask])`: the masked entries receive f, every other entry keeps its value |
| FiniteWell.DivideAll | src/finite_square.py:85 | `psi /= d` divides every entry in place |
| FiniteWell.Wavefunction | src/finite_square.py:57-87 | the array after zeros, the three masked assignments and the guarded in-place normalisation is the specified wavefunction, one entry per grid point |
| FiniteWell.WaveSymmetric | src/finite_square.py:57-87 | on a grid mirrored about 0 the returned wavefunction is even or odd according to its parity, normalised or not |
| FiniteWell.IndexParity | src/finite_square.py:94 | the parity of list position i: even at position 0, and alternating from each position to the next |
| FiniteWell.BoundWavefunction | src/finite_square.py:89-98 | one (E, psi) pair per bound-state energy, in ascending order, psi built with parity chosen by list position |
| FiniteWell.TunnelingProbability | src/finite_square.py:100-105 | 1.0 whenever E >= V0 |
| FiniteWell.TunnelingIsProbability | src/finite_square.py:100-105 | for hbar > 0 and m >= 0, with sqrt >= 0 on non-negative arguments and exp mapping t <= 0 into (0, 1], the factor lies in (0, 1] for a non-negative width |
| FiniteWell.QuantumTunneling | src/finite_square.py:132-137 | 2**n entries, the divided histogram of the measurements: NaN everywhere with no shots; otherwise every entry is in [0, 1] and the shares add up to 1 |
| Histogram.Index | src/finite_square.py:134 | the little-endian value of an n-bit measurement is below 2**n, so it indexes one of the bins |
| Histogram.IndexOfToBits | src/finite_square.py:134 | every bin index below 2**n is the value of exactly the n-bit vector ToBits gives |
| Histogram.ToBitsOfIndex | src/finite_square.py:134 | the index determines the measurement: distinct n-bit vectors land in distinct bins |
| Histogram.Tally | src/finite_square.py:132-135 | the bins after the counting loop: 2**n of them, one per n-bit index |
| Histogram.Count | src/finite_square.py:132-135 | the counting loop leaves 2**n bins; bin b holds the number of measurements whose index is b, and the bins add up to the number of measurements |
| Histogram.TallyCounts | src/finite_square.py:133-135 | bin b of the tally is the multiplicity of b among the measurement indices |
| Histogram.TallySum | src/finite_square.py:133-135 | the bins add up to the number of measurements |
| Histogram.Shares | src/finite_square.py:137 | `counts / shots` in numpy: the ordinary share for a positive number of shots; NaN exactly for the empty bins when there are no shots |
| Histogram.Frequencies | src/infinite_sqaure.py:63-68 | the shared loop returns, with 2**n entries, the shares of the tally |
| Histogram.SharesAreFrequencies | src/infinite_sqaure.py:68 | with no shots every entry is NaN; otherwise every entry is finite and in [0, 1] and the shares add up to 1 |
| Histogram.DistributionSum | src/finite_square.py:137 | the shares times the number of shots add up to the total count |
| Histogram.HistogramIsDistribution | src/finite_square.py:137 | with shots equal to the number of measurements, every share lies in [0, 1] and the shares add up to 1 |
| InfiniteWell.EnergyLevel | src/infinite_sqaure.py:14-15 | (n pi hbar)**2 / (2 m L**2) is zero exactly when n = 0 or hbar = 0, and never negative for positive L, m and hbar |
| InfiniteWell.EnergyQuadratic | src/infinite_sqaure.py:14-15 | E_n = n**2 E_1 |
| InfiniteWell.EnergySignInvariant | src/infinite_sqaure.py:14-15 | E_-n = E_n |
| InfiniteWell.EnergyOfZero | src/infinite_sqaure.py:14-15 | E_0 = 0 |
| InfiniteWell.EnergyPositive | src/infinite_sqaure.py:14-15 | for positive L, m and hbar, every level with n != 0 is positive |
| InfiniteWell.EnergyIncreasing | src/infinite_sqaure.py:14-15 | for positive L, m and hbar, 1 <= n < n' gives E_n < E_n' |
| InfiniteWell.Wavefunction | src/infinite_sqaure.py:17-20 | one value sqrt(2 / L) sin(n pi x / L) per point of x, the box grid when x is None; n = 0 gives the zero function when sin(0) = 0 |
| InfiniteWell.NegatedQuantumNumber | src/infinite_sqaure.py:17-20 | with sin odd, the eigenfunction for -n is the negation of the one for n, on the box grid or on a given x |
| InfiniteWell.ProbabilityDensity | src/infinite_sqaure.py:22-24 | one non-negative value per point of the wavefunction, zero exactly where psi is zero |
| InfiniteWell.DensitySignInvariant | src/infinite_sqaure.py:22-24 | with sin odd, n and -n have the same probability density |
| InfiniteWell.ProbabilityRow | src/infinite_sqaure.py:38 | abs(psi)**2 is one non-negative value per point, zero exactly where psi is 0 |
| InfiniteWell.TimeEvolve | src/infinite_sqaure.py:34-40 | one row per time, in the order of `times`, row i being abs(psi(t_i))**2 |
| InfiniteWell.SimulateQuantumMeasurement | src/infinite_sqaure.py:63-68 | 2**n entries, the divided histogram: NaN everywhere with no shots; otherwise every entry is in [0, 1] and the shares add up to 1 |

## Left out

- Numerical accuracy is not modelled. `fsolve`'s iteration, and the rounding of `sqrt`, `tan`, `sin`, `cos`, `exp` and `trapz`, are oracles, and all arithmetic is over the reals.
- The model proves nothing about which roots `fsolve` finds, or whether a deep well has more roots than the nine seeds per parity reach.
- The model does not say that a negative argument gives NaN: `sqrt` is an oracle returning a real. In the source that happens for `m < 0`, for `E < 0` or `E > V0` in `wavefunction`, and for `2 / L < 0`.
- hbar = 0 is excluded by `FiniteWell.Well.Valid`. numpy would produce inf or NaN there.
- L = 0 or m = 0 is excluded by the requires of `InfiniteWell.EnergyLevel`, and L = 0 by that of `InfiniteWell.Wavefunction`. The source's Python float division raises `ZeroDivisionError` there.
- `__init__` of both classes is not modelled. The grid `x` is a field taken as given, not recomputed by `linspace`, and `dx` and `N` are unused by the modelled operations.
- `k0` in `bound_states` (src/finite_square.py:20) is computed and never used, so it is left out.
- `quantum_circuit` of both classes, `cirq.measure` and the simulator run are not modelled. The measurements are an input: `shots` rows of n bits each.
- `superposition_state` (src/infinite_sqaure.py:26-32) is not modelled. Its complex phases `exp(-i E_n t / hbar)` need complex exponentials. `TimeEvolve` takes the superposition as a function of time instead.
- `InfiniteWell.Wavefunction` takes a grid, not a scalar `x`; numpy also accepts a single number there.
- `FiniteWell.Wavefunction` assumes `sqrt` is positive on positive numbers (`RootsPositive`), so that the normalising divisor is never zero. For numpy's `sqrt` this always holds.
- The returned numpy arrays are sequences. Two arrays are modelled as updated in place: the finite-well `wavefunction` buffer (`FiniteWell.Wavefunction`) and the histogram bins `position_dist` / `position_counts` (`Histogram.Count`).
- `wavefunction(E, parity='even')` (src/finite_square.py:57, 64, 76) takes the parity as a string that defaults to 'even' and sends every other string to the odd branch. `FiniteWell.Parity` has only `Even` and `Odd`. Any string other than 'even' is modelled as `Odd`, and the default as `Even`, given explicitly.
- `visualization/visualizer.py` and `main.py` are not part of this model.
