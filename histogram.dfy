/** The measurement histogram shared by `quantum_tunneling` and
    `simulate_quantum_measurement`: each sampled bit-vector is read as a
    little-endian integer and the bin with that index is incremented; the bins
    are then divided by the number of shots. */
module Histogram {
  import opened Numerics

  /** One measured qubit. */
  type Bit = b: int | 0 <= b <= 1

  function Pow2(n: nat): (p: nat)
    ensures p >= 1
  {
    if n == 0 then 1 else 2 * Pow2(n - 1)
  }

  /** `sum(bit * (2**i) for i, bit in enumerate(bits))`, summed left to right. */
  function Index(bits: seq<Bit>): (v: nat)
    ensures v < Pow2(|bits|)
  {
    if bits == [] then 0
    else Index(bits[..|bits| - 1]) + Weight(bits[|bits| - 1], |bits| - 1)
  }

  /** `bit * (2**i)`, for a bit that is 0 or 1. */
  function Weight(bit: Bit, i: nat): nat {
    if bit == 1 then Pow2(i) else 0
  }

  /** The n-bit little-endian spelling of v: the inverse of Index. */
  function ToBits(v: nat, n: nat): (bits: seq<Bit>)
    requires v < Pow2(n)
    ensures |bits| == n
  {
    if n == 0 then []
    else
      if v >= Pow2(n - 1) then ToBits(v - Pow2(n - 1), n - 1) + [1]
      else ToBits(v, n - 1) + [0]
  }

  lemma IndexSnoc(low: seq<Bit>, high: Bit)
    ensures Index(low + [high]) == Index(low) + Weight(high, |low|)
  {
    assert (low + [high])[..|low|] == low;
  }

  lemma {:induction false} IndexOfToBits(v: nat, n: nat)
    requires v < Pow2(n)
    ensures Index(ToBits(v, n)) == v
  {
    if n == 0 {
      assert ToBits(v, n) == [];
    } else {
      var half := Pow2(n - 1);
      assert Pow2(n) == 2 * half;
      var rest := if v >= half then v - half else v;
      var high: Bit := if v >= half then 1 else 0;
      var low := ToBits(rest, n - 1);
      assert ToBits(v, n) == low + [high];
      IndexOfToBits(rest, n - 1);
      IndexSnoc(low, high);
      assert Weight(high, n - 1) == v - rest;
    }
  }

  /** Index is injective on bit-vectors of one length: distinct measurements
      land in distinct bins. */
  lemma {:induction false} ToBitsOfIndex(bits: seq<Bit>)
    ensures ToBits(Index(bits), |bits|) == bits
  {
    if bits != [] {
      var n := |bits|;
      var low := bits[..n - 1];
      ToBitsOfIndex(low);
      assert bits == low + [bits[n - 1]];
      IndexSnoc(low, bits[n - 1]);
      assert Index(low) < Pow2(n - 1);
    }
  }

  predicate AllOfWidth(n: nat, ms: seq<seq<Bit>>) {
    forall j :: 0 <= j < |ms| ==> |ms[j]| == n
  }

  /** The bin index of every measurement, in sampling order. */
  function Indices(ms: seq<seq<Bit>>): (ix: seq<nat>)
    ensures |ix| == |ms|
    ensures forall j :: 0 <= j < |ms| ==> ix[j] == Index(ms[j])
  {
    if ms == [] then [] else Indices(ms[..|ms| - 1]) + [Index(ms[|ms| - 1])]
  }

  /** The bins after incrementing, one measurement at a time, the bin that each
      measurement's index selects, starting from 2**n zeros. */
  function Tally(n: nat, ms: seq<seq<Bit>>): (counts: seq<nat>)
    requires AllOfWidth(n, ms)
    ensures |counts| == Pow2(n)
  {
    if ms == [] then seq(Pow2(n), _ => 0)
    else
      var before := Tally(n, ms[..|ms| - 1]);
      var b := Index(ms[|ms| - 1]);
      before[b := before[b] + 1]
  }

  function Sum(s: seq<nat>): nat {
    if s == [] then 0 else Sum(s[..|s| - 1]) + s[|s| - 1]
  }

  lemma {:induction false} SumZeros(n: nat)
    ensures Sum(seq(n, _ => 0)) == 0
  {
    if n > 0 {
      assert seq(n, _ => 0)[..n - 1] == seq(n - 1, _ => 0);
      SumZeros(n - 1);
    }
  }

  /** Incrementing one entry adds exactly one to the total. */
  lemma {:induction false} SumIncrement(s: seq<nat>, b: nat)
    requires b < |s|
    ensures Sum(s[b := s[b] + 1]) == Sum(s) + 1
  {
    var t := s[b := s[b] + 1];
    var k := |s| - 1;
    if b < k {
      assert t[..k] == s[..k][b := s[b] + 1];
      SumIncrement(s[..k], b);
    } else {
      assert t[..k] == s[..k];
    }
  }

  /** Bin b holds exactly the number of measurements whose index is b. */
  lemma {:induction false} TallyCounts(n: nat, ms: seq<seq<Bit>>, b: nat)
    requires AllOfWidth(n, ms)
    requires b < Pow2(n)
    ensures Tally(n, ms)[b] == multiset(Indices(ms))[b]
  {
    if ms != [] {
      var k := |ms| - 1;
      TallyCounts(n, ms[..k], b);
      assert Indices(ms) == Indices(ms[..k]) + [Index(ms[k])];
    }
  }

  /** Every measurement falls in exactly one bin, so the bins add up to the
      number of measurements. */
  lemma {:induction false} TallySum(n: nat, ms: seq<seq<Bit>>)
    requires AllOfWidth(n, ms)
    ensures Sum(Tally(n, ms)) == |ms|
  {
    if ms == [] {
      SumZeros(Pow2(n));
    } else {
      var k := |ms| - 1;
      TallySum(n, ms[..k]);
      assert |ms[k]| == n;
      SumIncrement(Tally(n, ms[..k]), Index(ms[k]));
    }
  }

  /** The counting loop: `position_counts = np.zeros(2**n)`, then
      `position_counts[index] += 1` for each measurement. */
  method Count(n: nat, ms: seq<seq<Bit>>) returns (counts: seq<nat>)
    requires AllOfWidth(n, ms)
    ensures counts == Tally(n, ms)
    ensures |counts| == Pow2(n)
    ensures Sum(counts) == |ms|
    ensures forall b :: 0 <= b < |counts| ==> counts[b] == multiset(Indices(ms))[b]
  {
    var bins := new nat[Pow2(n)](_ => 0);
    assert bins[..] == Tally(n, ms[..0]);
    for j := 0 to |ms|
      invariant bins.Length == Pow2(n)
      invariant bins[..] == Tally(n, ms[..j])
    {
      var index := Index(ms[j]);
      assert ms[..j + 1][..j] == ms[..j];
      bins[index] := bins[index] + 1;
    }
    assert ms[..|ms|] == ms;
    counts := bins[..];
    TallySum(n, ms);
    forall b | 0 <= b < |counts|
      ensures counts[b] == multiset(Indices(ms))[b]
    {
      TallyCounts(n, ms, b);
    }
  }

  function RealSum(s: seq<real>): real {
    if s == [] then 0.0 else RealSum(s[..|s| - 1]) + s[|s| - 1]
  }

  /** `counts / shots`, element-wise. */
  function Distribution(counts: seq<nat>, shots: nat): (dist: seq<real>)
    requires shots > 0
    ensures |dist| == |counts|
    ensures forall b :: 0 <= b < |counts| ==> dist[b] * shots as real == counts[b] as real
  {
    seq(|counts|, b requires 0 <= b < |counts| => counts[b] as real / shots as real)
  }

  lemma {:induction false} DistributionSum(counts: seq<nat>, shots: nat)
    requires shots > 0
    ensures Scaled(RealSum(Distribution(counts, shots)), shots) == Sum(counts) as real
  {
    if counts != [] {
      var k := |counts| - 1;
      DistributionSum(counts[..k], shots);
      assert Distribution(counts, shots)[..k] == Distribution(counts[..k], shots);
      ScaledSum(RealSum(Distribution(counts[..k], shots)), Distribution(counts, shots)[k], shots);
    }
  }

  /** r * n. */
  function Scaled(r: real, n: nat): real {
    r * n as real
  }

  /** Only a factor of one scales a positive n to itself. */
  lemma UnitFactor(r: real, n: nat)
    requires n > 0 && Scaled(r, n) == n as real
    ensures r == 1.0
  {
    var s := n as real;
    assert r * s == s;
  }

  lemma ScaledSum(a: real, c: real, n: nat)
    ensures Scaled(a + c, n) == Scaled(a, n) + c * n as real
  {
  }

  /** `position_counts / shots` in numpy: an ordinary quotient for a positive
      number of shots; with no shots every empty bin is 0 / 0, that is NaN. */
  function Shares(counts: seq<nat>, shots: nat): (dist: seq<Float>)
    ensures |dist| == |counts|
    ensures shots > 0 ==> forall b :: 0 <= b < |counts| ==> dist[b] == Finite(Distribution(counts, shots)[b])
    ensures shots == 0 ==> forall b :: 0 <= b < |counts| ==> (dist[b] == NaN <==> counts[b] == 0)
  {
    seq(|counts|, b requires 0 <= b < |counts| => Divide(counts[b] as real, shots as real))
  }

  /** The histogram loop shared by both wells: count each measurement into
      the bin of its index, then divide by the number of shots. */
  method Frequencies(n: nat, shots: nat, ms: seq<seq<Bit>>) returns (dist: seq<Float>)
    requires AllOfWidth(n, ms) && |ms| == shots
    ensures dist == Shares(Tally(n, ms), shots)
    ensures |dist| == Pow2(n)
  {
    var counts := Count(n, ms);
    dist := seq(|counts|, b requires 0 <= b < |counts| => Divide(counts[b] as real, shots as real));
  }

  /** What the divided histogram holds: NaN everywhere without shots;
      otherwise in every bin the share of measurements with that index, a
      number in [0, 1], the shares adding up to 1 (which measurements a bin
      counts is stated by Count and TallyCounts). */
  lemma SharesAreFrequencies(n: nat, shots: nat, ms: seq<seq<Bit>>)
    requires AllOfWidth(n, ms) && |ms| == shots
    ensures shots == 0 ==> forall b :: 0 <= b < Pow2(n) ==> Shares(Tally(n, ms), shots)[b] == NaN
    ensures shots > 0 ==> forall b :: 0 <= b < Pow2(n) ==>
      Shares(Tally(n, ms), shots)[b].Finite? && 0.0 <= Shares(Tally(n, ms), shots)[b].v <= 1.0
    ensures shots > 0 ==> RealSum(Distribution(Tally(n, ms), shots)) == 1.0
  {
    if shots > 0 {
      HistogramIsDistribution(n, ms, shots);
    } else {
      assert ms == [];
    }
  }

  /** The normalised histogram of `shots` measurements is a probability
      distribution over the 2**n bins: every entry lies in [0, 1] and the
      entries add up to 1. */
  lemma HistogramIsDistribution(n: nat, ms: seq<seq<Bit>>, shots: nat)
    requires AllOfWidth(n, ms) && shots > 0 && |ms| == shots
    ensures RealSum(Distribution(Tally(n, ms), shots)) == 1.0
    ensures forall b :: 0 <= b < Pow2(n) ==> 0.0 <= Distribution(Tally(n, ms), shots)[b] <= 1.0
  {
    TallySum(n, ms);
    DistributionOfTotal(Tally(n, ms), shots);
  }

  lemma DistributionOfTotal(counts: seq<nat>, shots: nat)
    requires shots > 0 && Sum(counts) == shots
    ensures RealSum(Distribution(counts, shots)) == 1.0
    ensures forall b :: 0 <= b < |counts| ==> 0.0 <= Distribution(counts, shots)[b] <= 1.0
  {
    SumOfShares(counts, shots);
    forall b | 0 <= b < |counts|
      ensures 0.0 <= Distribution(counts, shots)[b] <= 1.0
    {
      BinShare(counts, shots, b);
    }
  }

  lemma SumOfShares(counts: seq<nat>, shots: nat)
    requires shots > 0 && Sum(counts) == shots
    ensures RealSum(Distribution(counts, shots)) == 1.0
  {
    DistributionSum(counts, shots);
    UnitFactor(RealSum(Distribution(counts, shots)), shots);
  }

  /** One bin's share of a total that its own count cannot exceed. */
  lemma BinShare(counts: seq<nat>, shots: nat, b: nat)
    requires shots > 0 && Sum(counts) == shots && b < |counts|
    ensures 0.0 <= Distribution(counts, shots)[b] <= 1.0
  {
    BinBelowSum(counts, b);
    FractionBounds(counts[b] as real, shots as real);
    assert Distribution(counts, shots)[b] == counts[b] as real / shots as real;
  }

  lemma FractionBounds(c: real, s: real)
    requires 0.0 <= c <= s && s > 0.0
    ensures 0.0 <= c / s <= 1.0
  {
  }

  lemma {:induction false} BinBelowSum(s: seq<nat>, b: nat)
    requires b < |s|
    ensures s[b] <= Sum(s)
  {
    if b < |s| - 1 {
      BinBelowSum(s[..|s| - 1], b);
    }
  }
}
