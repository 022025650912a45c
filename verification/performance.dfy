/** Performance loops: returns neutral to flows, the worst fall, the rate of the flows, and attribution. */
module Performance {
  import opened Wrappers
  import opened Sums

  // --- Time-weighted return ------------------------------------------------------------------------

  function FlowAt(flows: seq<real>, i: nat): real
  {
    if i < |flows| then flows[i] else 0.0
  }

  /** What a period starts from: the value before it and the flow that arrives at its start. */
  function Start(values: seq<real>, flows: seq<real>, i: nat): real
    requires 0 < i < |values|
  {
    values[i - 1] + FlowAt(flows, i)
  }

  /** The return that takes `start` to `value`. */
  function Change(start: real, value: real): real
    requires start > 0.0
  {
    (value - start) / start
  }

  /** The factor a return multiplies by. */
  function Factor(r: real): real
  {
    1.0 + r
  }

  function PeriodReturn(values: seq<real>, flows: seq<real>, i: nat): real
    requires 0 < i < |values| && Start(values, flows, i) > 0.0
  {
    Change(Start(values, flows, i), values[i])
  }

  /** Growth linked over the first `n` values, and how many periods counted. */
  function Linked(values: seq<real>, flows: seq<real>, n: nat): (real, nat)
    requires 1 <= n <= |values|
  {
    if n == 1 then (1.0, 0)
    else
      var (growth, used) := Linked(values, flows, n - 1);
      if Start(values, flows, n - 1) <= 0.0 then (growth, used)
      else (Amount(growth, Factor(PeriodReturn(values, flows, n - 1))), used + 1)
  }

  method TimeWeightedReturn(values: seq<real>, flows: seq<real>) returns (r: Option<real>)
    ensures |values| < 2 ==> r.None?
    ensures |values| >= 2 ==>
      r == if Linked(values, flows, |values|).1 == 0 then None else Some(Linked(values, flows, |values|).0 - 1.0)
  {
    if |values| < 2 {
      return None;
    }
    var linked, used := 1.0, 0;
    for i := 1 to |values|
      invariant (linked, used) == Linked(values, flows, i)
    {
      var begin := values[i - 1] + FlowAt(flows, i);
      if begin > 0.0 {
        linked := Amount(linked, Factor(Change(begin, values[i])));
        used := used + 1;
      }
    }
    r := if used == 0 then None else Some(linked - 1.0);
  }

  /** The value series of a strategy that grows whatever it holds by `growth[i]` in period i. */
  predicate Follows(values: seq<real>, flows: seq<real>, growth: seq<real>)
  {
    |values| == |growth| + 1 && forall i :: 0 < i < |values| ==>
      Start(values, flows, i) > 0.0 && values[i] == Amount(Start(values, flows, i), growth[i - 1])
  }

  function Product(growth: seq<real>): real
  {
    if growth == [] then 1.0 else Amount(Product(growth[..|growth| - 1]), growth[|growth| - 1])
  }

  lemma DividedBack(x: real, y: real)
    requires y > 0.0
    ensures x / y * y == x
  {
  }

  lemma ChangeOfGrowth(start: real, growth: real)
    requires start > 0.0
    ensures Change(start, Amount(start, growth)) == growth - 1.0
  {
    var change := Change(start, Amount(start, growth));
    DividedBack(Amount(start, growth) - start, start);
    assert start * growth - start == (growth - 1.0) * start;
    WithinQuotient(change, start, growth - 1.0);
    WithinQuotient(growth - 1.0, start, change);
  }

  lemma GrowthOfPeriod(values: seq<real>, flows: seq<real>, growth: seq<real>, i: nat)
    requires Follows(values, flows, growth) && 0 < i < |values|
    ensures Start(values, flows, i) > 0.0 && PeriodReturn(values, flows, i) == growth[i - 1] - 1.0
    ensures Factor(PeriodReturn(values, flows, i)) == growth[i - 1]
  {
    ChangeOfGrowth(Start(values, flows, i), growth[i - 1]);
  }

  lemma {:induction false} LinkedIsProduct(values: seq<real>, flows: seq<real>, growth: seq<real>, n: nat)
    requires Follows(values, flows, growth) && 1 <= n <= |values|
    ensures Linked(values, flows, n) == (Product(growth[..n - 1]), n - 1)
  {
    if n > 1 {
      LinkedIsProduct(values, flows, growth, n - 1);
      GrowthOfPeriod(values, flows, growth, n - 1);
      assert growth[..n - 1][..n - 2] == growth[..n - 2];
    }
  }

  /** Flow neutrality: however money is added and withdrawn, the linked growth of a strategy is the product of its
      own growth, so two clients in one strategy are reported the same return. */
  lemma ReturnIgnoresFlows(values: seq<real>, flows: seq<real>, growth: seq<real>)
    requires Follows(values, flows, growth) && growth != []
    ensures Linked(values, flows, |values|) == (Product(growth), |growth|)
  {
    LinkedIsProduct(values, flows, growth, |values|);
    assert growth[..|growth|] == growth;
  }

  /** The period returns that the risk figures are computed from. */
  function Returns(values: seq<real>, flows: seq<real>, n: nat): seq<real>
    requires 1 <= n <= |values|
  {
    if n == 1 then []
    else
      var last := if Start(values, flows, n - 1) > 0.0 then PeriodReturn(values, flows, n - 1) else 0.0;
      Returns(values, flows, n - 1) + [last]
  }

  method PeriodReturns(values: seq<real>, flows: seq<real>) returns (daily: seq<real>)
    requires values != []
    ensures daily == Returns(values, flows, |values|)
  {
    daily := [];
    for i := 1 to |values|
      invariant daily == Returns(values, flows, i)
    {
      var begin := values[i - 1] + FlowAt(flows, i);
      daily := daily + [if begin > 0.0 then Change(begin, values[i]) else 0.0];
    }
  }

  function LessOne(growth: seq<real>): (r: seq<real>)
    ensures |r| == |growth| && forall i :: 0 <= i < |growth| ==> r[i] == growth[i] - 1.0
  {
    if growth == [] then [] else LessOne(growth[..|growth| - 1]) + [growth[|growth| - 1] - 1.0]
  }

  /** The risk figures see the strategy's growth and none of the flows. */
  lemma {:induction false} ReturnsIgnoreFlows(values: seq<real>, flows: seq<real>, growth: seq<real>, n: nat)
    requires Follows(values, flows, growth) && 1 <= n <= |values|
    ensures Returns(values, flows, n) == LessOne(growth[..n - 1])
  {
    if n > 1 {
      ReturnsIgnoreFlows(values, flows, growth, n - 1);
      GrowthOfPeriod(values, flows, growth, n - 1);
      assert growth[..n - 1][..n - 2] == growth[..n - 2];
    }
  }

  // --- Maximum drawdown ------------------------------------------------------------------------------

  /** The growth index after the first `j` returns; it starts at one. */
  function LevelAt(rs: seq<real>, j: nat): real
    requires j <= |rs|
  {
    if j == 0 then 1.0 else Amount(LevelAt(rs, j - 1), Factor(rs[j - 1]))
  }

  /** No period loses more than everything. */
  predicate Possible(rs: seq<real>)
  {
    forall r :: r in rs ==> r >= -1.0
  }

  lemma ProductNonnegative(a: real, b: real)
    requires a >= 0.0 && b >= 0.0
    ensures Amount(a, b) >= 0.0
  {
  }

  lemma {:induction false} LevelIsNonnegative(rs: seq<real>, j: nat)
    requires Possible(rs) && j <= |rs|
    ensures LevelAt(rs, j) >= 0.0
  {
    if j > 0 {
      LevelIsNonnegative(rs, j - 1);
      assert rs[j - 1] in rs;
      ProductNonnegative(LevelAt(rs, j - 1), Factor(rs[j - 1]));
    }
  }

  /** How far `level` is below `peak`, as a fraction. */
  function Below(level: real, peak: real): real
    requires peak > 0.0
  {
    level / peak - 1.0
  }

  /** The fall from one point of the index to another. */
  function Fall(rs: seq<real>, i: nat, j: nat): real
    requires i <= |rs| && j <= |rs| && LevelAt(rs, i) > 0.0
  {
    Below(LevelAt(rs, j), LevelAt(rs, i))
  }

  /** The highest point so far; it is at least the starting level. */
  predicate IsPeak(rs: seq<real>, i: nat, n: nat)
    requires n <= |rs|
  {
    i <= n && LevelAt(rs, i) > 0.0 && forall k :: 0 <= k <= n ==> LevelAt(rs, k) <= LevelAt(rs, i)
  }

  lemma {:induction false} HasPeak(rs: seq<real>, n: nat) returns (i: nat)
    requires n <= |rs|
    ensures IsPeak(rs, i, n)
  {
    if n == 0 {
      i := 0;
    } else {
      i := HasPeak(rs, n - 1);
      if LevelAt(rs, n) > LevelAt(rs, i) {
        i := n;
      }
    }
  }

  /** Among the first `n` returns, a fall from the highest point so far, and no such fall is worse. */
  ghost predicate WorstFromPeak(rs: seq<real>, worst: real, n: nat)
    requires n <= |rs|
  {
    && (exists i, j :: 0 <= j <= n && IsPeak(rs, i, j) && worst == Fall(rs, i, j))
    && (forall i, j :: 0 <= j <= n && IsPeak(rs, i, j) ==> worst <= Fall(rs, i, j))
  }

  lemma FromHigherFallsFurther(level: real, lower: real, higher: real)
    requires 0.0 < lower <= higher && 0.0 <= level
    ensures Below(level, higher) <= Below(level, lower)
  {
    var a, b := level / lower, level / higher;
    assert a * lower == level && b * higher == level;
    assert a >= 0.0;
    assert a * (higher - lower) >= 0.0;
    WithinQuotient(a, higher, b);
  }

  /** Measured from the highest point, a fall is at least as bad as measured from any other: even after a total loss. */
  lemma NoFallIsWorse(rs: seq<real>, worst: real, i: nat, j: nat)
    requires Possible(rs) && WorstFromPeak(rs, worst, |rs|) && i <= j <= |rs| && LevelAt(rs, i) > 0.0
    ensures worst <= Fall(rs, i, j)
  {
    var p := HasPeak(rs, j);
    LevelIsNonnegative(rs, j);
    FromHigherFallsFurther(LevelAt(rs, j), LevelAt(rs, i), LevelAt(rs, p));
    assert worst <= Fall(rs, p, j);
  }

  lemma NextIsWorst(rs: seq<real>, worst: real, peak: nat, n: nat)
    requires n < |rs| && WorstFromPeak(rs, worst, n) && IsPeak(rs, peak, n + 1)
    ensures WorstFromPeak(rs, Min(worst, Fall(rs, peak, n + 1)), n + 1)
  {
    var next := Min(worst, Fall(rs, peak, n + 1));
    forall i, j | 0 <= j <= n + 1 && IsPeak(rs, i, j) ensures next <= Fall(rs, i, j) {
      if j == n + 1 {
        assert LevelAt(rs, i) == LevelAt(rs, peak);
      }
    }
    if next == worst {
      var i, j :| 0 <= j <= n && IsPeak(rs, i, j) && worst == Fall(rs, i, j);
      assert j <= n + 1 && next == Fall(rs, i, j);
    }
  }

  /** The running state of the loop after `n` returns; `at` is where the peak was. */
  ghost predicate Tracks(rs: seq<real>, level: real, peak: real, worst: real, at: nat, n: nat)
    requires n <= |rs|
  {
    level == LevelAt(rs, n) && IsPeak(rs, at, n) && peak == LevelAt(rs, at) && WorstFromPeak(rs, worst, n) && worst <= 0.0
  }

  /** One more return: the new level is the new peak or is measured from the old one. */
  lemma TracksNext(rs: seq<real>, level: real, peak: real, worst: real, at: nat, n: nat) returns (next: nat)
    requires n < |rs| && Tracks(rs, level, peak, worst, at, n)
    ensures var grown := Amount(level, Factor(rs[n]));
      && Max(peak, grown) > 0.0
      && Tracks(rs, grown, Max(peak, grown), Min(worst, Below(grown, Max(peak, grown))), next, n + 1)
  {
    var grown := Amount(level, Factor(rs[n]));
    next := if peak < grown then n + 1 else at;
    assert IsPeak(rs, next, n + 1) by {
      forall k | 0 <= k <= n + 1 ensures LevelAt(rs, k) <= LevelAt(rs, next) {
        assert k <= n ==> LevelAt(rs, k) <= LevelAt(rs, at);
      }
    }
    NextIsWorst(rs, worst, next, n);
  }

  lemma StartsAtOne(rs: seq<real>)
    ensures Tracks(rs, 1.0, 1.0, 0.0, 0, 0)
  {
    assert IsPeak(rs, 0, 0);
    assert Fall(rs, 0, 0) == 0.0;
  }

  /** The loop keeps a running peak, so what it returns is the worst fall from a peak, whatever the returns; and where no
      return loses more than everything, no fall from any positive point of the index to any later one is worse. */
  method MaxDrawdown(rs: seq<real>) returns (r: Option<real>)
    ensures rs == [] <==> r.None?
    ensures r.Some? ==> WorstFromPeak(rs, r.value, |rs|) && r.value <= 0.0
    ensures r.Some? && Possible(rs) ==> forall i, j :: 0 <= i <= j <= |rs| && LevelAt(rs, i) > 0.0 ==> r.value <= Fall(rs, i, j)
  {
    if rs == [] {
      return None;
    }
    var level, peak, worst := 1.0, 1.0, 0.0;
    ghost var at := 0;
    StartsAtOne(rs);
    for n := 0 to |rs|
      invariant Tracks(rs, level, peak, worst, at, n)
    {
      at := TracksNext(rs, level, peak, worst, at, n);
      level := Amount(level, Factor(rs[n]));
      peak := Max(peak, level);
      if peak > 0.0 {
        worst := Min(worst, Below(level, peak));
      }
    }
    if Possible(rs) {
      forall i, j | 0 <= i <= j <= |rs| && LevelAt(rs, i) > 0.0 ensures worst <= Fall(rs, i, j) {
        NoFallIsWorse(rs, worst, i, j);
      }
    }
    r := Some(worst);
  }

  // --- Money-weighted return --------------------------------------------------------------------------

  const LOWEST_RATE: real := -0.9999
  const HIGHEST_RATE: real := 10.0
  const NEAR_ZERO: real := 0.0000001

  function Halved(width: real, n: nat): real
  {
    if n == 0 then width else Halved(width, n - 1) / 2.0
  }

  predicate Brackets(npv: real -> real, low: real, high: real)
  {
    LOWEST_RATE <= low <= high <= HIGHEST_RATE && npv(low) * npv(high) <= 0.0
  }

  /** A root of the value, within the tolerance, or the middle of a bracket halved this many times. */
  ghost predicate Solves(npv: real -> real, rate: real, iterations: nat)
  {
    || (npv(rate) < NEAR_ZERO && -npv(rate) < NEAR_ZERO)
    || exists low, high :: Brackets(npv, low, high) && high - low == Halved(HIGHEST_RATE - LOWEST_RATE, iterations)
                           && rate == (low + high) / 2.0
  }

  lemma SameSide(low: real, mid: real, high: real)
    requires low * high <= 0.0
    ensures mid * low > 0.0 ==> mid * high <= 0.0
    ensures mid * low <= 0.0 ==> low * mid <= 0.0
  {
    if mid * low > 0.0 {
      if low > 0.0 {
        SignsAgree(mid, low);
        NegativeFactor(low, high);
        assert mid * high <= 0.0 by {
          OppositeSigns(mid, high);
        }
      } else {
        SignsAgree(mid, low);
        PositiveFactor(low, high);
        OppositeSigns(high, mid);
      }
    }
  }

  lemma SignsAgree(a: real, b: real)
    requires a * b > 0.0
    ensures b > 0.0 ==> a > 0.0
    ensures b <= 0.0 ==> a < 0.0 && b < 0.0
  {
  }

  lemma NegativeFactor(a: real, b: real)
    requires a > 0.0 && a * b <= 0.0
    ensures b <= 0.0
  {
  }

  lemma PositiveFactor(a: real, b: real)
    requires a <= 0.0 && a * b <= 0.0
    ensures a < 0.0 ==> b >= 0.0
  {
  }

  lemma OppositeSigns(a: real, b: real)
    requires 0.0 <= a && b <= 0.0
    ensures a * b <= 0.0 && b * a <= 0.0
  {
  }

  /** Bisection over a fixed bracket: no answer without a sign change, and otherwise an honest one. */
  method SolveRate(npv: real -> real, iterations: nat) returns (rate: Option<real>)
    ensures rate.None? <==> npv(LOWEST_RATE) * npv(HIGHEST_RATE) > 0.0
    ensures rate.Some? ==> LOWEST_RATE <= rate.value <= HIGHEST_RATE && Solves(npv, rate.value, iterations)
  {
    var low, high := LOWEST_RATE, HIGHEST_RATE;
    if npv(low) * npv(high) > 0.0 {
      return None;
    }
    for n := 0 to iterations
      invariant Brackets(npv, low, high)
      invariant high - low == Halved(HIGHEST_RATE - LOWEST_RATE, n)
    {
      var mid := (low + high) / 2.0;
      var value := npv(mid);
      if value < NEAR_ZERO && -value < NEAR_ZERO {
        return Some(mid);
      }
      SameSide(npv(low), value, npv(high));
      if value * npv(low) > 0.0 {
        low := mid;
      } else {
        high := mid;
      }
    }
    return Some((low + high) / 2.0);
  }

  // --- Attribution ---------------------------------------------------------------------------------------

  /** One asset class: portfolio and benchmark weights and returns. */
  datatype Sleeve = Sleeve(portfolioWeight: real, portfolioReturn: real, benchmarkWeight: real, benchmarkReturn: real)

  const PortfolioPart: Sleeve -> real := (s: Sleeve) => Amount(s.portfolioWeight, s.portfolioReturn)
  const BenchmarkPart: Sleeve -> real := (s: Sleeve) => Amount(s.benchmarkWeight, s.benchmarkReturn)
  const Tilt: Sleeve -> real := (s: Sleeve) => s.portfolioWeight - s.benchmarkWeight

  /** Allocation, selection and interaction effects of one class. */
  function Effect(s: Sleeve, benchmark: real): real
  {
    (s.portfolioWeight - s.benchmarkWeight) * (s.benchmarkReturn - benchmark)
    + s.benchmarkWeight * (s.portfolioReturn - s.benchmarkReturn)
    + (s.portfolioWeight - s.benchmarkWeight) * (s.portfolioReturn - s.benchmarkReturn)
  }

  function EffectOf(benchmark: real): Sleeve -> real
  {
    (s: Sleeve) => Effect(s, benchmark)
  }

  lemma EffectSplits(s: Sleeve, benchmark: real)
    ensures Effect(s, benchmark) == PortfolioPart(s) - BenchmarkPart(s) - Amount(Tilt(s), benchmark)
  {
  }

  method Attribute(sleeves: seq<Sleeve>) returns (effects: seq<real>, benchmark: real, total: real)
    ensures benchmark == SumBy(sleeves, BenchmarkPart)
    ensures |effects| == |sleeves| && forall i :: 0 <= i < |sleeves| ==> effects[i] == Effect(sleeves[i], benchmark)
    ensures total == SumBy(sleeves, EffectOf(benchmark))
  {
    benchmark := 0.0;
    for i := 0 to |sleeves|
      invariant benchmark == SumBy(sleeves[..i], BenchmarkPart)
    {
      assert sleeves[..i + 1][..i] == sleeves[..i];
      benchmark := benchmark + Amount(sleeves[i].benchmarkWeight, sleeves[i].benchmarkReturn);
    }
    assert sleeves[..|sleeves|] == sleeves;
    effects, total := [], 0.0;
    for i := 0 to |sleeves|
      invariant |effects| == i && forall k :: 0 <= k < i ==> effects[k] == Effect(sleeves[k], benchmark)
      invariant total == SumBy(sleeves[..i], EffectOf(benchmark))
    {
      assert sleeves[..i + 1][..i] == sleeves[..i];
      effects := effects + [Effect(sleeves[i], benchmark)];
      total := total + effects[i];
    }
  }

  lemma {:induction false} EffectsAddUp(sleeves: seq<Sleeve>, benchmark: real)
    ensures SumBy(sleeves, EffectOf(benchmark))
         == SumBy(sleeves, PortfolioPart) - SumBy(sleeves, BenchmarkPart) - Amount(SumBy(sleeves, Tilt), benchmark)
  {
    if sleeves == [] {
      assert Amount(0.0, benchmark) == 0.0;
    } else {
      var init, s := sleeves[..|sleeves| - 1], sleeves[|sleeves| - 1];
      EffectsAddUp(init, benchmark);
      EffectSplits(s, benchmark);
      AmountAdds(SumBy(init, Tilt), Tilt(s), benchmark);
    }
  }

  /** The effects explain the whole excess return exactly when the two sets of weights add up to the same, or the
      benchmark returned nothing. */
  lemma EffectsExplainExcessExactly(sleeves: seq<Sleeve>)
    ensures var benchmark := SumBy(sleeves, BenchmarkPart);
      SumBy(sleeves, EffectOf(benchmark)) == SumBy(sleeves, PortfolioPart) - benchmark
      <==> SumBy(sleeves, Tilt) == 0.0 || benchmark == 0.0
  {
    EffectsAddUp(sleeves, SumBy(sleeves, BenchmarkPart));
    NoProduct(SumBy(sleeves, Tilt), SumBy(sleeves, BenchmarkPart));
  }

  lemma NoProduct(a: real, b: real)
    ensures Amount(a, b) == 0.0 <==> a == 0.0 || b == 0.0
  {
  }
}
