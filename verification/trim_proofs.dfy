/** Trims: overlapping breaches never oversell a holding, and each trim sells the fewest taxable dollars. */
module TrimProofs {
  import opened Wrappers
  import opened Sums
  import opened Ordering
  import opened TaxLots
  import opened Books
  import opened LotWrites
  import opened Broker
  import opened PlanExecution
  import opened Portfolio
  import opened Rebalance

  // --- One allotment -------------------------------------------------------------------

  const AmountOf: Allotment -> real := (t: Allotment) => t.amount
  const TaxableOf: Allotment -> real := (t: Allotment) => if t.holding.taxable then t.amount else 0.0

  function SellableIn(planned: Planned): Holding -> real
  {
    (h: Holding) => Max(0.0, Sellable(planned, h))
  }

  /** Each target is one of the holdings, for a positive amount it still has to sell. */
  lemma {:induction false} AllotTargetsAreSellable(ordered: seq<Holding>, remaining: real, planned: Planned)
    ensures forall t :: t in Allot(ordered, remaining, planned) ==>
              t.holding in ordered && 0.0 < t.amount <= Sellable(planned, t.holding)
  {
    if ordered != [] && remaining > 0.0 {
      var sellable := Sellable(planned, ordered[0]);
      if sellable <= 0.0 {
        AllotTargetsAreSellable(ordered[1..], remaining, planned);
      } else {
        AllotTargetsAreSellable(ordered[1..], remaining - Min(remaining, sellable), planned);
      }
    }
  }

  /** The targets cover the excess in full, or else everything there is to sell. */
  lemma {:induction false} AllotCovers(ordered: seq<Holding>, remaining: real, planned: Planned)
    ensures SumBy(Allot(ordered, remaining, planned), AmountOf)
         == Min(Max(0.0, remaining), SumBy(ordered, SellableIn(planned)))
    ensures 0.0 <= SumBy(ordered, SellableIn(planned))
  {
    SumByNonnegative(ordered, SellableIn(planned));
    if ordered != [] {
      SumByHead(ordered, SellableIn(planned));
      SumByNonnegative(ordered[1..], SellableIn(planned));
      if remaining > 0.0 {
        var sellable := Sellable(planned, ordered[0]);
        if sellable <= 0.0 {
          AllotCovers(ordered[1..], remaining, planned);
        } else {
          var amount := Min(remaining, sellable);
          AllotCovers(ordered[1..], remaining - amount, planned);
          var rest := Allot(ordered[1..], remaining - amount, planned);
          SumByHead([Allotment(ordered[0], amount)] + rest, AmountOf);
          assert ([Allotment(ordered[0], amount)] + rest)[1..] == rest;
        }
      }
    }
  }

  predicate ShelteredFirst(ordered: seq<Holding>)
  {
    forall i, j :: 0 <= i < j < |ordered| && ordered[i].taxable ==> ordered[j].taxable
  }

  function TaxablePart(split: Holding -> real): Holding -> real
  {
    (h: Holding) => if h.taxable then split(h) else 0.0
  }

  predicate Splits(ordered: seq<Holding>, planned: Planned, split: Holding -> real)
  {
    forall h :: h in ordered ==> 0.0 <= split(h) <= Max(0.0, Sellable(planned, h))
  }

  lemma AllotHead(ordered: seq<Holding>, remaining: real, planned: Planned)
    requires ordered != []
    ensures var taken := if remaining <= 0.0 then 0.0 else Min(remaining, Max(0.0, Sellable(planned, ordered[0])));
            var targets := Allot(ordered, remaining, planned);
            var rest := Allot(ordered[1..], remaining - taken, planned);
      && SumBy(targets, AmountOf) == taken + SumBy(rest, AmountOf)
      && SumBy(targets, TaxableOf) == (if ordered[0].taxable then taken else 0.0) + SumBy(rest, TaxableOf)
      && (taken < Max(0.0, Sellable(planned, ordered[0])) ==> rest == [])
  {
    if remaining > 0.0 && Sellable(planned, ordered[0]) > 0.0 {
      var amount := Min(remaining, Sellable(planned, ordered[0]));
      var rest := Allot(ordered[1..], remaining - amount, planned);
      var targets := [Allotment(ordered[0], amount)] + rest;
      assert targets[1..] == rest;
      SumByHead(targets, AmountOf);
      SumByHead(targets, TaxableOf);
    }
  }

  /** Any other split selling at least as many dollars sells at least as many taxable ones. */
  lemma {:induction false} ShelteredFirstIsBest(ordered: seq<Holding>, remaining: real, planned: Planned, split: Holding -> real)
    requires ShelteredFirst(ordered) && Splits(ordered, planned, split)
    requires SumBy(ordered, split) >= SumBy(Allot(ordered, remaining, planned), AmountOf)
    ensures SumBy(Allot(ordered, remaining, planned), TaxableOf) <= SumBy(ordered, TaxablePart(split))
  {
    if ordered != [] {
      var h, rest := ordered[0], ordered[1..];
      var taken := if remaining <= 0.0 then 0.0 else Min(remaining, Max(0.0, Sellable(planned, h)));
      AllotHead(ordered, remaining, planned);
      SumByHead(ordered, split);
      SumByHead(ordered, TaxablePart(split));
      assert h in ordered;
      forall g | g in rest ensures g in ordered {
      }
      SumByNonnegative(rest, split);
      SumByNonnegative(rest, TaxablePart(split));
      if h.taxable {
        AllTaxable(ordered, Allot(ordered, remaining, planned), split, remaining, planned);
      } else if split(h) <= taken {
        ShelteredFirstIsBest(rest, remaining - taken, planned, split);
      }
    }
  }

  lemma AllTaxable(ordered: seq<Holding>, targets: seq<Allotment>, split: Holding -> real, remaining: real, planned: Planned)
    requires ordered != [] && ordered[0].taxable && ShelteredFirst(ordered)
    requires targets == Allot(ordered, remaining, planned)
    ensures SumBy(targets, TaxableOf) == SumBy(targets, AmountOf)
    ensures SumBy(ordered, TaxablePart(split)) == SumBy(ordered, split)
  {
    AllotTargetsAreSellable(ordered, remaining, planned);
    forall h | h in ordered ensures h.taxable {
      var i :| 0 <= i < |ordered| && ordered[i] == h;
    }
    SumByEqual(targets, TaxableOf, AmountOf);
    SumByEqual(ordered, TaxablePart(split), split);
  }

  lemma {:induction false} HoldingsForMembers(hs: seq<Holding>, b: Breach)
    ensures forall h :: h in HoldingsFor(hs, b) <==> h in hs && Covers(b, h)
  {
    if hs != [] {
      HoldingsForMembers(hs[..|hs| - 1], b);
      assert hs == hs[..|hs| - 1] + [hs[|hs| - 1]];
    }
  }

  /** Each trim covers the excess or all there is to sell, from holdings the breach is measured over,
      never beyond what each has left, and with the fewest taxable dollars of any split. */
  lemma TrimIsLeastTaxable(v: View, b: Breach, excess: real, planned: Planned, split: Holding -> real)
    requires Splits(HoldingsFor(v.holdings, b), planned, split)
    requires SumBy(HoldingsFor(v.holdings, b), split) == SumBy(TrimTargets(v, b, excess, planned), AmountOf)
    ensures var targets := TrimTargets(v, b, excess, planned);
      && SumBy(targets, AmountOf) == Min(Max(0.0, excess), SumBy(HoldingsFor(v.holdings, b), SellableIn(planned)))
      && SumBy(targets, TaxableOf) <= SumBy(HoldingsFor(v.holdings, b), TaxablePart(split))
      && forall t :: t in targets ==> t.holding in v.holdings && Covers(b, t.holding) && 0.0 < t.amount <= Sellable(planned, t.holding)
  {
    var hs := HoldingsFor(v.holdings, b);
    var ordered := StableSort(hs, TrimOrder);
    HoldingsForMembers(v.holdings, b);
    StableSortSpec(hs, TrimOrder);
    StableSortSum(hs, TrimOrder, SellableIn(planned));
    StableSortSum(hs, TrimOrder, split);
    StableSortSum(hs, TrimOrder, TaxablePart(split));
    AllotCovers(ordered, excess, planned);
    AllotTargetsAreSellable(ordered, excess, planned);
    forall i, j | 0 <= i < j < |ordered| && ordered[i].taxable ensures ordered[j].taxable {
      assert Leq(TrimOrder(ordered[i]), TrimOrder(ordered[j]));
    }
    ShelteredFirstIsBest(ordered, excess, planned, split);
  }

  /** Within a tax group the order is by largest unrealized gain first. */
  lemma LargestGainIsTrimmedFirst(v: View, b: Breach, i: nat, j: nat)
    requires var ordered := StableSort(HoldingsFor(v.holdings, b), TrimOrder);
      i < j < |ordered| && ordered[i].taxable == ordered[j].taxable
    ensures var ordered := StableSort(HoldingsFor(v.holdings, b), TrimOrder);
      ordered[i].marketValue - ordered[i].costBasis >= ordered[j].marketValue - ordered[j].costBasis
  {
    var ordered := StableSort(HoldingsFor(v.holdings, b), TrimOrder);
    StableSortSpec(HoldingsFor(v.holdings, b), TrimOrder);
    assert Leq(TrimOrder(ordered[i]), TrimOrder(ordered[j]));
  }

  // --- All breaches together -------------------------------------------------------------

  /** Whole shares round down: what is traded never costs more than the dollars it was sized for. */
  lemma WholeSharesRoundDown(notional: real, price: real)
    requires RoundQuantity(false, notional, price).Some?
    ensures var quantity := RoundQuantity(false, notional, price).value;
      && IsWhole(quantity) && quantity >= 1.0 && price > 0.0
      && 0.0 < Amount(quantity, price) <= notional
  {
    var raw := notional / price;
    var quantity := raw.Floor as real;
    assert raw * price == notional;
    assert (raw - quantity) * price >= 0.0;
  }

  /** Fractional shares round to nearest, so they stay within the dollars exactly when the part of a
      millionth left over is less than half. */
  lemma FractionsRoundToNearest(notional: real, price: real)
    requires RoundQuantity(true, notional, price).Some?
    ensures var units := notional / price * 1000000.0;
      Amount(RoundQuantity(true, notional, price).value, price) <= notional <==> units - units.Floor as real < 0.5
  {
    var raw := notional / price;
    RoundingUp(raw * 1000000.0);
    LessForLess(Millionths(raw), raw, price);
    assert raw * price == notional;
  }

  lemma RoundingUp(units: real)
    ensures (units + 0.5).Floor as real <= units <==> units - units.Floor as real < 0.5
  {
    var below := units.Floor;
    if units - below as real < 0.5 {
      assert (units + 0.5).Floor == below;
    } else {
      assert (units + 0.5).Floor == below + 1;
    }
  }

  lemma LessForLess(a: real, b: real, price: real)
    requires price > 0.0
    ensures a <= b <==> Amount(a, price) <= b * price
  {
    if a <= b {
      assert (b - a) * price >= 0.0;
    } else {
      assert (a - b) * price > 0.0;
    }
  }

  /** The family above is not empty: two-thirds of a millionth rounds up. */
  lemma FractionsCanExceed()
    ensures RoundQuantity(true, 0.000002, 3.0).Some?
    ensures Amount(RoundQuantity(true, 0.000002, 3.0).value, 3.0) > 0.000002
  {
    FractionsRoundToNearest(0.000002, 3.0);
  }

  const HALF_MILLIONTH: real := 0.0000005

  /** How far rounding can take a trade past the dollars it was sized for: half a millionth of a share, and nothing at all
      in whole shares. */
  function Slack(cfg: Settings, price: real): real
  {
    if cfg.fractional then Amount(HALF_MILLIONTH, price) else 0.0
  }

  /** What is traded is worth no more than the dollars it was sized for, and the slack; whole shares come down to whole
      shares. */
  lemma RoundingStaysNear(cfg: Settings, notional: real, price: real)
    requires RoundQuantity(cfg.fractional, notional, price).Some?
    ensures var quantity := RoundQuantity(cfg.fractional, notional, price).value;
      && price > 0.0 && notional > 0.0 && quantity >= 0.0 && 0.0 <= Slack(cfg, price)
      && (quantity > 0.0 ==> Amount(quantity, price) > 0.0)
      && Amount(quantity, price) <= notional + Slack(cfg, price)
      && (!cfg.fractional ==> IsWhole(quantity) && quantity >= 1.0)
  {
    var raw := notional / price;
    assert raw * price == notional;
    if cfg.fractional {
      assert Millionths(raw) <= raw + HALF_MILLIONTH;
      assert (raw + HALF_MILLIONTH - Millionths(raw)) * price >= 0.0;
      assert raw > 0.0 && notional > 0.0;
    } else {
      WholeSharesRoundDown(notional, price);
    }
  }

  predicate SameHoldingKey(h: Holding, g: Holding)
  {
    h.account == g.account && h.symbol == g.symbol
  }

  predicate DistinctTargets(ts: seq<Allotment>)
  {
    forall i, j :: 0 <= i < j < |ts| ==> !SameHoldingKey(ts[i].holding, ts[j].holding)
  }

  lemma {:induction false} HoldingsForDistinct(hs: seq<Holding>, b: Breach)
    requires Distinct(hs)
    ensures Distinct(HoldingsFor(hs, b))
  {
    if hs != [] {
      HoldingsForDistinct(hs[..|hs| - 1], b);
      HoldingsForMembers(hs[..|hs| - 1], b);
    }
  }

  /** Targets are separate holdings when the holdings are. */
  lemma {:induction false} AllotIsDistinct(ordered: seq<Holding>, remaining: real, planned: Planned)
    requires forall i, j :: 0 <= i < j < |ordered| ==> !SameHoldingKey(ordered[i], ordered[j])
    ensures DistinctTargets(Allot(ordered, remaining, planned))
  {
    if ordered != [] && remaining > 0.0 {
      var rest := ordered[1..];
      var sellable := Sellable(planned, ordered[0]);
      var left := if sellable <= 0.0 then remaining else remaining - Min(remaining, sellable);
      AllotIsDistinct(rest, left, planned);
      if sellable > 0.0 {
        AllotTargetsAreSellable(rest, left, planned);
        var first, others := Allotment(ordered[0], Min(remaining, sellable)), Allot(rest, left, planned);
        var all := [first] + others;
        forall j | 0 < j < |all| ensures !SameHoldingKey(first.holding, all[j].holding) {
          assert all[j] == others[j - 1] && others[j - 1] in others;
          var k :| 0 <= k < |rest| && rest[k] == all[j].holding;
          assert ordered[k + 1] == rest[k];
        }
        forall i, j | 0 <= i < j < |all| ensures !SameHoldingKey(all[i].holding, all[j].holding) {
          if i > 0 {
            assert all[i] == others[i - 1] && all[j] == others[j - 1];
          }
        }
      }
    }
  }

  lemma KeyNamesHolding(hs: seq<Holding>, g: Holding, h: Holding)
    requires DistinctHoldings(hs) && g in hs && h in hs && SameHoldingKey(g, h)
    ensures g == h
  {
    var i :| 0 <= i < |hs| && hs[i] == g;
    var j :| 0 <= j < |hs| && hs[j] == h;
    assert i == j;
  }

  lemma TargetsAreSeparateHoldings(v: View, b: Breach, excess: real, planned: Planned)
    requires DistinctHoldings(v.holdings)
    ensures var ts := TrimTargets(v, b, excess, planned);
      && DistinctTargets(ts)
      && forall t :: t in ts ==> t.holding in v.holdings && t.amount <= Sellable(planned, t.holding)
  {
    var hs := v.holdings;
    var ordered := StableSort(HoldingsFor(hs, b), TrimOrder);
    HoldingsForDistinct(hs, b);
    HoldingsForMembers(hs, b);
    SortDistinct(HoldingsFor(hs, b), TrimOrder);
    StableSortSpec(HoldingsFor(hs, b), TrimOrder);
    forall i, j | 0 <= i < j < |ordered| ensures !SameHoldingKey(ordered[i], ordered[j]) {
      assert ordered[i] in ordered && ordered[j] in ordered;
      if SameHoldingKey(ordered[i], ordered[j]) {
        KeyNamesHolding(hs, ordered[i], ordered[j]);
      }
    }
    AllotIsDistinct(ordered, excess, planned);
    AllotTargetsAreSellable(ordered, excess, planned);
  }

  /** Dollars of one holding sold by a proposal. */
  function SoldOf(h: Holding): Proposal -> real
  {
    (p: Proposal) => if p.account == h.account && p.symbol == h.symbol then p.notional else 0.0
  }

  /** What is planned for a holding is what the proposals sell of it, and no more than it is worth but for the slack of
      one sale, however many there are. */
  predicate WithinHolding(cfg: Settings, st: Trims, h: Holding)
  {
    && PlannedFor(st.planned, h) == SumBy(st.proposals, SoldOf(h))
    && 0.0 <= PlannedFor(st.planned, h) <= Max(0.0, h.marketValue) + Max(0.0, Slack(cfg, h.price))
  }

  /** A target leads to one more sale, or to none. */
  lemma TrimOneIs(inp: Inputs, st: Trims, t: Allotment)
    ensures var after := TrimOne(inp, st, t);
            var q := RoundQuantity(inp.cfg.fractional, t.amount, t.holding.price);
      || (after.proposals == st.proposals && after.planned == st.planned)
      || (q.Some? && 0.0 < t.amount && 0.0 < Amount(q.value, t.holding.price) <= t.amount + Slack(inp.cfg, t.holding.price)
          && SoldMore(st, after, t.holding, SellProposal(inp, t.holding, q.value)))
  {
    var q := RoundQuantity(inp.cfg.fractional, t.amount, t.holding.price);
    if q.Some? {
      RoundingStaysNear(inp.cfg, t.amount, t.holding.price);
    }
  }

  predicate SoldMore(st: Trims, after: Trims, h: Holding, p: Proposal)
  {
    && after.proposals == st.proposals + [p]
    && after.planned == st.planned[(h.account, h.symbol) := PlannedFor(st.planned, h) + p.notional]
  }

  lemma SoldMoreKeeps(cfg: Settings, st: Trims, after: Trims, g: Holding, p: Proposal, h: Holding)
    requires WithinHolding(cfg, st, h) && SoldMore(st, after, g, p)
    requires p.account == g.account && p.symbol == g.symbol && 0.0 < p.notional
    requires SameHoldingKey(g, h) ==> g == h && 0.0 < Sellable(st.planned, h) && p.notional <= Sellable(st.planned, h) + Slack(cfg, h.price)
    ensures WithinHolding(cfg, after, h)
    ensures !SameHoldingKey(g, h) ==> PlannedFor(after.planned, h) == PlannedFor(st.planned, h)
  {
    SumByAppend(st.proposals, p, SoldOf(h));
  }

  lemma TrimOneKeeps(inp: Inputs, st: Trims, t: Allotment, h: Holding)
    requires WithinHolding(inp.cfg, st, h)
    requires SameHoldingKey(t.holding, h) ==> t.holding == h && t.amount <= Sellable(st.planned, h)
    ensures WithinHolding(inp.cfg, TrimOne(inp, st, t), h)
    ensures !SameHoldingKey(t.holding, h) ==> PlannedFor(TrimOne(inp, st, t).planned, h) == PlannedFor(st.planned, h)
  {
    var after := TrimOne(inp, st, t);
    TrimOneIs(inp, st, t);
    if after.proposals != st.proposals || after.planned != st.planned {
      var q := RoundQuantity(inp.cfg.fractional, t.amount, t.holding.price).value;
      SoldMoreKeeps(inp.cfg, st, after, t.holding, SellProposal(inp, t.holding, q), h);
    }
  }

  lemma {:induction false} TrimEachKeeps(inp: Inputs, st: Trims, ts: seq<Allotment>, h: Holding)
    requires WithinHolding(inp.cfg, st, h) && DistinctTargets(ts)
    requires forall t :: t in ts && SameHoldingKey(t.holding, h) ==> t.holding == h && t.amount <= Sellable(st.planned, h)
    ensures WithinHolding(inp.cfg, TrimEach(inp, st, ts), h)
    ensures (forall t :: t in ts ==> !SameHoldingKey(t.holding, h))
            ==> PlannedFor(TrimEach(inp, st, ts).planned, h) == PlannedFor(st.planned, h)
  {
    if ts != [] {
      var init, last := ts[..|ts| - 1], ts[|ts| - 1];
      assert last in ts;
      TrimEachKeeps(inp, st, init, h);
      if SameHoldingKey(last.holding, h) {
        forall t | t in init ensures !SameHoldingKey(t.holding, h) {
          var i :| 0 <= i < |init| && init[i] == t;
          assert !SameHoldingKey(ts[i].holding, last.holding);
        }
      }
      TrimOneKeeps(inp, TrimEach(inp, st, init), last, h);
    }
  }

  lemma TrimBreachKeeps(inp: Inputs, st: Trims, b: Breach, h: Holding)
    requires DistinctHoldings(inp.view.holdings) && h in inp.view.holdings && WithinHolding(inp.cfg, st, h)
    ensures WithinHolding(inp.cfg, TrimBreach(inp, st, b), h)
  {
    var excess := Uncovered(inp.view, b, st.planned);
    var ts := TrimTargets(inp.view, b, excess, st.planned);
    TargetsAreSeparateHoldings(inp.view, b, excess, st.planned);
    forall t | t in ts && SameHoldingKey(t.holding, h) ensures t.holding == h && t.amount <= Sellable(st.planned, h) {
      KeyNamesHolding(inp.view.holdings, t.holding, h);
    }
    TrimEachKeeps(inp, st, ts, h);
  }

  /** However breaches overlap, the dollars planned for a holding are exactly what its proposals sell, and never exceed what
      it is worth; in fractional shares, by no more than half a millionth of a share. */
  lemma {:induction false} TrimsNeverOversell(inp: Inputs, bs: seq<Breach>, h: Holding)
    requires DistinctHoldings(inp.view.holdings) && h in inp.view.holdings
    ensures WithinHolding(inp.cfg, TrimAll(inp, bs), h)
  {
    if bs != [] {
      TrimsNeverOversell(inp, bs[..|bs| - 1], h);
      TrimBreachKeeps(inp, TrimAll(inp, bs[..|bs| - 1]), bs[|bs| - 1], h);
    }
  }

  /** A trim: a sale of a holding the client has, at its price, in an active account, and of whole shares where required. */
  predicate TrimOf(inp: Inputs, p: Proposal, h: Holding)
  {
    && h in inp.view.holdings && p.side == Sell
    && p.account == h.account && p.symbol == h.symbol && HasPurse(inp.view, p.account)
    && p.quantity > 0.0 && (!inp.cfg.fractional ==> IsWhole(p.quantity) && p.quantity >= 1.0)
    && h.price > 0.0 && p.notional == Amount(p.quantity, h.price)
  }

  ghost predicate AllTrims(inp: Inputs, ps: seq<Proposal>)
  {
    forall p :: p in ps ==> exists h :: TrimOf(inp, p, h)
  }

  lemma {:induction false} TrimEachProposals(inp: Inputs, st: Trims, ts: seq<Allotment>)
    requires AllTrims(inp, st.proposals)
    requires forall t :: t in ts ==> t.holding in inp.view.holdings
    ensures AllTrims(inp, TrimEach(inp, st, ts).proposals)
  {
    if ts != [] {
      var init, t := ts[..|ts| - 1], ts[|ts| - 1];
      assert t in ts;
      TrimEachProposals(inp, st, init);
      var quantity := RoundQuantity(inp.cfg.fractional, t.amount, t.holding.price);
      if quantity.Some? && quantity.value > 0.0 {
        RoundingStaysNear(inp.cfg, t.amount, t.holding.price);
        if HasPurse(inp.view, t.holding.account) {
          assert TrimOf(inp, SellProposal(inp, t.holding, quantity.value), t.holding);
        }
      }
    }
  }

  lemma {:induction false} TrimAllProposals(inp: Inputs, bs: seq<Breach>)
    requires DistinctHoldings(inp.view.holdings)
    ensures AllTrims(inp, TrimAll(inp, bs).proposals)
  {
    if bs != [] {
      var st, b := TrimAll(inp, bs[..|bs| - 1]), bs[|bs| - 1];
      TrimAllProposals(inp, bs[..|bs| - 1]);
      var excess := Uncovered(inp.view, b, st.planned);
      TargetsAreSeparateHoldings(inp.view, b, excess, st.planned);
      TrimEachProposals(inp, st, TrimTargets(inp.view, b, excess, st.planned));
    }
  }
}
