/** Asset classes: sales move dollars between classes without losing any, and purchases never lift a class
    above its target. */
module ClassTargets {
  import opened Wrappers
  import opened Sums
  import opened Ordering
  import opened TaxLots
  import opened Books
  import opened LotWrites
  import opened PlanExecution
  import opened Portfolio
  import opened Rebalance
  import opened TrimProofs
  import opened BuyProofs

  // --- Projected values add up ---------------------------------------------------------------

  function ProjectedIn(v: View, planned: Planned): string -> real
  {
    (c: string) => ProjectedValue(v, planned, c)
  }

  function LeftAs(hs: seq<Holding>, planned: Planned): string -> real
  {
    (c: string) => SumBy(hs, LeftIn(planned, c))
  }

  /** What is left of each holding, class by class, is what is left of all of them. */
  lemma {:induction false} LeftByClass(hs: seq<Holding>, planned: Planned, classes: seq<string>)
    requires Distinct(classes) && forall h :: h in hs ==> h.assetClass in classes
    ensures SumBy(classes, LeftAs(hs, planned)) == SumBy(hs, (h: Holding) => Left(planned, h))
  {
    if hs == [] {
      SumByZero(classes, LeftAs(hs, planned));
    } else {
      var init, h := hs[..|hs| - 1], hs[|hs| - 1];
      assert h in hs;
      LeftByClass(init, planned, classes);
      CountedOnce(classes, h.assetClass, Left(planned, h));
      SumByAdds(classes, LeftAs(hs, planned), LeftAs(init, planned), OnlyFor(h.assetClass, Left(planned, h)));
    }
  }

  /** A sale frees into cash what it takes from its class: the classes still add up to the portfolio. */
  lemma ProjectionKeepsTotal(v: View, planned: Planned, classes: seq<string>)
    requires Distinct(classes) && CASH_CLASS in classes && forall h :: h in v.holdings ==> h.assetClass in classes
    ensures SumBy(classes, ProjectedIn(v, planned)) == TotalValue(v)
  {
    var cash := Cash(v) + SumBy(v.holdings, Freed(planned));
    LeftByClass(v.holdings, planned, classes);
    CountedOnce(classes, CASH_CLASS, cash);
    SumByAdds(classes, ProjectedIn(v, planned), LeftAs(v.holdings, planned), OnlyFor(CASH_CLASS, cash));
    SumByDifference(v.holdings, Freed(planned), MarketValue, (h: Holding) => Left(planned, h));
  }

  // --- Purchases by class ------------------------------------------------------------------------

  function BoughtInClass(classOf: string -> string, assetClass: string): Proposal -> real
  {
    (p: Proposal) => if classOf(p.symbol) == assetClass then p.notional else 0.0
  }

  /** Every instrument offered for a class belongs to it, so no ticker is offered for two. */
  ghost predicate Classified(inp: Inputs, classOf: string -> string)
  {
    forall c, p :: p in PicksFor(inp, c) ==> classOf(p.ticker) == c
  }

  /** What one purchase may come to: its share and the slack of rounding, if there is any share. */
  function Rounded(share: real, slack: real): real
  {
    if share > 0.0 then share + slack else 0.0
  }

  lemma BuyOneWithinShare(inp: Inputs, planned: Planned, st: Buys, pick: Pick, share: real, classOf: string -> string, c: string, most: real)
    requires PricedAtMost(inp, most) && Offered(inp, pick)
    ensures var before, after := SumBy(st.proposals, BoughtInClass(classOf, c)),
                                 SumBy(BuyOne(inp, planned, st, pick, share).proposals, BoughtInClass(classOf, c));
      before <= after <= before + if classOf(pick.ticker) == c then Max(0.0, Rounded(share, Slack(inp.cfg, most))) else 0.0
  {
    BuyOneIs(inp, planned, st, pick, share);
    var p := PurchaseFor(inp, planned, st, pick, share);
    if p.Some? {
      PurchaseFits(inp, planned, st, pick, share);
      SlackAtMost(inp, most, pick);
      SumByAppend(st.proposals, p.value, BoughtInClass(classOf, c));
    }
  }

  /** `n` purchases, or nothing for a class that is not the one being filled. */
  function SharesFor(n: nat, each: real, filled: bool): real
  {
    if filled then Amount(n as real, Max(0.0, each)) else 0.0
  }

  lemma OneMoreShare(n: nat, each: real, filled: bool)
    ensures SharesFor(n + 1, each, filled) == SharesFor(n, each, filled) + if filled then Max(0.0, each) else 0.0
  {
    AmountAdds(n as real, 1.0, Max(0.0, each));
  }

  lemma {:induction false} BuyEachWithinShare(inp: Inputs, planned: Planned, st: Buys, picks: seq<Pick>, share: real,
                                              classOf: string -> string, assetClass: string, c: string, most: real)
    requires PricedAtMost(inp, most) && forall p :: p in picks ==> classOf(p.ticker) == assetClass && Offered(inp, p)
    ensures var before, after := SumBy(st.proposals, BoughtInClass(classOf, c)),
                                 SumBy(BuyEach(inp, planned, st, picks, share).proposals, BoughtInClass(classOf, c));
      before <= after <= before + SharesFor(|picks|, Rounded(share, Slack(inp.cfg, most)), assetClass == c)
  {
    if picks != [] {
      var n := |picks| - 1;
      assert picks[n] in picks;
      BuyEachWithinShare(inp, planned, st, picks[..n], share, classOf, assetClass, c, most);
      BuyOneWithinShare(inp, planned, BuyEach(inp, planned, st, picks[..n], share), picks[n], share, classOf, c, most);
      OneMoreShare(n, Rounded(share, Slack(inp.cfg, most)), assetClass == c);
    }
  }

  /** Dollars an underweight class is short of its target, and the slack of the three purchases it can lead to. */
  function GapIn(assetClass: string, slack: real): Underweight -> real
  {
    (d: Underweight) => if d.assetClass == assetClass && d.gap > 0.0 then d.gap + 3.0 * Max(0.0, slack) else 0.0
  }

  lemma SharesAddUp(allocation: real, n: nat, slack: real)
    requires 0 < n <= 3
    ensures SharesFor(n, Rounded(allocation / n as real, slack), true)
         <= if allocation > 0.0 then allocation + 3.0 * Max(0.0, slack) else 0.0
  {
    var share := allocation / n as real;
    assert share * n as real == allocation;
    assert share <= 0.0 ==> share * n as real <= 0.0;
    assert share > 0.0 ==> share * n as real > 0.0;
    assert Amount(n as real, share + Max(0.0, slack)) == allocation + n as real * Max(0.0, slack);
    assert (3.0 - n as real) * Max(0.0, slack) >= 0.0;
    assert n as real * (share + Max(0.0, slack) - Max(0.0, share + slack)) >= 0.0 || share <= 0.0;
  }

  lemma BuyClassWithinGap(inp: Inputs, trims: Trims, st: Buys, d: Underweight, classOf: string -> string, c: string, most: real)
    requires PricedAtMost(inp, most) && Classified(inp, classOf)
    ensures var before, after := SumBy(st.proposals, BoughtInClass(classOf, c)),
                                 SumBy(BuyClass(inp, trims, st, d).0.proposals, BoughtInClass(classOf, c));
      before <= after <= before + GapIn(c, Slack(inp.cfg, most))(d)
  {
    var allocation := Min(d.gap, st.remaining);
    var picks := PicksFor(inp, d.assetClass);
    if allocation >= inp.policy.minNotional && picks != [] {
      var chosen := Chosen(inp, picks, allocation);
      PicksAreOffered(inp, d.assetClass);
      SharesAddUp(allocation, |chosen|, Slack(inp.cfg, most));
      BuyEachWithinShare(inp, trims.planned, st, chosen, allocation / |chosen| as real, classOf, d.assetClass, c, most);
    }
  }

  lemma {:induction false} BuyClassesWithinGaps(inp: Inputs, trims: Trims, st: Buys, ds: seq<Underweight>,
                                                classOf: string -> string, c: string, most: real)
    requires PricedAtMost(inp, most) && Classified(inp, classOf)
    ensures var before, after := SumBy(st.proposals, BoughtInClass(classOf, c)),
                                 SumBy(BuyClasses(inp, trims, st, ds).proposals, BoughtInClass(classOf, c));
      before <= after <= before + SumBy(ds, GapIn(c, Slack(inp.cfg, most)))
    decreases |ds|
  {
    SumByNonnegative(ds, GapIn(c, Slack(inp.cfg, most)));
    if ds != [] && st.remaining >= inp.policy.minNotional {
      var (after, goOn) := BuyClass(inp, trims, st, ds[0]);
      BuyClassWithinGap(inp, trims, st, ds[0], classOf, c, most);
      SumByHead(ds, GapIn(c, Slack(inp.cfg, most)));
      SumByNonnegative(ds[1..], GapIn(c, Slack(inp.cfg, most)));
      if goOn {
        BuyClassesWithinGaps(inp, trims, after, ds[1..], classOf, c, most);
      }
    }
  }

  // --- The gaps filled are each class's own, once ------------------------------------------------

  function FilledTo(gap: real, slack: real): real
  {
    if gap > 0.0 then gap + 3.0 * Max(0.0, slack) else 0.0
  }

  lemma {:induction false} DriftsCountOnce(v: View, p: Policy, planned: Planned, classes: seq<string>, c: string, slack: real)
    requires TotalValue(v) > 0.0 && Distinct(classes)
    ensures SumBy(Drifts(v, p, planned, classes), GapIn(c, slack)) == if c in classes then FilledTo(Gap(v, p, planned, c), slack) else 0.0
  {
    if classes != [] {
      var init, last := classes[..|classes| - 1], classes[|classes| - 1];
      assert classes == init + [last];
      DriftsCountOnce(v, p, planned, init, c, slack);
      SumByAppend(Drifts(v, p, planned, init), DriftOf(v, p, planned, last), GapIn(c, slack));
    }
  }

  lemma {:induction false} FilterAddsNothing(ds: seq<Underweight>, breachedOnly: bool, c: string, slack: real)
    ensures 0.0 <= SumBy(Underweights(ds, breachedOnly), GapIn(c, slack)) <= SumBy(ds, GapIn(c, slack))
  {
    if ds != [] {
      var d := ds[|ds| - 1];
      FilterAddsNothing(ds[..|ds| - 1], breachedOnly, c, slack);
      if d.gap > 0.0 && (d.breached || !breachedOnly) {
        SumByAppend(Underweights(ds[..|ds| - 1], breachedOnly), d, GapIn(c, slack));
      } else {
        assert Underweights(ds, breachedOnly) == Underweights(ds[..|ds| - 1], breachedOnly);
      }
    }
  }

  lemma ToFillAddsNothing(ds: seq<Underweight>, c: string, slack: real)
    ensures SumBy(ToFill(ds), GapIn(c, slack)) <= SumBy(ds, GapIn(c, slack))
  {
    FilterAddsNothing(ds, true, c, slack);
    FilterAddsNothing(ds, false, c, slack);
    var all := Underweights(ds, false);
    if |all| > 4 {
      assert all == all[..4] + all[4..];
      SumByConcat(all[..4], all[4..], GapIn(c, slack));
      SumByNonnegative(all[4..], GapIn(c, slack));
    }
  }

  lemma GapsFilledAreItsOwn(inp: Inputs, planned: Planned, c: string, slack: real)
    requires TotalValue(inp.view) > 0.0 && Distinct(inp.classes)
    ensures SumBy(ToFill(ProjectedDrift(inp, planned)), GapIn(c, slack)) <= FilledTo(Gap(inp.view, inp.policy, planned, c), slack)
  {
    var drifts := Drifts(inp.view, inp.policy, planned, inp.classes);
    ToFillAddsNothing(ProjectedDrift(inp, planned), c, slack);
    StableSortSum(drifts, WidestFirst, GapIn(c, slack));
    DriftsCountOnce(inp.view, inp.policy, planned, inp.classes, c, slack);
  }

  lemma GapReachesTarget(v: View, p: Policy, planned: Planned, c: string)
    requires TotalValue(v) > 0.0
    ensures ProjectedValue(v, planned, c) + Gap(v, p, planned, c) == Amount(TargetFor(p, c), TotalValue(v))
  {
    var weight := ProjectedValue(v, planned, c) / TotalValue(v);
    assert weight * TotalValue(v) == ProjectedValue(v, planned, c);
    AmountAdds(TargetFor(p, c), weight, TotalValue(v));
  }

  /** A class that is bought into ends, with what the trims leave of it, no higher than its target; in fractional shares, but
      for the slack of the three purchases a class can lead to. */
  lemma BuysNeverOvershoot(inp: Inputs, trims: Trims, classOf: string -> string, c: string, most: real)
    requires PricedAtMost(inp, most) && Classified(inp, classOf) && Distinct(inp.classes)
    ensures var bought := SumBy(BuyAll(inp, trims).proposals, BoughtInClass(classOf, c));
      && 0.0 <= bought
      && (bought > 0.0 ==>
            ProjectedValue(inp.view, trims.planned, c) + bought
            <= Amount(TargetFor(inp.policy, c), TotalValue(inp.view)) + 3.0 * Max(0.0, Slack(inp.cfg, most)))
  {
    if TotalValue(inp.view) > 0.0 {
      BuyClassesWithinGaps(inp, trims, Opening(inp, trims), ToFill(ProjectedDrift(inp, trims.planned)), classOf, c, most);
      GapsFilledAreItsOwn(inp, trims.planned, c, Slack(inp.cfg, most));
      GapReachesTarget(inp.view, inp.policy, trims.planned, c);
    }
  }
}
