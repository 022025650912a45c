/** Merging and sequencing a plan: every dollar and tax estimate is kept per trade, costs only fall,
    and sells are numbered before buys. */
module MergeProofs {
  import opened Wrappers
  import opened Sums
  import opened Ordering
  import opened TaxLots
  import opened Books
  import opened LotWrites
  import opened Broker
  import opened PlanExecution
  import opened Rebalance

  predicate OncePerTrade(ps: seq<Proposal>)
  {
    forall i, j :: 0 <= i < j < |ps| ==> !SameTrade(ps[i], ps[j])
  }

  /** A column that combining two proposals for the same trade adds up. */
  ghost predicate Additive(f: Proposal -> real)
  {
    forall p, q :: SameTrade(p, q) ==> f(Combine(p, q)) == f(p) + f(q)
  }

  lemma {:induction false} MergedOnce(ps: seq<Proposal>)
    ensures OncePerTrade(Merge(ps))
  {
    if ps != [] {
      MergedOnce(ps[..|ps| - 1]);
    }
  }

  /** Merging keeps every additive column's total: dollars and tax, overall and for each trade. */
  lemma {:induction false} MergeKeepsColumn(ps: seq<Proposal>, f: Proposal -> real)
    requires Additive(f)
    ensures SumBy(Merge(ps), f) == SumBy(ps, f)
  {
    if ps != [] {
      var before, p := Merge(ps[..|ps| - 1]), ps[|ps| - 1];
      MergeKeepsColumn(ps[..|ps| - 1], f);
      var i := FindTrade(before, p);
      if i < |before| {
        SumByUpdate(before, i, Combine(before[i], p), f);
      } else {
        SumByAppend(before, p, f);
      }
    }
  }

  function NotionalIn(trade: Proposal): Proposal -> real
  {
    (p: Proposal) => if SameTrade(p, trade) then p.notional else 0.0
  }

  function TaxIn(trade: Proposal): Proposal -> real
  {
    (p: Proposal) => if SameTrade(p, trade) then p.tax else 0.0
  }

  /** The one merged trade for an account, symbol and side carries the dollars and the tax of all its parts. */
  lemma MergeKeepsTrade(ps: seq<Proposal>, i: nat)
    requires i < |Merge(ps)|
    ensures Merge(ps)[i].notional == SumBy(ps, NotionalIn(Merge(ps)[i]))
    ensures Merge(ps)[i].tax == SumBy(ps, TaxIn(Merge(ps)[i]))
  {
    var m := Merge(ps);
    MergedOnce(ps);
    MergeKeepsColumn(ps, NotionalIn(m[i]));
    MergeKeepsColumn(ps, TaxIn(m[i]));
    OnlyTrade(m, i, NotionalIn(m[i]));
    OnlyTrade(m, i, TaxIn(m[i]));
  }

  lemma {:induction false} OnlyTrade(ps: seq<Proposal>, i: nat, f: Proposal -> real)
    requires OncePerTrade(ps) && i < |ps|
    requires forall p :: !SameTrade(p, ps[i]) ==> f(p) == 0.0
    ensures SumBy(ps, f) == f(ps[i])
    decreases |ps|
  {
    var n := |ps| - 1;
    if i == n {
      forall p | p in ps[..n] ensures f(p) == 0.0 {
        var k :| 0 <= k < n && ps[..n][k] == p;
        assert !SameTrade(ps[k], ps[n]);
      }
      SumByZero(ps[..n], f);
    } else {
      OnlyTrade(ps[..n], i, f);
      assert !SameTrade(ps[i], ps[n]);
    }
  }

  /** A property that combining keeps holds of every merged proposal. */
  lemma {:induction false} MergeKeepsProperty(ps: seq<Proposal>, good: Proposal -> bool)
    requires forall p, q :: SameTrade(p, q) && good(p) && good(q) ==> good(Combine(p, q))
    requires forall p :: p in ps ==> good(p)
    ensures forall p :: p in Merge(ps) ==> good(p)
  {
    if ps != [] {
      var before, p := Merge(ps[..|ps| - 1]), ps[|ps| - 1];
      assert p in ps;
      MergeKeepsProperty(ps[..|ps| - 1], good);
      var i := FindTrade(before, p);
      if i < |before| {
        assert before[i] in before;
      }
    }
  }

  /** A cost that combining can only lower is only lowered by merging. */
  lemma {:induction false} MergeLowersCost(ps: seq<Proposal>, f: Proposal -> real, good: Proposal -> bool)
    requires forall p, q :: SameTrade(p, q) && good(p) && good(q) ==> good(Combine(p, q)) && f(Combine(p, q)) <= f(p) + f(q)
    requires forall p :: p in ps ==> good(p)
    ensures SumBy(Merge(ps), f) <= SumBy(ps, f)
  {
    if ps != [] {
      var before, p := Merge(ps[..|ps| - 1]), ps[|ps| - 1];
      assert p in ps;
      MergeLowersCost(ps[..|ps| - 1], f, good);
      MergeKeepsProperty(ps[..|ps| - 1], good);
      var i := FindTrade(before, p);
      if i < |before| {
        assert before[i] in before;
        SumByUpdate(before, i, Combine(before[i], p), f);
      } else {
        SumByAppend(before, p, f);
      }
    }
  }

  /** Costs with a flat minimum and no proportional commission: two trades cost no less than one of both. */
  lemma OneTradeIsCheaper(cfg: Settings, x: real, y: real)
    requires cfg.commissionRate == 0.0 && 0.0 <= cfg.commissionMin && 0.0 <= cfg.slippage
    requires x > 0.0 && y > 0.0
    ensures GrossPurchaseCost(cfg, x + y) <= GrossPurchaseCost(cfg, x) + GrossPurchaseCost(cfg, y)
    ensures EstimatedCost(cfg, x + y) <= EstimatedCost(cfg, x) + EstimatedCost(cfg, y)
  {
    AmountAdds(x, y, cfg.slippage);
  }

  /** Selling together nets at least what selling apart does. */
  lemma OneSaleNetsMore(cfg: Settings, x: real, y: real)
    requires cfg.commissionRate == 0.0 && 0.0 <= cfg.commissionMin && 0.0 <= cfg.slippage < 1.0
    requires x > 0.0 && y > 0.0
    ensures NetSaleProceeds(cfg, x) + NetSaleProceeds(cfg, y) <= NetSaleProceeds(cfg, x + y)
  {
    AmountAdds(x, y, cfg.slippage);
    KeepsPart(x, cfg.slippage);
    KeepsPart(y, cfg.slippage);
  }

  lemma KeepsPart(x: real, slippage: real)
    requires x > 0.0 && 0.0 <= slippage < 1.0
    ensures 0.0 <= Amount(x, slippage) <= x
  {
    assert x - x * slippage == x * (1.0 - slippage);
  }

  const Positive: Proposal -> bool := (p: Proposal) => p.notional > 0.0

  function ForgoneBySales(cfg: Settings, account: int): Proposal -> real
  {
    (p: Proposal) => 0.0 - SaleNet(cfg, account)(p)
  }

  lemma {:induction false} Negated(ps: seq<Proposal>, f: Proposal -> real, g: Proposal -> real)
    requires forall p :: g(p) == 0.0 - f(p)
    ensures SumBy(ps, g) == 0.0 - SumBy(ps, f)
  {
    if ps != [] {
      Negated(ps[..|ps| - 1], f, g);
    }
  }

  /** Merging never raises what an account pays for its purchases nor lowers what its sales net. */
  lemma MergingOnlyHelps(cfg: Settings, ps: seq<Proposal>, account: int)
    requires cfg.commissionRate == 0.0 && 0.0 <= cfg.commissionMin && 0.0 <= cfg.slippage < 1.0
    requires forall p :: p in ps ==> p.notional > 0.0
    ensures SumBy(Merge(ps), BuyCost(cfg, account)) <= SumBy(ps, BuyCost(cfg, account))
    ensures SumBy(Merge(ps), SaleNet(cfg, account)) >= SumBy(ps, SaleNet(cfg, account))
  {
    forall p: Proposal, q: Proposal | SameTrade(p, q) && Positive(p) && Positive(q)
      ensures Positive(Combine(p, q))
      ensures BuyCost(cfg, account)(Combine(p, q)) <= BuyCost(cfg, account)(p) + BuyCost(cfg, account)(q)
      ensures ForgoneBySales(cfg, account)(Combine(p, q)) <= ForgoneBySales(cfg, account)(p) + ForgoneBySales(cfg, account)(q)
    {
      OneTradeIsCheaper(cfg, p.notional, q.notional);
      OneSaleNetsMore(cfg, p.notional, q.notional);
      var m := Combine(p, q);
      assert SaleNet(cfg, account)(m) >= SaleNet(cfg, account)(p) + SaleNet(cfg, account)(q);
    }
    MergeLowersCost(ps, BuyCost(cfg, account), Positive);
    MergeLowersCost(ps, ForgoneBySales(cfg, account), Positive);
    Negated(Merge(ps), SaleNet(cfg, account), ForgoneBySales(cfg, account));
    Negated(ps, SaleNet(cfg, account), ForgoneBySales(cfg, account));
  }

  // --- Sequencing ----------------------------------------------------------------------------

  /** A column that does not read the sequence number. */
  ghost predicate Unnumbered(f: Proposal -> real)
  {
    forall p: Proposal, n: nat :: f(p.(sequence := n)) == f(p)
  }

  lemma {:induction false} NumberKeepsColumn(ps: seq<Proposal>, f: Proposal -> real)
    requires Unnumbered(f)
    ensures SumBy(Number(ps), f) == SumBy(ps, f)
  {
    if ps != [] {
      var last := ps[|ps| - 1];
      NumberKeepsColumn(ps[..|ps| - 1], f);
      SumByAppend(Number(ps[..|ps| - 1]), last.(sequence := |ps| - 1), f);
    }
  }

  /** Sequencing keeps the total of any additive column. */
  lemma SequenceKeepsColumn(ps: seq<Proposal>, f: Proposal -> real)
    requires Unnumbered(f)
    ensures SumBy(Sequence(ps), f) == SumBy(Merge(ps), f)
    ensures Additive(f) ==> SumBy(Sequence(ps), f) == SumBy(ps, f)
  {
    var sorted := StableSort(Merge(ps), SellsBeforeBuys);
    NumberKeepsColumn(sorted, f);
    StableSortSum(Merge(ps), SellsBeforeBuys, f);
    if Additive(f) {
      MergeKeepsColumn(ps, f);
    }
  }

  /** Every sequenced proposal is a merged one, renumbered. */
  lemma SequenceMembers(ps: seq<Proposal>, i: nat)
    requires i < |Sequence(ps)|
    ensures Sequence(ps)[i].sequence == i
    ensures exists m :: m in Merge(ps) && Sequence(ps)[i] == m.(sequence := i)
  {
    var sorted := StableSort(Merge(ps), SellsBeforeBuys);
    StableSortSpec(Merge(ps), SellsBeforeBuys);
    assert sorted[i] in sorted;
  }

  lemma OnceMeansDistinct(ps: seq<Proposal>)
    requires OncePerTrade(ps)
    ensures Distinct(ps)
    ensures forall p, q :: p in ps && q in ps && SameTrade(p, q) ==> p == q
  {
    forall p, q | p in ps && q in ps && SameTrade(p, q) ensures p == q {
      var i :| 0 <= i < |ps| && ps[i] == p;
      var j :| 0 <= j < |ps| && ps[j] == q;
      assert i == j;
    }
  }

  /** The plan as numbered: each trade once, every sell before every buy, in sequence order. */
  lemma SequencedSellsFirst(ps: seq<Proposal>)
    ensures OncePerTrade(Sequence(ps))
    ensures SellsFirst(Sequence(ps))
    ensures StableSort(Sequence(ps), BySequence) == Sequence(ps)
  {
    var merged := Merge(ps);
    var sorted := StableSort(merged, SellsBeforeBuys);
    MergedOnce(ps);
    OnceMeansDistinct(merged);
    SortDistinct(merged, SellsBeforeBuys);
    StableSortSpec(merged, SellsBeforeBuys);
    SortedOnce(merged, sorted);
    forall i, j | 0 <= i < j < |sorted| && sorted[j].side == Sell ensures sorted[i].side == Sell {
      assert Leq(SellsBeforeBuys(sorted[i]), SellsBeforeBuys(sorted[j]));
    }
    NumberedIsSorted(Sequence(ps));
  }

  lemma SortedOnce(merged: seq<Proposal>, sorted: seq<Proposal>)
    requires forall p, q :: p in merged && q in merged && SameTrade(p, q) ==> p == q
    requires Distinct(sorted) && forall p :: p in sorted ==> p in merged
    ensures OncePerTrade(sorted)
  {
    forall i, j | 0 <= i < j < |sorted| ensures !SameTrade(sorted[i], sorted[j]) {
      assert sorted[i] in sorted && sorted[j] in sorted && sorted[i] != sorted[j];
    }
  }

  /** Rows already in sequence order stay where they are. */
  lemma {:induction false} InOrderIsFixed(ps: seq<Proposal>)
    requires forall i, j :: 0 <= i < j < |ps| ==> ps[i].sequence < ps[j].sequence
    ensures StableSort(ps, BySequence) == ps
  {
    if |ps| > 1 {
      InOrderIsFixed(ps[1..]);
      assert ps[0].sequence < ps[1].sequence;
      assert Leq(BySequence(ps[0]), BySequence(ps[1..][0]));
      assert ps == [ps[0]] + ps[1..];
    } else if |ps| == 1 {
      assert StableSort(ps[1..], BySequence) == [];
    }
  }

  lemma NumberedIsSorted(ps: seq<Proposal>)
    requires forall i :: 0 <= i < |ps| ==> ps[i].sequence == i
    ensures StableSort(ps, BySequence) == ps
  {
    InOrderIsFixed(ps);
  }
}
