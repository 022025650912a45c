/** What the lot-selection methods promise: complete accounting, strict priority, and
    that HIFO realizes the least gain any choice of shares could. */
module LotSelection {
  import opened Wrappers
  import opened Sums
  import opened Ordering
  import opened TaxLots

  lemma {:induction false} WithSharesMembers(lots: seq<Lot>)
    ensures forall l :: l in WithShares(lots) <==> l in lots && l.remaining > 0.0
  {
    if lots != [] {
      WithSharesMembers(lots[..|lots| - 1]);
      assert lots == lots[..|lots| - 1] + [lots[|lots| - 1]];
    }
  }

  lemma InSaleOrderMembers(lots: seq<Lot>, price: real, how: LotMethod, asOf: int)
    ensures forall l :: l in InSaleOrder(lots, price, how, asOf) <==> l in lots && l.remaining > 0.0
    ensures Sorted(InSaleOrder(lots, price, how, asOf), SaleRank(how, price, asOf))
  {
    WithSharesMembers(lots);
    StableSortSpec(WithShares(lots), SaleRank(how, price, asOf));
  }

  /** A total over the lots a sale may touch is the total over all lots, when the rest add nothing. */
  lemma {:induction false} WithSharesSum(lots: seq<Lot>, f: Lot -> real)
    requires forall l :: l in lots && l.remaining <= 0.0 ==> f(l) == 0.0
    ensures SumBy(WithShares(lots), f) == SumBy(lots, f)
  {
    if lots != [] {
      var rest, l := lots[..|lots| - 1], lots[|lots| - 1];
      WithSharesSum(rest, f);
      assert l in lots;
      if l.remaining > 0.0 {
        SumByAppend(WithShares(rest), l, f);
      } else {
        assert WithShares(lots) == WithShares(rest);
      }
    }
  }

  /** The k-th selection takes from the k-th lot in sale order, no more than it has. */
  predicate TakesFrom(s: Selection, l: Lot, price: real, asOf: int)
  {
    s == Take(l, s.quantity, price, asOf) && 0.0 < s.quantity <= l.remaining
  }

  lemma ConsumeStep(ordered: seq<Lot>, quantity: real, price: real, asOf: int) returns (taken: real, rest: seq<Selection>)
    requires ordered != [] && quantity > 0.0 && ordered[0].remaining > 0.0
    ensures taken == Min(quantity, ordered[0].remaining)
    ensures rest == Consume(ordered[1..], quantity - taken, price, asOf)
    ensures Consume(ordered, quantity, price, asOf) == [Take(ordered[0], taken, price, asOf)] + rest
    ensures TakesFrom(Take(ordered[0], taken, price, asOf), ordered[0], price, asOf)
    ensures taken < ordered[0].remaining ==> rest == []
    ensures SumBy(Consume(ordered, quantity, price, asOf), Shares) == taken + SumBy(rest, Shares)
  {
    taken := Min(quantity, ordered[0].remaining);
    rest := Consume(ordered[1..], quantity - taken, price, asOf);
    var sold := [Take(ordered[0], taken, price, asOf)] + rest;
    SumByHead(sold, Shares);
    assert sold[1..] == rest;
  }

  lemma {:induction false} ConsumeTakes(ordered: seq<Lot>, quantity: real, price: real, asOf: int)
    requires forall l :: l in ordered ==> l.remaining > 0.0
    ensures var sold := Consume(ordered, quantity, price, asOf);
      && |sold| <= |ordered|
      && forall k :: 0 <= k < |sold| ==> TakesFrom(sold[k], ordered[k], price, asOf)
  {
    if ordered != [] && quantity > 0.0 {
      assert ordered[0] in ordered;
      var taken, rest := ConsumeStep(ordered, quantity, price, asOf);
      ConsumeTakes(ordered[1..], quantity - taken, price, asOf);
      var sold := Consume(ordered, quantity, price, asOf);
      forall k | 0 < k < |sold| ensures TakesFrom(sold[k], ordered[k], price, asOf) {
        assert TakesFrom(rest[k - 1], ordered[1..][k - 1], price, asOf);
      }
    }
  }

  lemma {:induction false} ConsumeExhausts(ordered: seq<Lot>, quantity: real, price: real, asOf: int, k: nat)
    requires forall l :: l in ordered ==> l.remaining > 0.0
    requires k < |Consume(ordered, quantity, price, asOf)|
    ensures k < |ordered|
    ensures k < |Consume(ordered, quantity, price, asOf)| - 1
         || SumBy(Consume(ordered, quantity, price, asOf), Shares) < quantity
         ==> Consume(ordered, quantity, price, asOf)[k].quantity == ordered[k].remaining
  {
    if ordered != [] && quantity > 0.0 {
      assert ordered[0] in ordered;
      var taken, rest := ConsumeStep(ordered, quantity, price, asOf);
      if k > 0 {
        ConsumeExhausts(ordered[1..], quantity - taken, price, asOf, k - 1);
      }
    }
  }

  lemma {:induction false} ConsumeTotals(ordered: seq<Lot>, quantity: real, price: real, asOf: int)
    requires forall l :: l in ordered ==> l.remaining > 0.0
    ensures var sold := Consume(ordered, quantity, price, asOf);
      && 0.0 <= SumBy(sold, Shares) <= Max(0.0, quantity)
      && (SumBy(sold, Shares) < quantity ==> |sold| == |ordered|)
  {
    if ordered != [] && quantity > 0.0 {
      assert ordered[0] in ordered;
      var taken, rest := ConsumeStep(ordered, quantity, price, asOf);
      ConsumeTotals(ordered[1..], quantity - taken, price, asOf);
    }
  }

  /** The selections are the first lots in sale order, each taken whole except perhaps the last;
      and nothing is left over unless every lot is exhausted. */
  lemma ConsumeShape(ordered: seq<Lot>, quantity: real, price: real, asOf: int)
    requires forall l :: l in ordered ==> l.remaining > 0.0
    ensures var sold := Consume(ordered, quantity, price, asOf);
      && |sold| <= |ordered|
      && (forall k :: 0 <= k < |sold| ==>
            && sold[k] == Take(ordered[k], sold[k].quantity, price, asOf)
            && 0.0 < sold[k].quantity <= ordered[k].remaining)
      && (forall k :: 0 <= k < |sold| - 1 ==> sold[k].quantity == ordered[k].remaining)
      && 0.0 <= SumBy(sold, Shares) <= Max(0.0, quantity)
      && (SumBy(sold, Shares) < quantity ==>
            && |sold| == |ordered|
            && forall k :: 0 <= k < |sold| ==> sold[k].quantity == ordered[k].remaining)
  {
    var sold := Consume(ordered, quantity, price, asOf);
    ConsumeTakes(ordered, quantity, price, asOf);
    ConsumeTotals(ordered, quantity, price, asOf);
    forall k | 0 <= k < |sold|
      ensures k < |sold| - 1 || SumBy(sold, Shares) < quantity ==> sold[k].quantity == ordered[k].remaining
      ensures TakesFrom(sold[k], ordered[k], price, asOf)
    {
      ConsumeExhausts(ordered, quantity, price, asOf, k);
    }
  }

  /** Every method: selected shares plus the shortfall are the shares asked for, no lot gives more
      than it has, at most one lot is left partly consumed, and a shortfall means nothing is left. */
  lemma SelectionAccounting(lots: seq<Lot>, quantity: real, price: real, how: LotMethod, asOf: int)
    requires quantity >= 0.0
    ensures var sold := Selected(lots, quantity, price, how, asOf);
            var ordered := InSaleOrder(lots, price, how, asOf);
      && SumBy(sold, Shares) + Shortfall(sold, quantity) == quantity
      && |sold| <= |ordered|
      && (forall k :: 0 <= k < |sold| ==>
            && ordered[k] in lots
            && sold[k].lotId == ordered[k].id
            && 0.0 < sold[k].quantity <= ordered[k].remaining
            && sold[k].gain == sold[k].proceeds - Amount(sold[k].quantity, ordered[k].cost)
            && sold[k].proceeds == Amount(sold[k].quantity, price))
      && (forall k :: 0 <= k < |sold| - 1 ==> sold[k].quantity == ordered[k].remaining)
      && (Shortfall(sold, quantity) > 0.0 ==> SumBy(sold, Shares) == SumBy(WithShares(lots), (l: Lot) => l.remaining))
  {
    InSaleOrderMembers(lots, price, how, asOf);
    var ordered := InSaleOrder(lots, price, how, asOf);
    ConsumeShape(ordered, quantity, price, asOf);
    var sold := Selected(lots, quantity, price, how, asOf);
    forall k | 0 <= k < |sold| ensures ordered[k] in lots {
      assert ordered[k] in ordered;
    }
    if Shortfall(sold, quantity) > 0.0 {
      var left := (l: Lot) => l.remaining;
      SameTotals(sold, ordered, left);
      StableSortSum(WithShares(lots), SaleRank(how, price, asOf), left);
    }
  }

  lemma {:induction false} SameTotals(sold: seq<Selection>, ordered: seq<Lot>, f: Lot -> real)
    requires |sold| == |ordered|
    requires forall k :: 0 <= k < |sold| ==> sold[k].quantity == f(ordered[k])
    ensures SumBy(sold, Shares) == SumBy(ordered, f)
  {
    if sold != [] {
      SameTotals(sold[..|sold| - 1], ordered[..|ordered| - 1], f);
    }
  }

  /** "More than one year" (section 1222 of the Internal Revenue Code): long-term from the 366th day on. */
  lemma LongTermExactly(acquiredAt: int, disposedAt: int)
    ensures TermFor(acquiredAt, disposedAt) == LongTerm <==> disposedAt - acquiredAt >= 366 * DAY
  {
  }

  /** What a method promises about two lots: FIFO the older first, LIFO the newer, HIFO the dearer; MINTAX losses
      first, then long-term gains, then short-term, and the dearer first among each. */
  predicate SoldBefore(how: LotMethod, first: Lot, later: Lot, price: real, asOf: int)
  {
    match how
    case Fifo => first.acquiredAt < later.acquiredAt
    case Lifo => first.acquiredAt > later.acquiredAt
    case Hifo => first.cost > later.cost
    case MinTax =>
      var firstLoses, laterLoses := price < first.cost, price < later.cost;
      var firstLong, laterLong := asOf - first.acquiredAt >= 366 * DAY, asOf - later.acquiredAt >= 366 * DAY;
      || (firstLoses && !laterLoses)
      || (!firstLoses && !laterLoses && firstLong && !laterLong)
      || (firstLoses && laterLoses && first.cost > later.cost)
      || (!firstLoses && !laterLoses && firstLong == laterLong && first.cost > later.cost)
  }

  lemma RankMeans(how: LotMethod, first: Lot, later: Lot, price: real, asOf: int)
    ensures SoldBefore(how, first, later, price, asOf) <==> !Leq(SaleRank(how, price, asOf)(later), SaleRank(how, price, asOf)(first))
  {
    LongTermExactly(first.acquiredAt, asOf);
    LongTermExactly(later.acquiredAt, asOf);
  }

  /** No method touches a lot while a lot it puts ahead still has shares. */
  lemma StrictPriority(lots: seq<Lot>, quantity: real, price: real, how: LotMethod, asOf: int, first: Lot, later: Lot)
    requires first in lots && later in lots && first.remaining > 0.0
    requires forall l, m :: l in lots && m in lots && l.id == m.id ==> l == m
    requires SoldBefore(how, first, later, price, asOf)
    requires exists s :: s in Selected(lots, quantity, price, how, asOf) && s.lotId == later.id
    ensures exists s :: s in Selected(lots, quantity, price, how, asOf) && s.lotId == first.id && s.quantity == first.remaining
  {
    RankMeans(how, first, later, price, asOf);
    var ordered := InSaleOrder(lots, price, how, asOf);
    InSaleOrderMembers(lots, price, how, asOf);
    var sold := Selected(lots, quantity, price, how, asOf);
    var j :| 0 <= j < |sold| && sold[j].lotId == later.id;
    var i :| 0 <= i < |ordered| && ordered[i] == first;
    TakenFrom(ordered, quantity, price, asOf, j);
    assert ordered[j] in ordered;
    RankedAhead(ordered, SaleRank(how, price, asOf), i, j);
    TakenFrom(ordered, quantity, price, asOf, i);
    assert sold[i] in sold;
  }

  lemma TakenFrom(ordered: seq<Lot>, quantity: real, price: real, asOf: int, k: nat)
    requires forall l :: l in ordered ==> l.remaining > 0.0
    requires k < |Consume(ordered, quantity, price, asOf)|
    ensures k < |ordered|
    ensures var s := Consume(ordered, quantity, price, asOf)[k];
      s.lotId == ordered[k].id && (k < |Consume(ordered, quantity, price, asOf)| - 1 ==> s.quantity == ordered[k].remaining)
  {
    ConsumeShape(ordered, quantity, price, asOf);
  }

  lemma RankedAhead(ordered: seq<Lot>, key: Lot -> Rank, i: nat, j: nat)
    requires Sorted(ordered, key) && i < |ordered| && j < |ordered|
    requires !Leq(key(ordered[j]), key(ordered[i]))
    ensures i < j
  {
  }

  // --- HIFO is optimal ---------------------------------------------------------

  /** Gain realized by taking `shares(l)` from each lot. */
  function GainAt(shares: Lot -> real, price: real): Lot -> real
  {
    (l: Lot) => Amount(shares(l), price) - Amount(shares(l), l.cost)
  }

  function ProceedsAt(shares: Lot -> real, price: real): Lot -> real
  {
    (l: Lot) => Amount(shares(l), price)
  }

  function CostAt(shares: Lot -> real): Lot -> real
  {
    (l: Lot) => Amount(shares(l), l.cost)
  }

  predicate DearestFirst(ordered: seq<Lot>)
  {
    forall i, j :: 0 <= i < j < |ordered| ==> ordered[i].cost >= ordered[j].cost
  }

  /** Shares another taking sells beyond the front-to-back sale, and the basis it pays beyond it. */
  function ExtraShares(ordered: seq<Lot>, sold: seq<Selection>, shares: Lot -> real): real
  {
    SumBy(ordered, shares) - SumBy(sold, Shares)
  }

  function ExtraCost(ordered: seq<Lot>, sold: seq<Selection>, shares: Lot -> real): real
  {
    SumBy(ordered, CostAt(shares)) - SumBy(sold, Basis)
  }

  predicate PaysAtMost(cost: real, shares: real, ceiling: real)
  {
    cost <= Amount(shares, ceiling)
  }

  predicate Takes(shares: Lot -> real, l: Lot)
  {
    l.remaining > 0.0 && 0.0 <= shares(l) <= l.remaining
  }

  predicate AnyTaking(ordered: seq<Lot>, shares: Lot -> real)
  {
    forall l :: l in ordered ==> Takes(shares, l)
  }

  /** What the first lot adds to the extra shares and cost; the rest never sells fewer than the sale does. */
  lemma ExtraHead(ordered: seq<Lot>, quantity: real, price: real, asOf: int, shares: Lot -> real)
    requires ordered != [] && AnyTaking(ordered, shares)
    ensures var l, rest := ordered[0], ordered[1..];
            var taken := FirstTaken(l, quantity);
            var sold, sold' := Consume(ordered, quantity, price, asOf), Consume(rest, quantity - taken, price, asOf);
      && ExtraShares(ordered, sold, shares) == shares(l) - taken + ExtraShares(rest, sold', shares)
      && ExtraCost(ordered, sold, shares) == Amount(shares(l), l.cost) - Amount(taken, l.cost) + ExtraCost(rest, sold', shares)
      && (ExtraShares(ordered, sold, shares) >= 0.0 ==> ExtraShares(rest, sold', shares) >= 0.0)
  {
    var l, rest := ordered[0], ordered[1..];
    assert Takes(shares, l);
    ConsumeHead(ordered, quantity, price, asOf);
    OthersHead(ordered, shares);
    forall m | m in rest ensures 0.0 <= shares(m) {
      assert m in ordered && Takes(shares, m);
    }
    SumByNonnegative(rest, shares);
  }

  lemma RestIsCheaper(ordered: seq<Lot>)
    requires ordered != [] && DearestFirst(ordered)
    ensures DearestFirst(ordered[1..])
    ensures forall m :: m in ordered[1..] ==> m.cost <= ordered[0].cost
  {
    forall m | m in ordered[1..] ensures m.cost <= ordered[0].cost {
      var k :| 0 <= k < |ordered[1..]| && ordered[1..][k] == m;
      assert ordered[k + 1] == m;
    }
  }

  /** Against a front-to-back sale of lots sorted dearest first, any other taking of at least as
      many shares pays at most the ceiling cost for each extra share. */
  lemma {:induction false} DearestFirstIsBest(ordered: seq<Lot>, quantity: real, price: real, asOf: int,
                                              shares: Lot -> real, ceiling: real)
    requires AnyTaking(ordered, shares) && DearestFirst(ordered)
    requires forall l :: l in ordered ==> l.cost <= ceiling
    requires ExtraShares(ordered, Consume(ordered, quantity, price, asOf), shares) >= 0.0
    ensures PaysAtMost(ExtraCost(ordered, Consume(ordered, quantity, price, asOf), shares),
                       ExtraShares(ordered, Consume(ordered, quantity, price, asOf), shares), ceiling)
  {
    if ordered != [] {
      var l, rest := ordered[0], ordered[1..];
      assert l in ordered;
      var taken := FirstTaken(l, quantity);
      ExtraHead(ordered, quantity, price, asOf, shares);
      RestIsCheaper(ordered);
      assert AnyTaking(rest, shares);
      DearestFirstIsBest(rest, quantity - taken, price, asOf, shares, l.cost);
      OneMoreLot(ordered, quantity, price, asOf, shares, ceiling);
    }
  }

  lemma OneMoreLot(ordered: seq<Lot>, quantity: real, price: real, asOf: int, shares: Lot -> real, ceiling: real)
    requires ordered != [] && AnyTaking(ordered, shares) && ordered[0].cost <= ceiling
    requires ExtraShares(ordered, Consume(ordered, quantity, price, asOf), shares) >= 0.0
    requires var rest := ordered[1..];
             var sold' := Consume(rest, quantity - FirstTaken(ordered[0], quantity), price, asOf);
      PaysAtMost(ExtraCost(rest, sold', shares), ExtraShares(rest, sold', shares), ordered[0].cost)
    ensures PaysAtMost(ExtraCost(ordered, Consume(ordered, quantity, price, asOf), shares),
                       ExtraShares(ordered, Consume(ordered, quantity, price, asOf), shares), ceiling)
  {
    var l, rest := ordered[0], ordered[1..];
    var taken := FirstTaken(l, quantity);
    var sold, sold' := Consume(ordered, quantity, price, asOf), Consume(rest, quantity - taken, price, asOf);
    ExtraHead(ordered, quantity, price, asOf, shares);
    ExchangeStep(l.cost, ceiling, shares(l), taken, ExtraCost(rest, sold', shares), ExtraShares(rest, sold', shares),
                 ExtraCost(ordered, sold, shares), ExtraShares(ordered, sold, shares));
  }

  lemma ExchangeStep(cost: real, ceiling: real, shares: real, taken: real, gap': real, extra': real, gap: real, extra: real)
    requires cost <= ceiling
    requires PaysAtMost(gap', extra', cost)
    requires extra == shares - taken + extra' >= 0.0
    requires gap == Amount(shares, cost) - Amount(taken, cost) + gap'
    ensures PaysAtMost(gap, extra, ceiling)
  {
    assert shares * cost - taken * cost + cost * extra' == cost * extra;
    assert (ceiling - cost) * extra >= 0.0;
    assert ceiling * extra == cost * extra + (ceiling - cost) * extra;
  }

  lemma OthersHead(ordered: seq<Lot>, shares: Lot -> real)
    requires ordered != []
    ensures SumBy(ordered, shares) == shares(ordered[0]) + SumBy(ordered[1..], shares)
    ensures SumBy(ordered, CostAt(shares)) == Amount(shares(ordered[0]), ordered[0].cost) + SumBy(ordered[1..], CostAt(shares))
  {
    SumByHead(ordered, shares);
    SumByHead(ordered, CostAt(shares));
  }

  function FirstTaken(l: Lot, quantity: real): real
  {
    if quantity <= 0.0 then 0.0 else Min(quantity, l.remaining)
  }

  lemma ConsumeHead(ordered: seq<Lot>, quantity: real, price: real, asOf: int)
    requires ordered != [] && ordered[0].remaining > 0.0
    ensures var sold := Consume(ordered, quantity, price, asOf);
            var taken := FirstTaken(ordered[0], quantity);
            var sold' := Consume(ordered[1..], quantity - taken, price, asOf);
      && SumBy(sold, Shares) == taken + SumBy(sold', Shares)
      && SumBy(sold, Basis) == Amount(taken, ordered[0].cost) + SumBy(sold', Basis)
      && (taken < ordered[0].remaining ==> sold' == [])
  {
    if quantity > 0.0 {
      var sold := Consume(ordered, quantity, price, asOf);
      assert sold[1..] == Consume(ordered[1..], quantity - FirstTaken(ordered[0], quantity), price, asOf);
      SumByHead(sold, Shares);
      SumByHead(sold, Basis);
    }
  }

  lemma TakeSplits(l: Lot, quantity: real, price: real, asOf: int)
    ensures var t := Take(l, quantity, price, asOf);
      Shares(t) == quantity && Gain(t) == Proceeds(t) - Basis(t) && Proceeds(t) == Amount(quantity, price)
  {
  }

  /** A sale's gain is its proceeds less its basis, in total as in each selection. */
  lemma {:induction false} SaleGainSplits(ordered: seq<Lot>, quantity: real, price: real, asOf: int)
    ensures var sold := Consume(ordered, quantity, price, asOf);
      && SumBy(sold, Proceeds) == Amount(SumBy(sold, Shares), price)
      && SumBy(sold, Gain) == SumBy(sold, Proceeds) - SumBy(sold, Basis)
  {
    if ordered != [] && quantity > 0.0 {
      var taken := Min(quantity, ordered[0].remaining);
      if taken <= 0.0 {
        SaleGainSplits(ordered[1..], quantity, price, asOf);
      } else {
        var t := Take(ordered[0], taken, price, asOf);
        TakeSplits(ordered[0], taken, price, asOf);
        SaleGainSplits(ordered[1..], quantity - taken, price, asOf);
        var rest := Consume(ordered[1..], quantity - taken, price, asOf);
        SoldOneMore(t, rest, price);
      }
    }
  }

  lemma SoldOneMore(t: Selection, rest: seq<Selection>, price: real)
    requires Gain(t) == Proceeds(t) - Basis(t) && Proceeds(t) == Amount(Shares(t), price)
    requires SumBy(rest, Proceeds) == Amount(SumBy(rest, Shares), price)
    requires SumBy(rest, Gain) == SumBy(rest, Proceeds) - SumBy(rest, Basis)
    ensures var sold := [t] + rest;
      && SumBy(sold, Proceeds) == Amount(SumBy(sold, Shares), price)
      && SumBy(sold, Gain) == SumBy(sold, Proceeds) - SumBy(sold, Basis)
  {
    var sold := [t] + rest;
    assert sold[1..] == rest;
    SumByHead(sold, Gain);
    SumByHead(sold, Shares);
    SumByHead(sold, Basis);
    SumByHead(sold, Proceeds);
    AmountAdds(Shares(t), SumBy(rest, Shares), price);
  }

  /** HIFO realizes the least gain among all ways to take the same shares from the same lots. */
  lemma HifoRealizesLeastGain(lots: seq<Lot>, quantity: real, price: real, asOf: int, shares: Lot -> real)
    requires forall l :: l in lots ==> 0.0 <= shares(l) <= l.remaining
    requires SumBy(lots, shares) == SumBy(Selected(lots, quantity, price, Hifo, asOf), Shares)
    ensures SumBy(Selected(lots, quantity, price, Hifo, asOf), Gain) <= SumBy(lots, GainAt(shares, price))
  {
    SumByDifference(lots, GainAt(shares, price), ProceedsAt(shares, price), CostAt(shares));
    SumByScaled(lots, ProceedsAt(shares, price), shares, price);
    SaleGainSplits(InSaleOrder(lots, price, Hifo, asOf), quantity, price, asOf);
    HifoSellsMostBasis(lots, quantity, price, asOf, shares);
  }

  lemma HifoSellsMostBasis(lots: seq<Lot>, quantity: real, price: real, asOf: int, shares: Lot -> real)
    requires forall l :: l in lots ==> 0.0 <= shares(l) <= l.remaining
    requires SumBy(lots, shares) == SumBy(Selected(lots, quantity, price, Hifo, asOf), Shares)
    ensures SumBy(lots, CostAt(shares)) <= SumBy(Selected(lots, quantity, price, Hifo, asOf), Basis)
  {
    var ordered := InSaleOrder(lots, price, Hifo, asOf);
    InSaleOrderMembers(lots, price, Hifo, asOf);
    InSaleOrderTotals(lots, price, Hifo, asOf, shares);
    HifoIsDearestFirst(lots, price, asOf);
    if ordered != [] {
      DearestFirstIsBest(ordered, quantity, price, asOf, shares, ordered[0].cost);
      NoExtra(ExtraCost(ordered, Consume(ordered, quantity, price, asOf), shares),
              ExtraShares(ordered, Consume(ordered, quantity, price, asOf), shares), ordered[0].cost);
    }
  }

  lemma NoExtra(cost: real, shares: real, ceiling: real)
    requires PaysAtMost(cost, shares, ceiling) && shares == 0.0
    ensures cost <= 0.0
  {
  }

  lemma InSaleOrderTotals(lots: seq<Lot>, price: real, how: LotMethod, asOf: int, shares: Lot -> real)
    requires forall l :: l in lots ==> 0.0 <= shares(l) <= l.remaining
    ensures SumBy(InSaleOrder(lots, price, how, asOf), shares) == SumBy(lots, shares)
    ensures SumBy(InSaleOrder(lots, price, how, asOf), CostAt(shares)) == SumBy(lots, CostAt(shares))
  {
    var key := SaleRank(how, price, asOf);
    StableSortSum(WithShares(lots), key, shares);
    StableSortSum(WithShares(lots), key, CostAt(shares));
    WithSharesSum(lots, shares);
    forall l | l in lots && l.remaining <= 0.0 ensures CostAt(shares)(l) == 0.0 {
      assert shares(l) == 0.0;
    }
    WithSharesSum(lots, CostAt(shares));
  }

  lemma HifoIsDearestFirst(lots: seq<Lot>, price: real, asOf: int)
    ensures var ordered := InSaleOrder(lots, price, Hifo, asOf);
      DearestFirst(ordered) && forall l :: l in ordered ==> l.cost <= ordered[0].cost
  {
    var key := SaleRank(Hifo, price, asOf);
    var ordered := InSaleOrder(lots, price, Hifo, asOf);
    InSaleOrderMembers(lots, price, Hifo, asOf);
    forall i, j | 0 <= i < j < |ordered| ensures ordered[i].cost >= ordered[j].cost {
      assert Leq(key(ordered[i]), key(ordered[j]));
    }
    forall l | l in ordered ensures l.cost <= ordered[0].cost {
      var k :| 0 <= k < |ordered| && ordered[k] == l;
    }
  }
}
