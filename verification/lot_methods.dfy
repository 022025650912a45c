/** HIFO against the other lot methods: no method realizes less gain on the same sale. */
module LotMethods {
  import opened Wrappers
  import opened Sums
  import opened Ordering
  import opened TaxLots
  import opened LotSelection
  import opened Books
  import opened LotWrites

  /** Shares a sale takes from a lot. */
  function TakenFrom(sold: seq<Selection>): Lot -> real
  {
    (l: Lot) => TakenById(sold, l.id)
  }

  function TakenById(sold: seq<Selection>, id: nat): real
  {
    if sold == [] then 0.0
    else if sold[|sold| - 1].lotId == id then sold[|sold| - 1].quantity
    else TakenById(sold[..|sold| - 1], id)
  }

  lemma {:induction false} TakenByKth(sold: seq<Selection>, k: nat)
    requires NamesOnce(sold) && k < |sold|
    ensures TakenById(sold, sold[k].lotId) == sold[k].quantity
    decreases |sold|
  {
    if k < |sold| - 1 {
      TakenByKth(sold[..|sold| - 1], k);
    }
  }

  lemma {:induction false} TakenByNone(sold: seq<Selection>, id: nat)
    requires forall s :: s in sold ==> s.lotId != id
    ensures TakenById(sold, id) == 0.0
  {
    if sold != [] {
      assert sold[|sold| - 1] in sold;
      TakenByNone(sold[..|sold| - 1], id);
    }
  }

  /** Totals over the lots in sale order are totals over the selections, when the rest add nothing. */
  lemma {:induction false} AlignedTotals(ordered: seq<Lot>, sold: seq<Selection>, f: Lot -> real, g: Selection -> real)
    requires |sold| <= |ordered|
    requires forall k :: 0 <= k < |sold| ==> f(ordered[k]) == g(sold[k])
    requires forall k :: |sold| <= k < |ordered| ==> f(ordered[k]) == 0.0
    ensures SumBy(ordered, f) == SumBy(sold, g)
  {
    if |sold| < |ordered| {
      AlignedTotals(ordered[..|ordered| - 1], sold, f, g);
    } else if sold != [] {
      AlignedTotals(ordered[..|ordered| - 1], sold[..|sold| - 1], f, g);
    }
  }

  predicate DistinctIds(lots: seq<Lot>)
  {
    forall l, m :: l in lots && m in lots && l.id == m.id ==> l == m
  }

  /** In sale order, the first lots give what was selected from them and the rest give nothing. */
  lemma SaleTakes(ordered: seq<Lot>, quantity: real, price: real, asOf: int)
    requires Distinct(ordered) && DistinctIds(ordered) && forall l :: l in ordered ==> l.remaining > 0.0
    ensures var sold := Consume(ordered, quantity, price, asOf);
      && |sold| <= |ordered|
      && (forall k :: 0 <= k < |sold| ==> TakenFrom(sold)(ordered[k]) == sold[k].quantity
                                          && sold[k] == Take(ordered[k], sold[k].quantity, price, asOf)
                                          && 0.0 < sold[k].quantity <= ordered[k].remaining)
      && (forall k :: |sold| <= k < |ordered| ==> TakenFrom(sold)(ordered[k]) == 0.0)
  {
    var sold := Consume(ordered, quantity, price, asOf);
    ConsumeShape(ordered, quantity, price, asOf);
    forall i, j | 0 <= i < j < |ordered| ensures ordered[i].id != ordered[j].id {
      assert ordered[i] in ordered && ordered[j] in ordered;
    }
    assert NamesOnce(sold);
    forall k | 0 <= k < |sold| ensures TakenFrom(sold)(ordered[k]) == sold[k].quantity {
      TakenByKth(sold, k);
    }
    forall k | |sold| <= k < |ordered| ensures TakenFrom(sold)(ordered[k]) == 0.0 {
      forall s | s in sold ensures s.lotId != ordered[k].id {
        var i :| 0 <= i < |sold| && sold[i] == s;
      }
      TakenByNone(sold, ordered[k].id);
    }
  }

  lemma SaleIsATaking(lots: seq<Lot>, quantity: real, price: real, how: LotMethod, asOf: int)
    requires Distinct(lots) && DistinctIds(lots) && forall l :: l in lots ==> l.remaining > 0.0
    ensures var sold := Selected(lots, quantity, price, how, asOf);
      && (forall l :: l in lots ==> 0.0 <= TakenFrom(sold)(l) <= l.remaining)
      && SumBy(lots, TakenFrom(sold)) == SumBy(sold, Shares)
      && SumBy(lots, GainAt(TakenFrom(sold), price)) == SumBy(sold, Gain)
  {
    var ordered := InSaleOrder(lots, price, how, asOf);
    var key := SaleRank(how, price, asOf);
    var sold := Selected(lots, quantity, price, how, asOf);
    var shares := TakenFrom(sold);
    InSaleOrderMembers(lots, price, how, asOf);
    WithSharesDistinct(lots);
    SortDistinct(WithShares(lots), key);
    SaleTakes(ordered, quantity, price, asOf);
    AlignedTotals(ordered, sold, shares, Shares);
    AlignedTotals(ordered, sold, GainAt(shares, price), Gain);
    SameTotal(lots, price, how, asOf, shares);
    SameTotal(lots, price, how, asOf, GainAt(shares, price));
    forall l | l in lots ensures 0.0 <= shares(l) <= l.remaining {
      assert l in ordered;
      var k :| 0 <= k < |ordered| && ordered[k] == l;
      if k < |sold| {
        assert shares(ordered[k]) == sold[k].quantity;
      }
    }
  }

  lemma SameTotal(lots: seq<Lot>, price: real, how: LotMethod, asOf: int, f: Lot -> real)
    requires forall l :: l in lots ==> l.remaining > 0.0
    ensures SumBy(InSaleOrder(lots, price, how, asOf), f) == SumBy(lots, f)
  {
    StableSortSum(WithShares(lots), SaleRank(how, price, asOf), f);
    WithSharesSum(lots, f);
  }

  /** Selling the same shares of the same lots, HIFO realizes no more gain than FIFO, LIFO or MINTAX. */
  lemma HifoBeatsEveryMethod(lots: seq<Lot>, quantity: real, price: real, how: LotMethod, asOf: int)
    requires Distinct(lots) && DistinctIds(lots) && forall l :: l in lots ==> l.remaining > 0.0
    requires quantity >= 0.0
    ensures SumBy(Selected(lots, quantity, price, Hifo, asOf), Gain) <= SumBy(Selected(lots, quantity, price, how, asOf), Gain)
  {
    SaleIsATaking(lots, quantity, price, how, asOf);
    SameSharesSold(lots, quantity, price, how, asOf);
    SameSharesSold(lots, quantity, price, Hifo, asOf);
    HifoRealizesLeastGain(lots, quantity, price, asOf, TakenFrom(Selected(lots, quantity, price, how, asOf)));
  }

  /** Every method sells the same number of shares: those asked for, or all there are. */
  lemma SameSharesSold(lots: seq<Lot>, quantity: real, price: real, how: LotMethod, asOf: int)
    requires quantity >= 0.0
    ensures SumBy(Selected(lots, quantity, price, how, asOf), Shares) == Min(quantity, SumBy(WithShares(lots), Remaining))
  {
    var ordered := InSaleOrder(lots, price, how, asOf);
    InSaleOrderMembers(lots, price, how, asOf);
    StableSortSum(WithShares(lots), SaleRank(how, price, asOf), Remaining);
    SoldIsLesser(ordered, quantity, price, asOf);
  }

  lemma {:induction false} SoldIsLesser(ordered: seq<Lot>, quantity: real, price: real, asOf: int)
    requires quantity >= 0.0 && forall l :: l in ordered ==> l.remaining > 0.0
    ensures SumBy(Consume(ordered, quantity, price, asOf), Shares) == Min(quantity, SumBy(ordered, Remaining))
  {
    SumByNonnegative(ordered, Remaining);
    if ordered != [] && quantity > 0.0 {
      assert ordered[0] in ordered;
      var taken, rest := ConsumeStep(ordered, quantity, price, asOf);
      SoldIsLesser(ordered[1..], quantity - taken, price, asOf);
      SumByHead(ordered, Remaining);
      SumByNonnegative(ordered[1..], Remaining);
    }
  }

  /** On any ledger: whatever the policy's method, HIFO would have realized no more on the same sale. */
  lemma HifoBeatsOnLedger(b: Book, account: int, symbol: string, quantity: real, price: real, how: LotMethod, at: int)
    requires Numbered(b.lots) && quantity >= 0.0
    ensures SumBy(SaleOf(b, account, symbol, quantity, price, Hifo, at), Gain)
         <= SumBy(SaleOf(b, account, symbol, quantity, price, how, at), Gain)
  {
    var lots := OpenLots(b.lots, account, symbol);
    OpenRowsDistinct(b.lots, account, symbol);
    SortDistinct(OpenRows(b.lots, account, symbol), ByAge);
    OpenLotsMembers(b.lots, account, symbol);
    forall l, m | l in lots && m in lots && l.id == m.id ensures l == m {
      var i :| 0 <= i < |b.lots| && b.lots[i] == l;
      var j :| 0 <= j < |b.lots| && b.lots[j] == m;
    }
    HifoBeatsEveryMethod(lots, quantity, price, how, at);
  }
}
