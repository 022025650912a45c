/** What lot writes do to every total: the algebra behind the ledger's invariants. */
module LotWrites {
  import opened Wrappers
  import opened Sums
  import opened Ordering
  import opened TaxLots
  import opened LotSelection
  import opened Books

  // --- A sale names each lot at most once ---------------------------------------

  lemma DistinctCons<T>(x: T, s: seq<T>)
    requires Distinct(s) && x !in s
    ensures Distinct([x] + s)
  {
    var r := [x] + s;
    forall i, j | 0 <= i < j < |r| ensures r[i] != r[j] {
      assert r[j] == s[j - 1];
    }
  }

  lemma {:induction false} InsertDistinct<T(!new)>(x: T, s: seq<T>, key: T -> Rank)
    requires Distinct(s) && x !in s
    ensures Distinct(Insert(x, s, key))
  {
    if s != [] {
      if Leq(key(x), key(s[0])) {
        DistinctCons(x, s);
      } else {
        InsertDistinct(x, s[1..], key);
        InsertMembers(x, s[1..], key);
        DistinctCons(s[0], Insert(x, s[1..], key));
      }
    } else {
      assert Insert(x, s, key) == [x];
    }
  }

  lemma {:induction false} SortDistinct<T(!new)>(s: seq<T>, key: T -> Rank)
    requires Distinct(s)
    ensures Distinct(StableSort(s, key))
  {
    if s != [] {
      SortDistinct(s[1..], key);
      StableSortSpec(s[1..], key);
      InsertDistinct(s[0], StableSort(s[1..], key), key);
    }
  }

  lemma {:induction false} OpenRowsDistinct(lots: seq<Lot>, account: int, symbol: string)
    requires Distinct(lots)
    ensures Distinct(OpenRows(lots, account, symbol))
  {
    if lots != [] {
      OpenRowsDistinct(lots[..|lots| - 1], account, symbol);
      OpenRowsMembers(lots[..|lots| - 1], account, symbol);
    }
  }

  lemma {:induction false} WithSharesDistinct(lots: seq<Lot>)
    requires Distinct(lots)
    ensures Distinct(WithShares(lots))
  {
    if lots != [] {
      WithSharesDistinct(lots[..|lots| - 1]);
      WithSharesMembers(lots[..|lots| - 1]);
    }
  }

  predicate NamesOnce(sold: seq<Selection>)
  {
    forall i, j :: 0 <= i < j < |sold| ==> sold[i].lotId != sold[j].lotId
  }

  lemma SaleNamesOnce(b: Book, account: int, symbol: string, quantity: real, price: real, how: LotMethod, at: int)
    requires Numbered(b.lots)
    ensures NamesOnce(SaleOf(b, account, symbol, quantity, price, how, at))
  {
    var lots := OpenLots(b.lots, account, symbol);
    var ordered := InSaleOrder(lots, price, how, at);
    OpenRowsDistinct(b.lots, account, symbol);
    SortDistinct(OpenRows(b.lots, account, symbol), ByAge);
    WithSharesDistinct(lots);
    SortDistinct(WithShares(lots), SaleRank(how, price, at));
    OpenLotsMembers(b.lots, account, symbol);
    InSaleOrderMembers(lots, price, how, at);
    ConsumeShape(ordered, quantity, price, at);
    var sold := SaleOf(b, account, symbol, quantity, price, how, at);
    forall i, j | 0 <= i < j < |sold| ensures sold[i].lotId != sold[j].lotId {
      assert ordered[i] in ordered && ordered[j] in ordered;
      var m :| 0 <= m < |b.lots| && b.lots[m] == ordered[i];
      var n :| 0 <= n < |b.lots| && b.lots[n] == ordered[j];
    }
  }

  // --- Applying a sale -----------------------------------------------------------

  predicate Backed(lots: seq<Lot>, sold: seq<Selection>)
  {
    forall s :: s in sold ==> s.lotId < |lots|
  }

  lemma {:induction false} ApplySaleRows(lots: seq<Lot>, sold: seq<Selection>, at: int)
    requires Backed(lots, sold) && NamesOnce(sold)
    ensures forall s :: s in sold ==> ApplySale(lots, sold, at)[s.lotId] == Dispose(lots[s.lotId], s, at)
    ensures forall i :: 0 <= i < |lots| && (forall s :: s in sold ==> s.lotId != i) ==> ApplySale(lots, sold, at)[i] == lots[i]
  {
    if sold != [] {
      var init, last := sold[..|sold| - 1], sold[|sold| - 1];
      assert sold == init + [last];
      ApplySaleRows(lots, init, at);
      assert last in sold;
      forall s | s in init ensures s.lotId != last.lotId {
        var k :| 0 <= k < |init| && init[k] == s;
      }
    }
  }

  /** A column that each disposal lowers by `d` falls in total by the sale's total of `d`. */
  lemma {:induction false} ApplySaleTotal(lots: seq<Lot>, sold: seq<Selection>, at: int, f: Lot -> real, d: Selection -> real)
    requires Backed(lots, sold) && NamesOnce(sold)
    requires forall s :: s in sold ==> f(Dispose(lots[s.lotId], s, at)) == f(lots[s.lotId]) - d(s)
    ensures SumBy(ApplySale(lots, sold, at), f) == SumBy(lots, f) - SumBy(sold, d)
  {
    if sold != [] {
      var init, last := sold[..|sold| - 1], sold[|sold| - 1];
      assert sold == init + [last];
      assert last in sold;
      forall s | s in init ensures s.lotId != last.lotId {
        var k :| 0 <= k < |init| && init[k] == s;
      }
      ApplySaleTotal(lots, init, at, f, d);
      ApplySaleRows(lots, init, at);
      var before := ApplySale(lots, init, at);
      assert before[last.lotId] == lots[last.lotId];
      SumByUpdate(before, last.lotId, Dispose(before[last.lotId], last, at), f);
    }
  }

  // --- Totals of a sale ----------------------------------------------------------

  /** Remaining never leaves [0, quantity]; what was sold brought its basis plus the recorded gain. */
  predicate LotOk(l: Lot)
  {
    && 0.0 <= l.remaining <= l.quantity
    && 0.0 < l.quantity
    && l.proceeds - l.realizedGain == Amount(l.quantity - l.remaining, l.cost)
  }

  predicate LotsOk(lots: seq<Lot>)
  {
    Numbered(lots) && forall l :: l in lots ==> LotOk(l)
  }

  const Remaining: Lot -> real := (l: Lot) => l.remaining

  lemma {:induction false} OpenRowsTotal(lots: seq<Lot>, account: int, symbol: string, f: Lot -> real, g: Lot -> real)
    requires forall l :: l in lots ==> g(l) == if IsOpen(l, account, symbol) then f(l) else 0.0
    ensures SumBy(OpenRows(lots, account, symbol), f) == SumBy(lots, g)
  {
    if lots != [] {
      var init, l := lots[..|lots| - 1], lots[|lots| - 1];
      assert lots == init + [l];
      OpenRowsTotal(init, account, symbol, f, g);
      if IsOpen(l, account, symbol) {
        SumByAppend(OpenRows(init, account, symbol), l, f);
      } else {
        assert OpenRows(lots, account, symbol) == OpenRows(init, account, symbol);
      }
    }
  }

  /** The shares offered to a sale are exactly the shares held. */
  lemma OpenLotsHoldAll(lots: seq<Lot>, account: int, symbol: string)
    requires LotsOk(lots)
    ensures SumBy(OpenLots(lots, account, symbol), Remaining) == Held(lots, account, symbol)
    ensures SumBy(WithShares(OpenLots(lots, account, symbol)), Remaining) == Held(lots, account, symbol)
  {
    OpenRowsTotal(lots, account, symbol, Remaining, OpenShares(account, symbol));
    StableSortSum(OpenRows(lots, account, symbol), ByAge, Remaining);
    OpenLotsMembers(lots, account, symbol);
    WithSharesSum(OpenLots(lots, account, symbol), Remaining);
  }

  /** A sale of no more than is held is filled in full, at the sale price, by every method. */
  lemma SaleIsComplete(b: Book, account: int, symbol: string, quantity: real, price: real, how: LotMethod, at: int)
    requires LotsOk(b.lots) && 0.0 <= quantity <= Held(b.lots, account, symbol)
    ensures var sold := SaleOf(b, account, symbol, quantity, price, how, at);
      && SumBy(sold, Shares) == quantity
      && Shortfall(sold, quantity) == 0.0
      && SumBy(sold, Proceeds) == Amount(quantity, price)
  {
    var lots := OpenLots(b.lots, account, symbol);
    OpenLotsHoldAll(b.lots, account, symbol);
    SelectionAccounting(lots, quantity, price, how, at);
    SaleGainSplits(InSaleOrder(lots, price, how, at), quantity, price, at);
  }

  /** A holding with one open lot: a sale within it is one disposal of that lot. */
  lemma OnlyOpenLotIsSold(b: Book, l: Lot, quantity: real, price: real, how: LotMethod, at: int)
    requires l.id < |b.lots| && OpenRows(b.lots, l.account, l.symbol) == [l] && 0.0 < quantity <= l.remaining
    ensures SaleOf(b, l.account, l.symbol, quantity, price, how, at) == [Take(l, quantity, price, at)]
    ensures Sale(b, l.account, l.symbol, quantity, price, how, at)
         == Some(RebuildPosition(b.(lots := b.lots[l.id := Dispose(b.lots[l.id], Take(l, quantity, price, at), at)]), l.account, l.symbol))
  {
    assert StableSort([l], ByAge) == [l];
    assert WithShares([l]) == [l];
    assert StableSort([l], SaleRank(how, price, at)) == [l];
    var sold := SaleOf(b, l.account, l.symbol, quantity, price, how, at);
    assert Consume([], 0.0, price, at) == [];
    assert sold == [Take(l, quantity, price, at)];
    assert SumBy(sold, Shares) == quantity by {
      SumByAppend([], sold[0], Shares);
      assert [] + [sold[0]] == sold;
    }
    assert sold[..0] == [];
    assert Shortfall(sold, quantity) == 0.0;
    assert ApplySale(b.lots, sold[..0], at) == b.lots;
  }
}
