/** The year-to-date figure read off the lots, against the sales that were made.

    A lot's row keeps one running gain, one term and one disposal date, each overwritten by the latest sale, so
    the figure agrees with the sales only when no lot carries a gain across a year or a change of term. */
module RealizedGains {
  import opened Wrappers
  import opened Sums
  import opened Ordering
  import opened TaxLots
  import opened LotSelection
  import opened Books
  import opened LotWrites
  import opened LedgerInvariants

  /** Disposed in one of these accounts since the start of the year. */
  predicate Counted(l: Lot, accounts: set<int>, since: int)
  {
    l.account in accounts && l.disposedAt.Some? && l.disposedAt.value >= since && l.term.Some?
  }

  function RealizedIn(accounts: set<int>, since: int): Lot -> real
  {
    (l: Lot) => if Counted(l, accounts, since) then l.realizedGain else 0.0
  }

  function ShortRealizedIn(accounts: set<int>, since: int): Lot -> real
  {
    (l: Lot) => if Counted(l, accounts, since) && l.term == Some(ShortTerm) then l.realizedGain else 0.0
  }

  /** Gain already on a lot that the year's figure did not count, and will once the lot is sold again. */
  function Carried(l: Lot, accounts: set<int>, since: int): real
  {
    if Counted(l, accounts, since) then 0.0 else l.realizedGain
  }

  /** Gain already on a lot that a sale on other terms moves into the short-term figure, or out of it. */
  function Moved(l: Lot, term: Term, accounts: set<int>, since: int): real
  {
    (if term == ShortTerm then l.realizedGain else 0.0) - ShortRealizedIn(accounts, since)(l)
  }

  function CarriedBy(lots: seq<Lot>, accounts: set<int>, since: int): Selection -> real
  {
    (s: Selection) => if s.lotId < |lots| then Carried(lots[s.lotId], accounts, since) else 0.0
  }

  function MovedBy(lots: seq<Lot>, accounts: set<int>, since: int): Selection -> real
  {
    (s: Selection) => if s.lotId < |lots| then Moved(lots[s.lotId], s.term, accounts, since) else 0.0
  }

  /** The figure falls by the negative of what is added; sums of disposals are stated as falls. */
  function FallOf(f: Selection -> real, g: Selection -> real): Selection -> real
  {
    (s: Selection) => 0.0 - (f(s) + g(s))
  }

  lemma {:induction false} FallsAddUp(sold: seq<Selection>, f: Selection -> real, g: Selection -> real)
    ensures SumBy(sold, FallOf(f, g)) == 0.0 - (SumBy(sold, f) + SumBy(sold, g))
  {
    if sold != [] {
      FallsAddUp(sold[..|sold| - 1], f, g);
    }
  }

  lemma DisposalRealizes(l: Lot, s: Selection, at: int, accounts: set<int>, since: int)
    requires l.account in accounts && at >= since
    ensures RealizedIn(accounts, since)(Dispose(l, s, at)) == RealizedIn(accounts, since)(l) + s.gain + Carried(l, accounts, since)
    ensures ShortRealizedIn(accounts, since)(Dispose(l, s, at))
         == ShortRealizedIn(accounts, since)(l) + ShortGain(s) + Moved(l, s.term, accounts, since)
  {
  }

  /** A sale this year raises the year's total by its gain and whatever its lots carried from earlier years, and the
      short-term part by its short-term gain and whatever changes term with it. */
  lemma SaleRaisesFigures(b: Book, account: int, symbol: string, quantity: real, price: real, how: LotMethod, at: int,
                          accounts: set<int>, since: int)
    requires LotTable(b) && 0.0 <= quantity <= Held(b.lots, account, symbol) && account in accounts && at >= since
    ensures var sold := SaleOf(b, account, symbol, quantity, price, how, at);
            var after := ApplySale(b.lots, sold, at);
      && SumBy(after, RealizedIn(accounts, since))
         == SumBy(b.lots, RealizedIn(accounts, since)) + SumBy(sold, Gain) + SumBy(sold, CarriedBy(b.lots, accounts, since))
      && SumBy(after, ShortRealizedIn(accounts, since))
         == SumBy(b.lots, ShortRealizedIn(accounts, since)) + SumBy(sold, ShortGain) + SumBy(sold, MovedBy(b.lots, accounts, since))
  {
    var sold := SaleRows(b, account, symbol, quantity, price, how, at);
    var carried, moved := CarriedBy(b.lots, accounts, since), MovedBy(b.lots, accounts, since);
    forall s | s in sold
      ensures RealizedIn(accounts, since)(Dispose(b.lots[s.lotId], s, at))
           == RealizedIn(accounts, since)(b.lots[s.lotId]) - FallOf(Gain, carried)(s)
      ensures ShortRealizedIn(accounts, since)(Dispose(b.lots[s.lotId], s, at))
           == ShortRealizedIn(accounts, since)(b.lots[s.lotId]) - FallOf(ShortGain, moved)(s)
    {
      assert Sound(b.lots[s.lotId], s, account, symbol, at);
      DisposalRealizes(b.lots[s.lotId], s, at, accounts, since);
    }
    ApplySaleTotal(b.lots, sold, at, RealizedIn(accounts, since), FallOf(Gain, carried));
    ApplySaleTotal(b.lots, sold, at, ShortRealizedIn(accounts, since), FallOf(ShortGain, moved));
    FallsAddUp(sold, Gain, carried);
    FallsAddUp(sold, ShortGain, moved);
  }

  // --- When the figures follow the sales ---------------------------------------------

  /** No gain on the lot predates the year. */
  predicate CarriesNothing(l: Lot, accounts: set<int>, since: int)
  {
    l.realizedGain == 0.0 || Counted(l, accounts, since)
  }

  /** The lot's gain so far, if any, is in the short-term figure exactly when it is short-term still at `at`. */
  predicate KeepsTerm(l: Lot, at: int, accounts: set<int>, since: int)
  {
    l.realizedGain == 0.0
    || (TermFor(l.acquiredAt, at) == ShortTerm <==> Counted(l, accounts, since) && l.term == Some(ShortTerm))
  }

  predicate TotalFollows(b: Book, sold: seq<Selection>, at: int, accounts: set<int>, since: int)
  {
    SumBy(ApplySale(b.lots, sold, at), RealizedIn(accounts, since)) == SumBy(b.lots, RealizedIn(accounts, since)) + SumBy(sold, Gain)
  }

  predicate ShortPartFollows(b: Book, sold: seq<Selection>, at: int, accounts: set<int>, since: int)
  {
    SumBy(ApplySale(b.lots, sold, at), ShortRealizedIn(accounts, since))
    == SumBy(b.lots, ShortRealizedIn(accounts, since)) + SumBy(sold, ShortGain)
  }

  /** Lots sold out, front to back. */
  function SoldOut(ordered: seq<Lot>, price: real, at: int): seq<Selection>
  {
    if ordered == [] then []
    else
      var l := ordered[|ordered| - 1];
      SoldOut(ordered[..|ordered| - 1], price, at) + [Take(l, l.remaining, price, at)]
  }

  lemma {:induction false} SoldOutHead(ordered: seq<Lot>, price: real, at: int)
    requires ordered != []
    ensures SoldOut(ordered, price, at) == [Take(ordered[0], ordered[0].remaining, price, at)] + SoldOut(ordered[1..], price, at)
  {
    if |ordered| > 1 {
      var n := |ordered| - 1;
      SoldOutHead(ordered[..n], price, at);
      assert ordered[..n][1..] == ordered[1..][..n - 1];
    }
  }

  /** Asking for what the first lots hold sells out just those. */
  lemma {:induction false} PrefixIsSoldOut(ordered: seq<Lot>, k: nat, price: real, at: int)
    requires k <= |ordered| && forall l :: l in ordered ==> l.remaining > 0.0
    ensures SumBy(ordered[..k], Remaining) >= 0.0
    ensures Consume(ordered, SumBy(ordered[..k], Remaining), price, at) == SoldOut(ordered[..k], price, at)
    decreases |ordered|
  {
    SumByNonnegative(ordered[..k], Remaining);
    if k > 0 {
      var first, rest := ordered[0], ordered[1..];
      PrefixIsSoldOut(rest, k - 1, price, at);
      assert ordered[..k][1..] == rest[..k - 1];
      SumByHead(ordered[..k], Remaining);
      SoldOutHead(ordered[..k], price, at);
    }
  }

  lemma {:induction false} SoldOutColumn(ordered: seq<Lot>, price: real, at: int, f: Selection -> real, c: Lot -> real)
    requires forall l :: l in ordered ==> f(Take(l, l.remaining, price, at)) == c(l)
    ensures SumBy(SoldOut(ordered, price, at), f) == SumBy(ordered, c)
  {
    if ordered != [] {
      var init, l := ordered[..|ordered| - 1], ordered[|ordered| - 1];
      assert ordered == init + [l];
      SoldOutColumn(init, price, at, f, c);
      SumByAppend(SoldOut(init, price, at), Take(l, l.remaining, price, at), f);
    }
  }

  /** If any row differs from zero, so does the total of some prefix. */
  lemma {:induction false} SomePrefixDiffers(ordered: seq<Lot>, c: Lot -> real, l: Lot) returns (k: nat)
    requires l in ordered && c(l) != 0.0
    ensures k <= |ordered| && SumBy(ordered[..k], c) != 0.0
  {
    var i :| 0 <= i < |ordered| && ordered[i] == l;
    assert ordered[..i + 1] == ordered[..i] + [l];
    SumByAppend(ordered[..i], l, c);
    k := if SumBy(ordered[..i], c) != 0.0 then i else i + 1;
  }

  /** A column read off the lots a sale touches is zero in total for every quantity exactly when it is zero on every open
      lot of the holding, whatever the price and the method. */
  lemma ColumnIsZeroExactly(b: Book, account: int, symbol: string, price: real, how: LotMethod, at: int, f: Selection -> real, c: Lot -> real)
    requires LotTable(b)
    requires forall i, x :: 0 <= i < |b.lots| ==> f(Take(b.lots[i], x, price, at)) == c(b.lots[i])
    ensures (forall quantity :: 0.0 <= quantity <= Held(b.lots, account, symbol)
               ==> SumBy(SaleOf(b, account, symbol, quantity, price, how, at), f) == 0.0)
       <==> forall l :: l in b.lots && IsOpen(l, account, symbol) ==> c(l) == 0.0
  {
    var lots := OpenLots(b.lots, account, symbol);
    var ordered := InSaleOrder(lots, price, how, at);
    OpenLotsMembers(b.lots, account, symbol);
    InSaleOrderMembers(lots, price, how, at);
    if l :| l in b.lots && IsOpen(l, account, symbol) && c(l) != 0.0 {
      var k := SomePrefixDiffers(ordered, c, l);
      PrefixAtMost(ordered, k);
      OrderedHoldAll(b, account, symbol, price, how, at);
      PrefixIsSoldOut(ordered, k, price, at);
      SoldOutColumn(ordered[..k], price, at, f, c);
      assert SumBy(SaleOf(b, account, symbol, SumBy(ordered[..k], Remaining), price, how, at), f) != 0.0;
    } else {
      forall quantity ensures SumBy(SaleOf(b, account, symbol, quantity, price, how, at), f) == 0.0 {
        SaleOfIsBacked(b, account, symbol, quantity, price, how, at);
        forall s | s in SaleOf(b, account, symbol, quantity, price, how, at) ensures f(s) == 0.0 {
          assert b.lots[s.lotId] in b.lots;
        }
        SumByZero(SaleOf(b, account, symbol, quantity, price, how, at), f);
      }
    }
  }

  lemma PrefixAtMost(ordered: seq<Lot>, k: nat)
    requires k <= |ordered| && forall l :: l in ordered ==> l.remaining > 0.0
    ensures SumBy(ordered[..k], Remaining) <= SumBy(ordered, Remaining)
  {
    assert ordered == ordered[..k] + ordered[k..];
    SumByConcat(ordered[..k], ordered[k..], Remaining);
    SumByNonnegative(ordered[k..], Remaining);
  }

  lemma OrderedHoldAll(b: Book, account: int, symbol: string, price: real, how: LotMethod, at: int)
    requires LotTable(b)
    ensures SumBy(InSaleOrder(OpenLots(b.lots, account, symbol), price, how, at), Remaining) == Held(b.lots, account, symbol)
  {
    var lots := OpenLots(b.lots, account, symbol);
    OpenLotsHoldAll(b.lots, account, symbol);
    StableSortSum(WithShares(lots), SaleRank(how, price, at), Remaining);
  }

  function CarriedOn(accounts: set<int>, since: int): Lot -> real
  {
    (l: Lot) => Carried(l, accounts, since)
  }

  function MovedOn(at: int, accounts: set<int>, since: int): Lot -> real
  {
    (l: Lot) => Moved(l, TermFor(l.acquiredAt, at), accounts, since)
  }

  /** The year's total follows every sale of a holding, whatever the price and the method, exactly when none of its open lots
      has a gain from before the year. */
  lemma FiguresFollowSalesExactly(b: Book, account: int, symbol: string, price: real, how: LotMethod, at: int,
                                  accounts: set<int>, since: int)
    requires LotTable(b) && account in accounts && at >= since
    ensures (forall quantity :: 0.0 <= quantity <= Held(b.lots, account, symbol)
               ==> TotalFollows(b, SaleOf(b, account, symbol, quantity, price, how, at), at, accounts, since))
       <==> forall l :: l in b.lots && IsOpen(l, account, symbol) ==> CarriesNothing(l, accounts, since)
  {
    ColumnIsZeroExactly(b, account, symbol, price, how, at, CarriedBy(b.lots, accounts, since), CarriedOn(accounts, since));
    forall quantity | 0.0 <= quantity <= Held(b.lots, account, symbol)
      ensures TotalFollows(b, SaleOf(b, account, symbol, quantity, price, how, at), at, accounts, since)
         <==> SumBy(SaleOf(b, account, symbol, quantity, price, how, at), CarriedBy(b.lots, accounts, since)) == 0.0
    {
      SaleRaisesFigures(b, account, symbol, quantity, price, how, at, accounts, since);
    }
    forall l ensures CarriedOn(accounts, since)(l) == 0.0 <==> CarriesNothing(l, accounts, since) {
    }
  }

  /** The short-term part follows every sale of a holding exactly when every open lot's gain so far is in it if and only if
      the lot is short-term still. */
  lemma ShortPartFollowsExactly(b: Book, account: int, symbol: string, price: real, how: LotMethod, at: int,
                                accounts: set<int>, since: int)
    requires LotTable(b) && account in accounts && at >= since
    ensures (forall quantity :: 0.0 <= quantity <= Held(b.lots, account, symbol)
               ==> ShortPartFollows(b, SaleOf(b, account, symbol, quantity, price, how, at), at, accounts, since))
       <==> forall l :: l in b.lots && IsOpen(l, account, symbol) ==> KeepsTerm(l, at, accounts, since)
  {
    ColumnIsZeroExactly(b, account, symbol, price, how, at, MovedBy(b.lots, accounts, since), MovedOn(at, accounts, since));
    forall quantity | 0.0 <= quantity <= Held(b.lots, account, symbol)
      ensures ShortPartFollows(b, SaleOf(b, account, symbol, quantity, price, how, at), at, accounts, since)
         <==> SumBy(SaleOf(b, account, symbol, quantity, price, how, at), MovedBy(b.lots, accounts, since)) == 0.0
    {
      SaleRaisesFigures(b, account, symbol, quantity, price, how, at, accounts, since);
    }
    forall l ensures MovedOn(at, accounts, since)(l) == 0.0 <==> KeepsTerm(l, at, accounts, since) {
    }
  }

  /** A long-term sale of a lot takes with it every short-term gain the lot realized before, in any amount. */
  lemma LaterSaleRelabels(l: Lot, first: Selection, second: Selection, at: int, later: int, accounts: set<int>, since: int)
    requires l.account in accounts && l.term.None? && l.realizedGain == 0.0
    requires first.term == ShortTerm && second.term == LongTerm && since <= at && since <= later
    ensures ShortRealizedIn(accounts, since)(Dispose(l, first, at)) == first.gain
    ensures ShortRealizedIn(accounts, since)(Dispose(Dispose(l, first, at), second, later)) == 0.0
    ensures RealizedIn(accounts, since)(Dispose(Dispose(l, first, at), second, later)) == first.gain + second.gain
  {
    DisposalRealizes(l, first, at, accounts, since);
    DisposalRealizes(Dispose(l, first, at), second, later, accounts, since);
  }

  /** Of a hundred shares bought at 20 and sold at 30, half are sold after a hundred days, a short-term gain of 500, and ten
      more after four hundred, a long-term gain of 100. The second sale takes the first one's gain out of the short-term
      figure, and into the total of a year that began in between. */
  lemma TwoSalesMisreport() returns (b: Book, first: Book, second: Book)
    ensures LotTable(b) && 1 in b.accounts
    ensures Sale(b, 1, "A", 50.0, 30.0, Hifo, 100 * DAY) == Some(first) && Sale(first, 1, "A", 10.0, 30.0, Hifo, 400 * DAY) == Some(second)
    ensures SumBy(first.lots, ShortRealizedIn({1}, 0)) == 500.0 && SumBy(second.lots, ShortRealizedIn({1}, 0)) == 0.0
    ensures SumBy(first.lots, RealizedIn({1}, 300 * DAY)) == 0.0 && SumBy(second.lots, RealizedIn({1}, 300 * DAY)) == 600.0
  {
    var l := UnsoldLot();
    b := OneLotTable(l);
    var m := OneLotSale(b, l, 50.0, 30.0, 100 * DAY);
    first := Sale(b, 1, "A", 50.0, 30.0, Hifo, 100 * DAY).value;
    var n := OneLotSale(first, m, 10.0, 30.0, 400 * DAY);
    second := Sale(first, 1, "A", 10.0, 30.0, Hifo, 400 * DAY).value;
    OnlyRow(first.lots, m);
    OnlyRow(second.lots, n);
  }

  lemma OneLotSale(b: Book, l: Lot, quantity: real, price: real, at: int) returns (after: Lot)
    requires b.lots == [l] && l.id == 0 && l.symbol == "A" && 0.0 < quantity <= l.remaining
    ensures Sale(b, l.account, "A", quantity, price, Hifo, at).Some?
    ensures Sale(b, l.account, "A", quantity, price, Hifo, at).value.lots == [after]
    ensures after == Dispose(l, Take(l, quantity, price, at), at)
  {
    assert OpenRows(b.lots, l.account, l.symbol) == [l] by {
      assert b.lots[..0] == [];
    }
    OnlyOpenLotIsSold(b, l, quantity, price, Hifo, at);
    after := Dispose(l, Take(l, quantity, price, at), at);
  }

  lemma OnlyRow(lots: seq<Lot>, l: Lot)
    requires lots == [l]
    ensures forall f: Lot -> real :: SumBy(lots, f) == f(l)
  {
    forall f: Lot -> real ensures SumBy(lots, f) == f(l) {
      assert lots[..0] == [];
    }
  }
}
