/** What holds in every state the order lifecycle can reach, and what every run conserves. */
module LedgerInvariants {
  import opened Wrappers
  import opened Sums
  import opened TaxLots
  import opened LotSelection
  import opened Books
  import opened LotWrites
  import opened Broker

  // --- The invariant -------------------------------------------------------------

  /** A position exists exactly when open lots hold shares, and rolls them up exactly. */
  predicate RollupAt(b: Book, account: int, symbol: string)
  {
    var held := Held(b.lots, account, symbol);
    && ((account, symbol) in b.positions <==> held > 0.0)
    && ((account, symbol) in b.positions ==>
          && b.positions[(account, symbol)].quantity == held
          && b.positions[(account, symbol)].averageCost == SumBy(b.lots, OpenBasis(account, symbol)) / held)
  }

  ghost predicate Rollup(b: Book)
  {
    forall account, symbol :: RollupAt(b, account, symbol)
  }

  /** Cash is reserved only by an open buy, and an open order is wholly unfilled. */
  predicate OrderOk(b: Book, o: Order)
  {
    && o.account in b.accounts
    && o.quantity > 0.0
    && o.reserved >= 0.0
    && (o.reserved > 0.0 ==> o.side == Buy && OpenStatus(o.status))
    && (OpenStatus(o.status) ==> o.filled == 0.0)
  }

  function ReservedBy(account: int): Order -> real
  {
    (o: Order) => if o.account == account then o.reserved else 0.0
  }

  predicate HoldAt(b: Book, account: int)
    requires account in b.accounts
  {
    b.accounts[account].hold == SumBy(b.orders, ReservedBy(account))
  }

  /** Shares promised to open sells never exceed the shares held. */
  predicate CommittedAt(b: Book, account: int, symbol: string)
  {
    OpenSellQuantity(b.orders, account, symbol) <= Held(b.lots, account, symbol)
  }

  ghost predicate Inv(b: Book)
  {
    && LotsOk(b.lots)
    && (forall l :: l in b.lots ==> l.account in b.accounts)
    && Rollup(b)
    && (forall o :: o in b.orders ==> OrderOk(b, o))
    && (forall a :: a in b.accounts ==> HoldAt(b, a))
    && (forall account, symbol :: CommittedAt(b, account, symbol))
  }

  // --- Runs ----------------------------------------------------------------------

  datatype Step =
    | CreateStep(request: Request, quote: Option<real>)
    | SubmitStep(id: nat, quote: Option<real>, how: LotMethod, at: int)
    | CancelStep(id: nat)

  /** Orders are created open, for an account that exists; submit and cancel name an order; a failed
      order is not submitted again. */
  predicate Legal(b: Book, step: Step)
  {
    match step
    case CreateStep(r, _) => r.account in b.accounts && OpenStatus(r.status)
    case SubmitStep(id, _, _, _) => id < |b.orders| && b.orders[id].status != Failed
    case CancelStep(id) => id < |b.orders|
  }

  function Apply(b: Book, cfg: Settings, step: Step): (Book, Outcome)
    requires Legal(b, step)
  {
    match step
    case CreateStep(r, quote) => Create(b, cfg, r, quote)
    case SubmitStep(id, quote, how, at) => Submit(b, cfg, id, quote, how, at)
    case CancelStep(id) => Cancel(b, id)
  }

  predicate LegalRun(b: Book, cfg: Settings, steps: seq<Step>)
    decreases |steps|
  {
    steps == [] || (Legal(b, steps[0]) && LegalRun(Apply(b, cfg, steps[0]).0, cfg, steps[1..]))
  }

  function Run(b: Book, cfg: Settings, steps: seq<Step>): Book
    requires LegalRun(b, cfg, steps)
    decreases |steps|
  {
    if steps == [] then b else Run(Apply(b, cfg, steps[0]).0, cfg, steps[1..])
  }

  // --- Creating ------------------------------------------------------------------

  lemma SameRollup(b: Book, c: Book)
    requires Rollup(b) && c.lots == b.lots && c.positions == b.positions
    ensures Rollup(c)
  {
    forall account, symbol ensures RollupAt(c, account, symbol) {
      assert RollupAt(b, account, symbol);
    }
  }

  lemma HeldIsNonnegative(lots: seq<Lot>, account: int, symbol: string)
    requires LotsOk(lots)
    ensures Held(lots, account, symbol) >= 0.0
  {
    SumByNonnegative(lots, OpenShares(account, symbol));
  }

  lemma CreatedKeepsInv(b: Book, cfg: Settings, r: Request, quote: Option<real>)
    requires Inv(b) && Legal(b, CreateStep(r, quote))
    requires r.side.Some? && r.quantity > 0.0 && 0.0 <= cfg.minOrder && Refuses(b, cfg, r, quote).None?
    ensures Inv(Created(b, r, quote.value))
  {
    var c := Created(b, r, quote.value);
    var o := c.orders[|b.orders|];
    SameRollup(b, c);
    assert o.reserved >= 0.0 by {
      assert Amount(Amount(r.quantity, quote.value), RESERVE_MARGIN) >= 0.0;
    }
    forall a | a in c.accounts ensures HoldAt(c, a) {
      assert HoldAt(b, a);
      SumByAppend(b.orders, o, ReservedBy(a));
    }
    forall account, symbol ensures CommittedAt(c, account, symbol) {
      assert CommittedAt(b, account, symbol) && RollupAt(b, account, symbol);
      SumByAppend(b.orders, o, Committed(account, symbol));
      HeldIsNonnegative(b.lots, account, symbol);
    }
    forall x | x in c.orders ensures OrderOk(c, x) {
      if x != o {
        assert x in b.orders && OrderOk(b, x);
      }
    }
  }

  // --- Closing an order ----------------------------------------------------------

  lemma ReleaseKeepsHolds(b: Book, id: nat)
    requires id < |b.orders| && b.orders[id].account in b.accounts
    requires forall o :: o in b.orders ==> OrderOk(b, o)
    requires forall a :: a in b.accounts ==> HoldAt(b, a)
    ensures var c := Release(b, id);
      && c.orders == b.orders[id := b.orders[id].(reserved := 0.0)]
      && c.accounts == b.accounts[b.orders[id].account :=
           b.accounts[b.orders[id].account].(hold := b.accounts[b.orders[id].account].hold - b.orders[id].reserved)]
      && c.lots == b.lots && c.positions == b.positions && c.executions == b.executions
      && forall a :: a in c.accounts ==> HoldAt(c, a)
  {
    var o := b.orders[id];
    var c := Release(b, id);
    assert o in b.orders && OrderOk(b, o);
    assert HoldAt(b, o.account);
    forall x | x in b.orders ensures 0.0 <= ReservedBy(o.account)(x) {
      assert OrderOk(b, x);
    }
    SumByNonnegative(b.orders, ReservedBy(o.account));
    assert ReservedBy(o.account)(o) <= SumBy(b.orders, ReservedBy(o.account));
    if o.reserved <= 0.0 {
      assert b.orders == b.orders[id := o.(reserved := 0.0)];
    }
    forall a | a in c.accounts ensures HoldAt(c, a) {
      assert HoldAt(b, a);
      SumByUpdate(b.orders, id, o.(reserved := 0.0), ReservedBy(a));
    }
  }

  /** Replacing an order by a closed one that reserves nothing can only free committed shares. */
  lemma ClosingFreesShares(orders: seq<Order>, id: nat, closed: Order, account: int, symbol: string)
    requires id < |orders| && !OpenStatus(closed.status)
    ensures OpenSellQuantity(orders[id := closed], account, symbol)
         == OpenSellQuantity(orders, account, symbol) - Committed(account, symbol)(orders[id])
  {
    SumByUpdate(orders, id, closed, Committed(account, symbol));
  }

  lemma ReleasedStatusKeepsInv(b: Book, id: nat, status: Status)
    requires Inv(b) && id < |b.orders| && !OpenStatus(status)
    ensures Inv(SetStatus(Release(b, id), id, status))
    ensures SetStatus(Release(b, id), id, status) == Release(SetStatus(b, id, status), id)
  {
    var o := b.orders[id];
    assert o in b.orders && OrderOk(b, o);
    ReleaseKeepsHolds(b, id);
    var r := Release(b, id);
    var c := SetStatus(r, id, status);
    var closed := c.orders[id];
    assert c.orders == b.orders[id := closed];
    SameRollup(b, c);
    forall a | a in c.accounts ensures HoldAt(c, a) {
      assert HoldAt(r, a);
      SumByUpdate(r.orders, id, closed, ReservedBy(a));
    }
    forall account, symbol ensures CommittedAt(c, account, symbol) {
      assert CommittedAt(b, account, symbol);
      ClosingFreesShares(b.orders, id, closed, account, symbol);
    }
    forall x | x in c.orders ensures OrderOk(c, x) {
      if x != closed {
        assert x in b.orders && OrderOk(b, x);
      }
    }
  }

  // --- Lot writes ----------------------------------------------------------------

  /** Basis still open less gain already realized: what an account's lots contribute to its books. */
  function BookValue(account: int): Lot -> real
  {
    (l: Lot) => if l.account == account then Amount(l.remaining, l.cost) - l.realizedGain else 0.0
  }

  predicate SameHolding(before: seq<Lot>, after: seq<Lot>, account: int, symbol: string)
  {
    && Held(after, account, symbol) == Held(before, account, symbol)
    && SumBy(after, OpenBasis(account, symbol)) == SumBy(before, OpenBasis(account, symbol))
  }

  lemma RebuildKeepsRollup(b: Book, lots: seq<Lot>, account: int, symbol: string)
    requires Rollup(b) && LotsOk(lots)
    requires forall a, s :: (a, s) != (account, symbol) ==> SameHolding(b.lots, lots, a, s)
    ensures Rollup(RebuildPosition(b.(lots := lots), account, symbol))
  {
    var c := RebuildPosition(b.(lots := lots), account, symbol);
    forall a, s ensures RollupAt(c, a, s) {
      assert RollupAt(b, a, s);
      if (a, s) != (account, symbol) {
        assert SameHolding(b.lots, lots, a, s);
      }
    }
  }

  lemma SpreadOverShares(quantity: real, price: real, deferred: real)
    requires quantity > 0.0
    ensures Amount(quantity, price + deferred / quantity) == Amount(quantity, price) + deferred
  {
    assert quantity * (deferred / quantity) == deferred;
  }

  lemma OpenedLotOk(id: nat, account: int, symbol: string, quantity: real, price: real, deferred: real, at: int)
    requires quantity > 0.0
    ensures var l := OpenedLot(id, account, symbol, quantity, price, deferred, at);
      LotOk(l) && Amount(l.remaining, l.cost) == Amount(quantity, price) + deferred
  {
    SpreadOverShares(quantity, price, deferred);
    assert Amount(0.0, OpenedLot(id, account, symbol, quantity, price, deferred, at).cost) == 0.0;
  }

  /** The lots of an account are in order: rows are sound and belong to known accounts. */
  predicate LotTable(b: Book)
  {
    LotsOk(b.lots) && forall l :: l in b.lots ==> l.account in b.accounts
  }

  /** A table of one lot. */
  lemma OneLotTable(l: Lot) returns (b: Book)
    requires l.id == 0 && LotOk(l)
    ensures LotTable(b) && b.lots == [l] && b.accounts == map[l.account := Account(1, 1, true, 0.0, 0.0)]
  {
    b := Book(map[l.account := Account(1, 1, true, 0.0, 0.0)], [], [l], map[], []);
  }

  lemma UnsoldLot() returns (l: Lot)
    ensures l.id == 0 && l.account == 1 && l.symbol == "A" && l.acquiredAt == 0 && LotOk(l)
    ensures l.quantity == 100.0 == l.remaining && l.cost == 20.0 && l.realizedGain == 0.0
  {
    l := Lot(0, 1, "A", 100.0, 100.0, 20.0, 0, None, 0.0, 0.0, None, 0.0, None);
    assert Amount(0.0, l.cost) == 0.0;
  }

  /** A purchase is one appended lot, after at most a note on the lot it replaces. */
  lemma PurchaseRows(b: Book, account: int, symbol: string, quantity: real, price: real, at: int)
    returns (marked: seq<Lot>, lot: Lot)
    requires LotTable(b) && account in b.accounts && quantity > 0.0
    ensures Purchase(b, account, symbol, quantity, price, at).lots == marked + [lot]
    ensures marked == b.lots || exists i, d, n :: 0 <= i < |b.lots| && marked == b.lots[i := Marked(b.lots[i], d, n)]
    ensures lot.id == |b.lots| && lot.account == account && lot.symbol == symbol
    ensures lot.quantity == quantity == lot.remaining && lot.realizedGain == 0.0 && LotOk(lot)
    ensures Amount(lot.remaining, lot.cost) == Amount(quantity, price) + Deferral(b, account, symbol, quantity, at)
  {
    var c := Purchase(b, account, symbol, quantity, price, at);
    var deferred := Deferral(b, account, symbol, quantity, at);
    lot, marked := c.lots[|b.lots|], c.lots[..|b.lots|];
    OpenedLotOk(|b.lots|, account, symbol, quantity, price, deferred, at);
    if deferred != 0.0 {
      var r := Replaced(b, account, symbol, quantity, at);
      assert marked == b.lots[r.value := Marked(b.lots[r.value], deferred, Some(|b.lots|))];
    }
  }

  function Marked(l: Lot, deferred: real, newer: Option<nat>): Lot
  {
    l.(washSaleDisallowed := deferred, replacementLot := newer)
  }

  /** Noting a deferral on a lot changes no total a note does not mention. */
  lemma MarkingKeepsTotal(lots: seq<Lot>, marked: seq<Lot>, f: Lot -> real)
    requires marked == lots || exists i, d, n :: 0 <= i < |lots| && marked == lots[i := Marked(lots[i], d, n)]
    requires forall l, d, n :: f(Marked(l, d, n)) == f(l)
    ensures SumBy(marked, f) == SumBy(lots, f)
  {
    if marked != lots {
      var i, d, n :| 0 <= i < |lots| && marked == lots[i := Marked(lots[i], d, n)];
      SumByUpdate(lots, i, Marked(lots[i], d, n), f);
    }
  }

  lemma MarkedRowIsSound(lots: seq<Lot>, marked: seq<Lot>, i: nat)
    requires marked == lots || exists k, d, n :: 0 <= k < |lots| && marked == lots[k := Marked(lots[k], d, n)]
    requires i < |lots| && LotOk(lots[i])
    ensures |marked| == |lots| && marked[i].id == lots[i].id && marked[i].account == lots[i].account && LotOk(marked[i])
  {
    if marked != lots {
      var k, d, n :| 0 <= k < |lots| && marked == lots[k := Marked(lots[k], d, n)];
    }
  }

  lemma PurchaseKeepsTable(b: Book, account: int, symbol: string, quantity: real, price: real, at: int)
    requires LotTable(b) && account in b.accounts && quantity > 0.0
    ensures LotTable(Purchase(b, account, symbol, quantity, price, at))
  {
    var marked, lot := PurchaseRows(b, account, symbol, quantity, price, at);
    var after := marked + [lot];
    forall i | 0 <= i < |after| ensures after[i].id == i && LotOk(after[i]) && after[i].account in b.accounts {
      if i < |b.lots| {
        assert b.lots[i] in b.lots;
        MarkedRowIsSound(b.lots, marked, i);
      }
    }
    assert LotsOk(after);
  }

  /** A purchase adds its shares to one holding and to no other. */
  lemma PurchaseHeld(b: Book, account: int, symbol: string, quantity: real, price: real, at: int, a: int, s: string)
    requires LotTable(b) && account in b.accounts && quantity > 0.0
    ensures var after := Purchase(b, account, symbol, quantity, price, at).lots;
      if (a, s) == (account, symbol) then Held(after, a, s) == Held(b.lots, a, s) + quantity
      else SameHolding(b.lots, after, a, s)
  {
    var marked, lot := PurchaseRows(b, account, symbol, quantity, price, at);
    MarkingKeepsTotal(b.lots, marked, OpenShares(a, s));
    MarkingKeepsTotal(b.lots, marked, OpenBasis(a, s));
    SumByAppend(marked, lot, OpenShares(a, s));
    SumByAppend(marked, lot, OpenBasis(a, s));
  }

  /** A purchase adds to the account's books what was paid plus the wash-sale loss it inherits. */
  lemma PurchaseBooks(b: Book, account: int, symbol: string, quantity: real, price: real, at: int, a: int)
    requires LotTable(b) && account in b.accounts && quantity > 0.0
    ensures var after := Purchase(b, account, symbol, quantity, price, at).lots;
      SumBy(after, BookValue(a)) == SumBy(b.lots, BookValue(a))
        + if a == account then Amount(quantity, price) + Deferral(b, account, symbol, quantity, at) else 0.0
  {
    var marked, lot := PurchaseRows(b, account, symbol, quantity, price, at);
    MarkingKeepsTotal(b.lots, marked, BookValue(a));
    SumByAppend(marked, lot, BookValue(a));
  }

  lemma PurchaseKeepsRollup(b: Book, account: int, symbol: string, quantity: real, price: real, at: int)
    requires LotTable(b) && Rollup(b) && account in b.accounts && quantity > 0.0
    ensures Rollup(Purchase(b, account, symbol, quantity, price, at))
  {
    var c := Purchase(b, account, symbol, quantity, price, at);
    PurchaseKeepsTable(b, account, symbol, quantity, price, at);
    forall a, s | (a, s) != (account, symbol) ensures SameHolding(b.lots, c.lots, a, s) {
      PurchaseHeld(b, account, symbol, quantity, price, at, a, s);
    }
    RebuildKeepsRollup(b, c.lots, account, symbol);
  }

  lemma DisposeKeepsLot(l: Lot, s: Selection, price: real, at: int)
    requires LotOk(l) && 0.0 < s.quantity <= l.remaining && s == Take(l, s.quantity, price, at)
    ensures LotOk(Dispose(l, s, at))
    ensures Dispose(l, s, at).remaining == l.remaining - s.quantity
    ensures Amount(l.remaining - s.quantity, l.cost) - (l.realizedGain + s.gain)
         == Amount(l.remaining, l.cost) - l.realizedGain - s.proceeds
  {
    AmountAdds(l.remaining, s.quantity, l.cost);
    AmountAdds(l.quantity - l.remaining, s.quantity, l.cost);
    assert l.quantity - (l.remaining - s.quantity) == l.quantity - l.remaining + s.quantity;
  }

  function SharesOf(mine: bool): Selection -> real
  {
    (s: Selection) => if mine then s.quantity else 0.0
  }

  function ProceedsOf(mine: bool): Selection -> real
  {
    (s: Selection) => if mine then s.proceeds else 0.0
  }

  lemma SumByGated(sold: seq<Selection>, mine: bool)
    ensures SumBy(sold, SharesOf(mine)) == if mine then SumBy(sold, Shares) else 0.0
    ensures SumBy(sold, ProceedsOf(mine)) == if mine then SumBy(sold, Proceeds) else 0.0
  {
    if mine {
      SumByEqual(sold, SharesOf(mine), Shares);
      SumByEqual(sold, ProceedsOf(mine), Proceeds);
    } else {
      SumByZero(sold, SharesOf(mine));
      SumByZero(sold, ProceedsOf(mine));
    }
  }

  /** A sale of shares that are held succeeds. */
  lemma SaleRows(b: Book, account: int, symbol: string, quantity: real, price: real, how: LotMethod, at: int)
    returns (sold: seq<Selection>)
    requires LotTable(b) && 0.0 <= quantity <= Held(b.lots, account, symbol)
    ensures sold == SaleOf(b, account, symbol, quantity, price, how, at)
    ensures Backed(b.lots, sold) && NamesOnce(sold)
    ensures SumBy(sold, Shares) == quantity && SumBy(sold, Proceeds) == Amount(quantity, price)
    ensures Sale(b, account, symbol, quantity, price, how, at)
         == Some(RebuildPosition(b.(lots := ApplySale(b.lots, sold, at)), account, symbol))
    ensures forall s :: s in sold ==> Sound(b.lots[s.lotId], s, account, symbol, at)
  {
    sold := SaleOf(b, account, symbol, quantity, price, how, at);
    SaleIsComplete(b, account, symbol, quantity, price, how, at);
    SaleOfIsBacked(b, account, symbol, quantity, price, how, at);
    SaleNamesOnce(b, account, symbol, quantity, price, how, at);
    forall s | s in sold ensures Sound(b.lots[s.lotId], s, account, symbol, at) {
      assert b.lots[s.lotId] in b.lots;
      DisposeKeepsLot(b.lots[s.lotId], s, price, at);
    }
  }

  /** A disposal keeps its lot's row sound, lowers what remains by the shares sold and what the lot
      contributes to the books by the proceeds. */
  predicate Sound(l: Lot, s: Selection, account: int, symbol: string, at: int)
  {
    var d := Dispose(l, s, at);
    && l.account == account && l.symbol == symbol
    && LotOk(d)
    && d.remaining == l.remaining - s.quantity
    && Amount(d.remaining, d.cost) - d.realizedGain == Amount(l.remaining, l.cost) - l.realizedGain - s.proceeds
  }

  lemma SaleKeepsTable(b: Book, account: int, symbol: string, quantity: real, price: real, how: LotMethod, at: int)
    requires LotTable(b) && 0.0 <= quantity <= Held(b.lots, account, symbol)
    ensures var c := Sale(b, account, symbol, quantity, price, how, at); c.Some? && LotTable(c.value)
  {
    var sold := SaleRows(b, account, symbol, quantity, price, how, at);
    SaleRowsOk(b.lots, sold, at);
    var after := ApplySale(b.lots, sold, at);
    forall l | l in after ensures l.account in b.accounts {
      var i :| 0 <= i < |after| && after[i] == l;
      assert b.lots[i] in b.lots;
    }
  }

  /** A sale takes exactly its shares from one holding and nothing from any other. */
  lemma SaleHeld(b: Book, account: int, symbol: string, quantity: real, price: real, how: LotMethod, at: int, a: int, s: string)
    requires LotTable(b) && 0.0 <= quantity <= Held(b.lots, account, symbol)
    ensures var c := Sale(b, account, symbol, quantity, price, how, at);
      && c.Some?
      && if (a, s) == (account, symbol) then Held(c.value.lots, a, s) == Held(b.lots, a, s) - quantity
         else SameHolding(b.lots, c.value.lots, a, s)
  {
    var sold := SaleRows(b, account, symbol, quantity, price, how, at);
    var mine := (a, s) == (account, symbol);
    SumByGated(sold, mine);
    ApplySaleTotal(b.lots, sold, at, OpenShares(a, s), SharesOf(mine));
    if !mine {
      ApplySaleTotal(b.lots, sold, at, OpenBasis(a, s), SharesOf(false));
    }
  }

  /** A sale takes from the account's books exactly what the shares were sold for. */
  lemma SaleBooks(b: Book, account: int, symbol: string, quantity: real, price: real, how: LotMethod, at: int, a: int)
    requires LotTable(b) && 0.0 <= quantity <= Held(b.lots, account, symbol)
    ensures var c := Sale(b, account, symbol, quantity, price, how, at);
      && c.Some?
      && SumBy(c.value.lots, BookValue(a)) == SumBy(b.lots, BookValue(a)) - if a == account then Amount(quantity, price) else 0.0
  {
    var sold := SaleRows(b, account, symbol, quantity, price, how, at);
    SumByGated(sold, a == account);
    ApplySaleTotal(b.lots, sold, at, BookValue(a), ProceedsOf(a == account));
  }

  lemma SaleKeepsRollup(b: Book, account: int, symbol: string, quantity: real, price: real, how: LotMethod, at: int)
    requires LotTable(b) && Rollup(b) && 0.0 <= quantity <= Held(b.lots, account, symbol)
    ensures var c := Sale(b, account, symbol, quantity, price, how, at); c.Some? && Rollup(c.value)
  {
    var sold := SaleRows(b, account, symbol, quantity, price, how, at);
    SaleKeepsTable(b, account, symbol, quantity, price, how, at);
    var lots := ApplySale(b.lots, sold, at);
    forall a, s | (a, s) != (account, symbol) ensures SameHolding(b.lots, lots, a, s) {
      SaleHeld(b, account, symbol, quantity, price, how, at, a, s);
    }
    RebuildKeepsRollup(b, lots, account, symbol);
  }

  lemma SaleRowsOk(lots: seq<Lot>, sold: seq<Selection>, at: int)
    requires LotsOk(lots) && Backed(lots, sold) && NamesOnce(sold)
    requires forall s :: s in sold ==> LotOk(Dispose(lots[s.lotId], s, at))
    ensures LotsOk(ApplySale(lots, sold, at))
    ensures forall i :: 0 <= i < |lots| ==> ApplySale(lots, sold, at)[i].account == lots[i].account
  {
    var after := ApplySale(lots, sold, at);
    ApplySaleRows(lots, sold, at);
    forall i | 0 <= i < |lots|
      ensures after[i].id == i && LotOk(after[i]) && after[i].account == lots[i].account
    {
      assert lots[i] in lots;
      if exists s :: s in sold && s.lotId == i {
        var s :| s in sold && s.lotId == i;
      }
    }
  }
}
