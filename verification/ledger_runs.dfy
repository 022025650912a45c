/** Every run of creates, submits and cancels: the invariant is kept, a promised share is always
    there to sell, the books balance, and cash covers what is reserved. */
module LedgerRuns {
  import opened Wrappers
  import opened Sums
  import opened Ordering
  import opened TaxLots
  import opened LotSelection
  import opened Books
  import opened LotWrites
  import opened Broker
  import opened LedgerInvariants

  // --- Fills keep the invariant ----------------------------------------------------

  lemma KnownOrder(b: Book, id: nat)
    requires Inv(b) && id < |b.orders|
    ensures OrderOk(b, b.orders[id])
  {
    assert b.orders[id] in b.orders;
  }

  /** An open sell order's shares are still held, whatever was filled or cancelled meanwhile. */
  lemma PromisedSharesAreHeld(b: Book, id: nat)
    requires Inv(b) && id < |b.orders|
    requires b.orders[id].side == Sell && OpenStatus(b.orders[id].status)
    ensures 0.0 < b.orders[id].quantity <= Held(b.lots, b.orders[id].account, b.orders[id].symbol)
  {
    var o := b.orders[id];
    KnownOrder(b, id);
    forall x | x in b.orders ensures 0.0 <= Committed(o.account, o.symbol)(x) {
      assert OrderOk(b, x);
    }
    SumByNonnegative(b.orders, Committed(o.account, o.symbol));
    assert o in b.orders;
    assert Committed(o.account, o.symbol)(o) == o.quantity;
    assert CommittedAt(b, o.account, o.symbol);
  }

  /** Once the lots, rollup and holds of a fill are in place, closing its order restores the rest. */
  lemma FilledKeepsInv(b: Book, c: Book, id: nat)
    requires Inv(b) && id < |b.orders| && OpenStatus(b.orders[id].status)
    requires LotTable(c) && Rollup(c) && c.accounts.Keys == b.accounts.Keys
    requires c.orders == b.orders[id := FilledOrder(b.orders[id].(reserved := 0.0))]
    requires forall a :: a in c.accounts ==> HoldAt(c, a)
    requires var o := b.orders[id];
      forall a, s :: Held(c.lots, a, s) >= Held(b.lots, a, s) - Committed(a, s)(o)
    ensures Inv(c)
  {
    var o, closed := b.orders[id], c.orders[id];
    KnownOrder(b, id);
    forall a, s ensures CommittedAt(c, a, s) {
      assert CommittedAt(b, a, s);
      ClosingFreesShares(b.orders, id, closed, a, s);
    }
    forall x | x in c.orders ensures OrderOk(c, x) {
      if x != closed {
        assert x in b.orders && OrderOk(b, x);
      }
    }
  }

  lemma MoveCashKeepsHolds(b: Book, account: int, amount: real)
    requires account in b.accounts && forall a :: a in b.accounts ==> HoldAt(b, a)
    ensures forall a :: a in b.accounts ==> HoldAt(MoveCash(b, account, amount), a)
  {
    forall a | a in b.accounts ensures HoldAt(MoveCash(b, account, amount), a) {
      assert HoldAt(b, a);
    }
  }

  lemma FillingKeepsHolds(b: Book, id: nat)
    requires id < |b.orders| && b.orders[id].reserved == 0.0
    requires forall a :: a in b.accounts ==> HoldAt(b, a)
    ensures forall a :: a in b.accounts ==> HoldAt(b.(orders := b.orders[id := FilledOrder(b.orders[id])]), a)
  {
    forall a | a in b.accounts ensures HoldAt(b.(orders := b.orders[id := FilledOrder(b.orders[id])]), a) {
      assert HoldAt(b, a);
      SumByUpdate(b.orders, id, FilledOrder(b.orders[id]), ReservedBy(a));
    }
  }

  /** A purchase paid for: cash moved and the order's reservation released. */
  function PaidFor(b: Book, id: nat, fill: Fill, at: int): Book
    requires id < |b.orders| && b.orders[id].account in b.accounts
  {
    var o := b.orders[id];
    Release(MoveCash(Purchase(b, o.account, o.symbol, o.quantity, fill.price, at), o.account, -fill.net), id)
  }

  lemma PaidForTables(b: Book, id: nat, fill: Fill, at: int)
    requires Inv(b) && id < |b.orders| && b.orders[id].account in b.accounts
    ensures var o := b.orders[id];
            var c := PaidFor(b, id, fill, at);
            var p := Purchase(b, o.account, o.symbol, o.quantity, fill.price, at);
            var payer := b.accounts[o.account];
      && c.lots == p.lots && c.positions == p.positions
      && c.orders == b.orders[id := o.(reserved := 0.0)]
      && c.accounts == b.accounts[o.account := payer.(cash := payer.cash - fill.net, hold := payer.hold - o.reserved)]
      && forall a :: a in c.accounts ==> HoldAt(c, a)
  {
    var o := b.orders[id];
    var p := Purchase(b, o.account, o.symbol, o.quantity, fill.price, at);
    forall a | a in p.accounts ensures HoldAt(p, a) {
      assert HoldAt(b, a);
    }
    MoveCashKeepsHolds(p, o.account, -fill.net);
    var moved := MoveCash(p, o.account, -fill.net);
    forall x | x in moved.orders ensures OrderOk(moved, x) {
      assert OrderOk(b, x);
    }
    ReleaseKeepsHolds(moved, id);
  }

  /** The tables after a buy fills, field by field. */
  lemma BuyFilledTables(b: Book, id: nat, fill: Fill, at: int)
    requires Inv(b) && id < |b.orders| && OpenStatus(b.orders[id].status)
    ensures var o := b.orders[id];
      && o.account in b.accounts && o.quantity > 0.0
      && var c := BuyFilled(b, id, fill, at);
         var p := Purchase(b, o.account, o.symbol, o.quantity, fill.price, at);
         var payer := b.accounts[o.account];
      && c.lots == p.lots && c.positions == p.positions
      && c.orders == b.orders[id := FilledOrder(o.(reserved := 0.0))]
      && c.accounts == b.accounts[o.account := payer.(cash := payer.cash - fill.net, hold := payer.hold - o.reserved)]
      && forall a :: a in c.accounts ==> HoldAt(c, a)
  {
    KnownOrder(b, id);
    PaidForTables(b, id, fill, at);
    var paid := PaidFor(b, id, fill, at);
    FillingKeepsHolds(paid, id);
    var done := paid.(orders := paid.orders[id := FilledOrder(paid.orders[id])]);
    var c := BuyFilled(b, id, fill, at);
    forall a | a in c.accounts ensures HoldAt(c, a) {
      assert HoldAt(done, a);
    }
  }

  lemma BuyFilledKeepsInv(b: Book, id: nat, fill: Fill, at: int)
    requires Inv(b) && id < |b.orders|
    requires b.orders[id].side == Buy && OpenStatus(b.orders[id].status) && b.orders[id].account in b.accounts
    ensures Inv(BuyFilled(b, id, fill, at))
  {
    var o := b.orders[id];
    KnownOrder(b, id);
    BuyFilledTables(b, id, fill, at);
    var c := BuyFilled(b, id, fill, at);
    var p := Purchase(b, o.account, o.symbol, o.quantity, fill.price, at);
    PurchaseKeepsTable(b, o.account, o.symbol, o.quantity, fill.price, at);
    PurchaseKeepsRollup(b, o.account, o.symbol, o.quantity, fill.price, at);
    SameRollup(p, c);
    forall a, s ensures Held(c.lots, a, s) >= Held(b.lots, a, s) - Committed(a, s)(o) {
      PurchaseHeld(b, o.account, o.symbol, o.quantity, fill.price, at, a, s);
    }
    FilledKeepsInv(b, c, id);
  }

  /** The tables after a sell fills, field by field; an open sell always does. */
  lemma SellFilledTables(b: Book, id: nat, fill: Fill, how: LotMethod, at: int)
    requires Inv(b) && id < |b.orders|
    requires b.orders[id].side == Sell && OpenStatus(b.orders[id].status) && b.orders[id].account in b.accounts
    ensures var o := b.orders[id];
            var c := SellFilled(b, id, fill, how, at);
            var s := Sale(b, o.account, o.symbol, o.quantity, fill.price, how, at);
            var payer := b.accounts[o.account];
      && s.Some? && c.Some?
      && c.value.lots == s.value.lots && c.value.positions == s.value.positions
      && c.value.orders == b.orders[id := FilledOrder(o)] && o.reserved == 0.0
      && c.value.accounts == b.accounts[o.account := payer.(cash := payer.cash + fill.net)]
  {
    var o := b.orders[id];
    KnownOrder(b, id);
    PromisedSharesAreHeld(b, id);
    SaleKeepsTable(b, o.account, o.symbol, o.quantity, fill.price, how, at);
  }

  lemma SellFilledKeepsInv(b: Book, id: nat, fill: Fill, how: LotMethod, at: int)
    requires Inv(b) && id < |b.orders|
    requires b.orders[id].side == Sell && OpenStatus(b.orders[id].status) && b.orders[id].account in b.accounts
    ensures var c := SellFilled(b, id, fill, how, at); c.Some? && Inv(c.value)
  {
    var o := b.orders[id];
    KnownOrder(b, id);
    PromisedSharesAreHeld(b, id);
    SellFilledTables(b, id, fill, how, at);
    SaleKeepsTable(b, o.account, o.symbol, o.quantity, fill.price, how, at);
    SaleKeepsRollup(b, o.account, o.symbol, o.quantity, fill.price, how, at);
    var c := SellFilled(b, id, fill, how, at).value;
    SameRollup(Sale(b, o.account, o.symbol, o.quantity, fill.price, how, at).value, c);
    forall a, s ensures Held(c.lots, a, s) >= Held(b.lots, a, s) - Committed(a, s)(o) {
      SaleHeld(b, o.account, o.symbol, o.quantity, fill.price, how, at, a, s);
    }
    assert o.(reserved := 0.0) == o;
    forall a | a in c.accounts ensures HoldAt(c, a) {
      assert HoldAt(b, a);
      SumByUpdate(b.orders, id, FilledOrder(o), ReservedBy(a));
    }
    FilledKeepsInv(b, c, id);
  }

  // --- One step --------------------------------------------------------------------

  /** Submitting leaves the tables alone, fails the order, or fills it. */
  datatype Submission = Untouched | Failing | Bought(fill: Fill) | Sold(fill: Fill)

  function SubmissionOf(b: Book, cfg: Settings, id: nat, quote: Option<real>): Submission
    requires id < |b.orders|
  {
    var o := b.orders[id];
    if !cfg.trading || !OpenStatus(o.status) || o.account !in b.accounts then Untouched
    else if quote.None? || Execute(o, cfg, quote.value).Misses? then Failing
    else if o.side == Buy then Bought(Execute(o, cfg, quote.value).fill)
    else Sold(Execute(o, cfg, quote.value).fill)
  }

  lemma SubmitCases(b: Book, cfg: Settings, id: nat, quote: Option<real>, how: LotMethod, at: int)
    requires Legal(b, SubmitStep(id, quote, how, at))
    ensures var (c, out) := Submit(b, cfg, id, quote, how, at);
      match SubmissionOf(b, cfg, id, quote)
      case Untouched => c == b && out != Refused(ShortSale)
      case Failing => c == Release(SetStatus(b, id, Failed), id) && out != Refused(ShortSale)
      case Bought(fill) => c == BuyFilled(b, id, fill, at) && out == Done(id)
      case Sold(fill) =>
        var s := SellFilled(b, id, fill, how, at);
        if s.None? then c == b && out == Refused(ShortSale) else c == s.value && out == Done(id)
  {
  }

  lemma SubmitKeepsInv(b: Book, cfg: Settings, id: nat, quote: Option<real>, how: LotMethod, at: int)
    requires Inv(b) && Legal(b, SubmitStep(id, quote, how, at))
    ensures Inv(Submit(b, cfg, id, quote, how, at).0)
    ensures Submit(b, cfg, id, quote, how, at).1 != Refused(ShortSale)
  {
    SubmitCases(b, cfg, id, quote, how, at);
    match SubmissionOf(b, cfg, id, quote)
    case Untouched =>
    case Failing => ReleasedStatusKeepsInv(b, id, Failed);
    case Bought(fill) => BuyFilledKeepsInv(b, id, fill, at);
    case Sold(fill) => SellFilledKeepsInv(b, id, fill, how, at);
  }

  /** Any legal step keeps the invariant, and never reaches the short-sale error. */
  lemma StepKeepsInv(b: Book, cfg: Settings, step: Step)
    requires Inv(b) && Legal(b, step) && 0.0 <= cfg.minOrder
    ensures Inv(Apply(b, cfg, step).0)
    ensures Apply(b, cfg, step).1 != Refused(ShortSale)
  {
    match step
    case CreateStep(r, quote) =>
      if r.side.Some? && r.quantity > 0.0 && Refuses(b, cfg, r, quote).None? {
        CreatedKeepsInv(b, cfg, r, quote);
      }
    case SubmitStep(id, quote, how, at) =>
      SubmitKeepsInv(b, cfg, id, quote, how, at);
    case CancelStep(id) =>
      ReleasedStatusKeepsInv(b, id, Cancelled);
  }

  /** Safety over whole runs. */
  lemma {:induction false} RunKeepsInv(b: Book, cfg: Settings, steps: seq<Step>)
    requires Inv(b) && LegalRun(b, cfg, steps) && 0.0 <= cfg.minOrder
    ensures Inv(Run(b, cfg, steps))
    decreases |steps|
  {
    if steps != [] {
      StepKeepsInv(b, cfg, steps[0]);
      RunKeepsInv(Apply(b, cfg, steps[0]).0, cfg, steps[1..]);
    }
  }

  // --- Idempotency -----------------------------------------------------------------

  /** At most one order per organisation and idempotency key. */
  predicate UniqueKeys(orders: seq<Order>)
  {
    forall i, j :: 0 <= i < j < |orders| && orders[i].key.Some? ==> orders[i].org != orders[j].org || orders[i].key != orders[j].key
  }

  predicate SameKeys(before: seq<Order>, after: seq<Order>)
  {
    |before| == |after| && forall i :: 0 <= i < |before| ==> after[i].org == before[i].org && after[i].key == before[i].key
  }

  lemma SubmitKeepsKeys(b: Book, cfg: Settings, id: nat, quote: Option<real>, how: LotMethod, at: int)
    requires Inv(b) && Legal(b, SubmitStep(id, quote, how, at))
    ensures SameKeys(b.orders, Submit(b, cfg, id, quote, how, at).0.orders)
  {
    SubmitCases(b, cfg, id, quote, how, at);
    match SubmissionOf(b, cfg, id, quote)
    case Untouched =>
    case Failing =>
    case Bought(fill) => BuyFilledTables(b, id, fill, at);
    case Sold(fill) => SellFilledTables(b, id, fill, how, at);
  }

  lemma CreateKeepsKeys(b: Book, cfg: Settings, r: Request, quote: Option<real>)
    requires r.account in b.accounts && UniqueKeys(b.orders)
    ensures UniqueKeys(Create(b, cfg, r, quote).0.orders)
  {
    var after := Create(b, cfg, r, quote).0.orders;
    forall i, j | 0 <= i < j < |after| && after[i].key.Some? ensures after[i].org != after[j].org || after[i].key != after[j].key {
      if j == |b.orders| {
        assert after[i] in b.orders;
      }
    }
  }

  /** However often a submission is retried, no run ever holds two orders under one key. */
  lemma {:induction false} RunKeepsUniqueKeys(b: Book, cfg: Settings, steps: seq<Step>)
    requires Inv(b) && LegalRun(b, cfg, steps) && 0.0 <= cfg.minOrder && UniqueKeys(b.orders)
    ensures UniqueKeys(Run(b, cfg, steps).orders)
    decreases |steps|
  {
    if steps != [] {
      StepKeepsInv(b, cfg, steps[0]);
      match steps[0] {
        case CreateStep(r, quote) => CreateKeepsKeys(b, cfg, r, quote);
        case SubmitStep(id, quote, how, at) => SubmitKeepsKeys(b, cfg, id, quote, how, at);
        case CancelStep(id) =>
      }
      RunKeepsUniqueKeys(Apply(b, cfg, steps[0]).0, cfg, steps[1..]);
    }
  }

  /** A retry under a recorded key changes nothing and names the original order. */
  lemma RetryReturnsOriginal(b: Book, cfg: Settings, r: Request, quote: Option<real>, id: nat)
    requires r.account in b.accounts && UniqueKeys(b.orders) && r.side.Some? && r.quantity > 0.0 && r.key.Some?
    requires id < |b.orders| && b.orders[id].org == b.accounts[r.account].org && b.orders[id].key == r.key
    ensures Create(b, cfg, r, quote) == (b, Done(id))
  {
    var replay := Replay(b.orders, b.accounts[r.account].org, r.key);
    assert b.orders[id] in b.orders;
    assert replay.Some?;
    assert replay.value == id;
  }

  // --- Double entry ----------------------------------------------------------------

  function CommissionOf(account: int): Execution -> real
  {
    (e: Execution) => if e.account == account then e.commission else 0.0
  }

  function DeferredOf(account: int): Execution -> real
  {
    (e: Execution) => if e.account == account then e.deferred else 0.0
  }

  /** Cash plus open basis, less realized gains, plus commissions paid, less wash-sale basis additions. */
  function Net(b: Book, account: int): real
    requires account in b.accounts
  {
    b.accounts[account].cash + SumBy(b.lots, BookValue(account))
      + SumBy(b.executions, CommissionOf(account)) - SumBy(b.executions, DeferredOf(account))
  }

  lemma ExecuteAmounts(o: Order, cfg: Settings, price: real)
    requires Execute(o, cfg, price).Fills?
    ensures var fill := Execute(o, cfg, price).fill;
      && fill.gross == Amount(o.quantity, fill.price)
      && fill.net == if o.side == Buy then fill.gross + fill.commission else fill.gross - fill.commission
  {
  }

  lemma BuyBalances(b: Book, id: nat, fill: Fill, at: int, account: int)
    requires Inv(b) && id < |b.orders| && account in b.accounts
    requires b.orders[id].side == Buy && OpenStatus(b.orders[id].status) && b.orders[id].account in b.accounts
    requires fill.gross == Amount(b.orders[id].quantity, fill.price) && fill.net == fill.gross + fill.commission
    ensures var c := BuyFilled(b, id, fill, at); account in c.accounts && Net(c, account) == Net(b, account)
  {
    var o := b.orders[id];
    var c := BuyFilled(b, id, fill, at);
    BuyFilledTables(b, id, fill, at);
    PurchaseBooks(b, o.account, o.symbol, o.quantity, fill.price, at, account);
    var e := c.executions[|b.executions|];
    SumByAppend(b.executions, e, CommissionOf(account));
    SumByAppend(b.executions, e, DeferredOf(account));
  }

  lemma SellBalances(b: Book, id: nat, fill: Fill, how: LotMethod, at: int, account: int)
    requires Inv(b) && id < |b.orders| && account in b.accounts
    requires b.orders[id].side == Sell && OpenStatus(b.orders[id].status) && b.orders[id].account in b.accounts
    requires fill.gross == Amount(b.orders[id].quantity, fill.price) && fill.net == fill.gross - fill.commission
    ensures var c := SellFilled(b, id, fill, how, at);
      c.Some? && account in c.value.accounts && Net(c.value, account) == Net(b, account)
  {
    var o := b.orders[id];
    PromisedSharesAreHeld(b, id);
    SellFilledTables(b, id, fill, how, at);
    SaleBooks(b, o.account, o.symbol, o.quantity, fill.price, how, at, account);
    var c := SellFilled(b, id, fill, how, at).value;
    var e := c.executions[|b.executions|];
    SumByAppend(b.executions, e, CommissionOf(account));
    SumByAppend(b.executions, e, DeferredOf(account));
  }

  lemma StepBalances(b: Book, cfg: Settings, step: Step, account: int)
    requires Inv(b) && Legal(b, step) && account in b.accounts
    ensures var c := Apply(b, cfg, step).0; account in c.accounts && Net(c, account) == Net(b, account)
  {
    match step
    case CreateStep(r, quote) =>
    case SubmitStep(id, quote, how, at) =>
      SubmitCases(b, cfg, id, quote, how, at);
      match SubmissionOf(b, cfg, id, quote) {
        case Untouched =>
        case Failing =>
        case Bought(fill) =>
          ExecuteAmounts(b.orders[id], cfg, quote.value);
          BuyBalances(b, id, fill, at, account);
        case Sold(fill) =>
          ExecuteAmounts(b.orders[id], cfg, quote.value);
          SellBalances(b, id, fill, how, at, account);
      }
    case CancelStep(id) =>
  }

  /** Double entry: no run of creates, fills and cancels, under any lot method, moves an account's net. */
  lemma {:induction false} RunBalances(b: Book, cfg: Settings, steps: seq<Step>, account: int)
    requires Inv(b) && LegalRun(b, cfg, steps) && 0.0 <= cfg.minOrder && account in b.accounts
    ensures account in Run(b, cfg, steps).accounts
    ensures Net(Run(b, cfg, steps), account) == Net(b, account)
    decreases |steps|
  {
    if steps != [] {
      StepKeepsInv(b, cfg, steps[0]);
      StepBalances(b, cfg, steps[0], account);
      RunBalances(Apply(b, cfg, steps[0]).0, cfg, steps[1..], account);
    }
  }

  // --- Reservations ----------------------------------------------------------------

  /** How far below zero cash net of holds may go: the 1% margin on one order, and the check's tolerance. */
  function Overhang(largest: real): real
  {
    0.01 * largest + CASH_TOLERANCE
  }

  ghost predicate Covered(b: Book, largest: real)
  {
    forall a :: a in b.accounts ==> Available(b.accounts[a]) >= -Overhang(largest)
  }

  /** A created buy is no larger than `largest`; a fill costs no more than was reserved; a sale nets cash. */
  predicate Within(b: Book, cfg: Settings, step: Step, largest: real)
    requires Legal(b, step)
  {
    match step
    case CreateStep(r, quote) => r.side == Some(Buy) && quote.Some? ==> Amount(r.quantity, quote.value) <= largest
    case SubmitStep(id, quote, how, at) =>
      (match SubmissionOf(b, cfg, id, quote)
       case Bought(fill) => fill.net <= b.orders[id].reserved
       case Sold(fill) => fill.net >= 0.0
       case _ => true)
    case CancelStep(_) => true
  }

  predicate RunWithin(b: Book, cfg: Settings, steps: seq<Step>, largest: real)
    requires LegalRun(b, cfg, steps)
    decreases |steps|
  {
    steps == [] || (Within(b, cfg, steps[0], largest) && RunWithin(Apply(b, cfg, steps[0]).0, cfg, steps[1..], largest))
  }

  lemma CreateStaysCovered(b: Book, cfg: Settings, r: Request, quote: Option<real>, largest: real)
    requires Inv(b) && Legal(b, CreateStep(r, quote)) && Covered(b, largest)
    requires Within(b, cfg, CreateStep(r, quote), largest)
    ensures Covered(Create(b, cfg, r, quote).0, largest)
  {
    var c := Create(b, cfg, r, quote).0;
    if c != b && r.side == Some(Buy) {
      var notional := Amount(r.quantity, quote.value);
      assert Amount(notional, RESERVE_MARGIN) == notional + 0.01 * notional;
      assert Available(c.accounts[r.account]) == Available(b.accounts[r.account]) - Amount(notional, RESERVE_MARGIN);
    }
  }

  lemma ReleaseStaysCovered(b: Book, id: nat, largest: real)
    requires Inv(b) && id < |b.orders| && Covered(b, largest)
    ensures Covered(Release(b, id), largest)
  {
    KnownOrder(b, id);
    ReleaseKeepsHolds(b, id);
  }

  lemma SubmitStaysCovered(b: Book, cfg: Settings, id: nat, quote: Option<real>, how: LotMethod, at: int, largest: real)
    requires Inv(b) && Legal(b, SubmitStep(id, quote, how, at)) && Covered(b, largest)
    requires Within(b, cfg, SubmitStep(id, quote, how, at), largest)
    ensures Covered(Submit(b, cfg, id, quote, how, at).0, largest)
  {
    SubmitCases(b, cfg, id, quote, how, at);
    match SubmissionOf(b, cfg, id, quote)
    case Untouched =>
    case Failing =>
      ReleaseStaysCovered(b, id, largest);
      ReleasedStatusKeepsInv(b, id, Failed);
    case Bought(fill) => BuyFilledTables(b, id, fill, at);
    case Sold(fill) => SellFilledTables(b, id, fill, how, at);
  }

  lemma StepStaysCovered(b: Book, cfg: Settings, step: Step, largest: real)
    requires Inv(b) && Legal(b, step) && Within(b, cfg, step, largest) && Covered(b, largest)
    ensures Covered(Apply(b, cfg, step).0, largest)
  {
    match step
    case CreateStep(r, quote) => CreateStaysCovered(b, cfg, r, quote, largest);
    case SubmitStep(id, quote, how, at) => SubmitStaysCovered(b, cfg, id, quote, how, at, largest);
    case CancelStep(id) => ReleaseStaysCovered(b, id, largest);
  }

  /** However many orders are open, cash net of holds never falls below minus 1% of the largest single
      buy, less the check's tolerance. */
  lemma {:induction false} RunStaysCovered(b: Book, cfg: Settings, steps: seq<Step>, largest: real)
    requires Inv(b) && LegalRun(b, cfg, steps) && 0.0 <= cfg.minOrder
    requires RunWithin(b, cfg, steps, largest) && Covered(b, largest)
    ensures Covered(Run(b, cfg, steps), largest)
    decreases |steps|
  {
    if steps != [] {
      StepKeepsInv(b, cfg, steps[0]);
      StepStaysCovered(b, cfg, steps[0], largest);
      RunStaysCovered(Apply(b, cfg, steps[0]).0, cfg, steps[1..], largest);
    }
  }

  /** A buy filled at the price it was reserved at stays inside its reservation exactly when slippage
      and commission together stay inside the 1% margin. */
  lemma FillFitsReservation(o: Order, cfg: Settings, price: real)
    requires o.side == Buy && Execute(o, cfg, price).Fills?
    requires o.reserved == Amount(Amount(o.quantity, price), RESERVE_MARGIN)
    ensures var fill := Execute(o, cfg, price).fill;
      fill.net <= o.reserved <==> cfg.slippage * Amount(o.quantity, price) + fill.commission <= 0.01 * Amount(o.quantity, price)
  {
    var fill := Execute(o, cfg, price).fill;
    var notional := Amount(o.quantity, price);
    calc {
      fill.gross;
      o.quantity * (price * (1.0 + cfg.slippage));
      o.quantity * price * (1.0 + cfg.slippage);
      notional + cfg.slippage * notional;
    }
    assert o.reserved == notional + 0.01 * notional;
  }

  // --- The boundary: resubmitting a failed order ------------------------------------

  /** Submitting a sell that would otherwise fill runs short exactly when the shares asked for exceed
      those held by more than the tolerance, whether or not the order had failed before. */
  lemma ShortSaleExactly(b: Book, cfg: Settings, id: nat, price: real, how: LotMethod, at: int)
    requires Inv(b) && id < |b.orders| && cfg.trading
    requires b.orders[id].side == Sell && (OpenStatus(b.orders[id].status) || b.orders[id].status == Failed)
    requires Execute(b.orders[id], cfg, price).Fills?
    ensures Submit(b, cfg, id, Some(price), how, at).1 == Refused(ShortSale)
       <==> b.orders[id].quantity - Held(b.lots, b.orders[id].account, b.orders[id].symbol) > SHORTAGE_TOLERANCE
  {
    var o := b.orders[id];
    KnownOrder(b, id);
    var fill := Execute(o, cfg, price).fill;
    SaleShortfall(b, o.account, o.symbol, o.quantity, fill.price, how, at);
  }

  lemma SaleShortfall(b: Book, account: int, symbol: string, quantity: real, price: real, how: LotMethod, at: int)
    requires LotsOk(b.lots) && 0.0 <= quantity
    ensures Shortfall(SaleOf(b, account, symbol, quantity, price, how, at), quantity)
         == Max(0.0, quantity - Held(b.lots, account, symbol))
  {
    var lots := OpenLots(b.lots, account, symbol);
    OpenLotsHoldAll(b.lots, account, symbol);
    HeldIsNonnegative(b.lots, account, symbol);
    SelectionAccounting(lots, quantity, price, how, at);
    SelectionWithinTotal(lots, quantity, price, how, at);
  }

  /** No sale takes more than the lots offered to it hold. */
  lemma SelectionWithinTotal(lots: seq<Lot>, quantity: real, price: real, how: LotMethod, at: int)
    requires quantity >= 0.0
    ensures SumBy(Selected(lots, quantity, price, how, at), Shares) <= SumBy(WithShares(lots), Remaining)
  {
    var ordered := InSaleOrder(lots, price, how, at);
    InSaleOrderMembers(lots, price, how, at);
    StableSortSum(WithShares(lots), SaleRank(how, price, at), Remaining);
    ConsumeWithinTotal(ordered, quantity, price, at);
  }

  lemma {:induction false} ConsumeWithinTotal(ordered: seq<Lot>, quantity: real, price: real, at: int)
    requires forall l :: l in ordered ==> l.remaining > 0.0
    ensures SumBy(Consume(ordered, quantity, price, at), Shares) <= SumBy(ordered, Remaining)
  {
    if ordered != [] {
      SumByHead(ordered, Remaining);
      SumByNonnegative(ordered, Remaining);
      ConsumeHead(ordered, quantity, price, at);
      ConsumeWithinTotal(ordered[1..], quantity - FirstTaken(ordered[0], quantity), price, at);
    }
  }

  /** A sell of everything an account holds, which a failed order does not prevent. */
  lemma SellAllIsPlaced(b: Book, cfg: Settings, r: Request, price: real)
    requires Inv(b) && r.account in b.accounts && cfg.fractional && (forall o :: o in b.orders ==> !OpenStatus(o.status))
    requires r.side == Some(Sell) && r.key.None? && 0.0 < r.quantity == Held(b.lots, r.account, r.symbol)
    requires Amount(r.quantity, price) >= cfg.minOrder
    ensures Create(b, cfg, r, Some(price)) == (Created(b, r, price), Done(|b.orders|))
  {
    assert RollupAt(b, r.account, r.symbol);
    SumByZero(b.orders, Committed(r.account, r.symbol));
  }

  lemma OneMoreStep(b: Book, cfg: Settings, step: Step, c: Book, rest: seq<Step>)
    requires Legal(b, step) && Apply(b, cfg, step).0 == c && LegalRun(c, cfg, rest)
    ensures LegalRun(b, cfg, [step] + rest) && Run(b, cfg, [step] + rest) == Run(c, cfg, rest)
  {
    assert ([step] + rest)[1..] == rest;
  }

  /** A limit sell that misses leaves its order failed and everything else as it was. */
  lemma MissedSell(b: Book, cfg: Settings, id: nat, price: real, how: LotMethod, at: int)
    requires Inv(b) && id < |b.orders| && OpenStatus(b.orders[id].status) && b.orders[id].side == Sell
    requires cfg.trading && Execute(b.orders[id], cfg, price).Misses?
    ensures Submit(b, cfg, id, Some(price), how, at).0 == SetStatus(b, id, Failed)
  {
    KnownOrder(b, id);
  }

  /** A sell of everything held that fills leaves nothing, and no other order touched. */
  lemma SoldAll(b: Book, cfg: Settings, id: nat, price: real, how: LotMethod, at: int)
    requires Inv(b) && id < |b.orders| && OpenStatus(b.orders[id].status) && b.orders[id].side == Sell
    requires cfg.trading && Execute(b.orders[id], cfg, price).Fills?
    requires b.orders[id].quantity == Held(b.lots, b.orders[id].account, b.orders[id].symbol)
    ensures var o, c := b.orders[id], Submit(b, cfg, id, Some(price), how, at).0;
      Inv(c) && Held(c.lots, o.account, o.symbol) == 0.0 && c.orders == b.orders[id := FilledOrder(o)]
  {
    var o := b.orders[id];
    var fill := Execute(o, cfg, price).fill;
    KnownOrder(b, id);
    SubmitCases(b, cfg, id, Some(price), how, at);
    SubmitKeepsInv(b, cfg, id, Some(price), how, at);
    SellFilledTables(b, id, fill, how, at);
    SaleHeld(b, o.account, o.symbol, o.quantity, fill.price, how, at, o.account, o.symbol);
  }

  /** A sell of `quantity` shares, at a limit or at the market. */
  function SellOrder(account: int, symbol: string, quantity: real, limit: Option<real>): Request
  {
    Request(account, Some(Sell), symbol, quantity, limit, None, Approved)
  }

  /** All of a holding offered at a limit, missed, and then sold at the market. */
  function TwoSells(account: int, symbol: string, quantity: real, limit: real, price: real, at: int): seq<Step>
  {
    [CreateStep(SellOrder(account, symbol, quantity, Some(limit)), Some(price)), SubmitStep(0, Some(price), Hifo, at),
     CreateStep(SellOrder(account, symbol, quantity, None), Some(price)), SubmitStep(1, Some(price), Hifo, at)]
  }

  predicate NothingOpen(b: Book)
  {
    forall o :: o in b.orders ==> !OpenStatus(o.status)
  }

  /** All of a holding offered at a limit above the price. */
  lemma OfferIsMissed(b: Book, cfg: Settings, r: Request, price: real, at: int) returns (placed: Book, c: Book)
    requires Inv(b) && r == SellOrder(r.account, r.symbol, r.quantity, r.limit) && r.account in b.accounts && NothingOpen(b)
    requires cfg.trading && cfg.fractional && cfg.slippage == 0.0 && 0.0 <= cfg.minOrder <= Amount(r.quantity, price)
    requires 0.0 < r.quantity == Held(b.lots, r.account, r.symbol) && 0.0 < price && r.limit.Some? && price < r.limit.value
    ensures Apply(b, cfg, CreateStep(r, Some(price))).0 == placed && |placed.orders| == |b.orders| + 1
    ensures Legal(placed, SubmitStep(|b.orders|, Some(price), Hifo, at))
    ensures Apply(placed, cfg, SubmitStep(|b.orders|, Some(price), Hifo, at)).0 == c
    ensures Inv(c) && c.lots == b.lots && c.accounts.Keys == b.accounts.Keys && |c.orders| == |placed.orders| && NothingOpen(c)
    ensures var o := c.orders[|b.orders|];
      o.account == r.account && o.symbol == r.symbol && o.side == Sell && o.quantity == r.quantity && o.limit == r.limit && o.status == Failed
  {
    assert Amount(price, 1.0) == price;
    SellAllIsPlaced(b, cfg, r, price);
    StepKeepsInv(b, cfg, CreateStep(r, Some(price)));
    placed := Created(b, r, price);
    MissedSell(placed, cfg, |b.orders|, price, Hifo, at);
    StepKeepsInv(placed, cfg, SubmitStep(|b.orders|, Some(price), Hifo, at));
    c := SetStatus(placed, |b.orders|, Failed);
  }

  /** All of a holding sold at the market. */
  lemma MarketSellsAll(b: Book, cfg: Settings, r: Request, price: real, at: int) returns (placed: Book, c: Book)
    requires Inv(b) && r == SellOrder(r.account, r.symbol, r.quantity, None) && r.account in b.accounts && NothingOpen(b)
    requires cfg.trading && cfg.fractional && cfg.slippage == 0.0 && 0.0 <= cfg.minOrder <= Amount(r.quantity, price)
    requires 0.0 < r.quantity == Held(b.lots, r.account, r.symbol) && 0.0 < price
    ensures Apply(b, cfg, CreateStep(r, Some(price))).0 == placed && |placed.orders| == |b.orders| + 1
    ensures Legal(placed, SubmitStep(|b.orders|, Some(price), Hifo, at))
    ensures Apply(placed, cfg, SubmitStep(|b.orders|, Some(price), Hifo, at)).0 == c
    ensures Inv(c) && Held(c.lots, r.account, r.symbol) == 0.0 && |c.orders| == |placed.orders|
    ensures c.orders[..|b.orders|] == b.orders && c.orders[|b.orders|].status == Filled
  {
    SellAllIsPlaced(b, cfg, r, price);
    StepKeepsInv(b, cfg, CreateStep(r, Some(price)));
    placed := Created(b, r, price);
    SoldAll(placed, cfg, |b.orders|, price, Hifo, at);
    c := Submit(placed, cfg, |b.orders|, Some(price), Hifo, at).0;
  }

  /** A failed order is not counted as committed, yet it may be submitted again. From any tables without orders, where an
      account holds `quantity` shares: offered at a limit that is missed, then all sold at the market; when the price
      reaches the limit and the first order is submitted again, there is nothing left to sell. */
  lemma FailedResubmissionRunsShort(b: Book, cfg: Settings, account: int, symbol: string, quantity: real, limit: real, price: real,
                                    later: real, at: int)
    requires Inv(b) && b.orders == [] && account in b.accounts && SHORTAGE_TOLERANCE < quantity == Held(b.lots, account, symbol)
    requires cfg.trading && cfg.fractional && cfg.slippage == 0.0 && 0.0 <= cfg.minOrder <= Amount(quantity, price)
    requires 0.0 < price < limit <= later
    ensures var steps := TwoSells(account, symbol, quantity, limit, price, at);
      && LegalRun(b, cfg, steps)
      && var c := Run(b, cfg, steps);
         Inv(c) && |c.orders| == 2 && c.orders[0].status == Failed && c.orders[1].status == Filled
         && Submit(c, cfg, 0, Some(later), Hifo, at).1 == Refused(ShortSale)
  {
    var steps := TwoSells(account, symbol, quantity, limit, price, at);
    var offered, missed := OfferIsMissed(b, cfg, steps[0].request, price, at);
    var market, sold := MarketSellsAll(missed, cfg, steps[2].request, price, at);
    assert sold.orders[0] == missed.orders[0];
    assert Amount(later, 1.0) == later;
    ShortSaleExactly(sold, cfg, 0, later, Hifo, at);
    FourSteps(b, cfg, steps, offered, missed, market, sold);
  }

  lemma FourSteps(b: Book, cfg: Settings, steps: seq<Step>, first: Book, second: Book, third: Book, fourth: Book)
    requires |steps| == 4
    requires Legal(b, steps[0]) && Apply(b, cfg, steps[0]).0 == first && Legal(first, steps[1]) && Apply(first, cfg, steps[1]).0 == second
    requires Legal(second, steps[2]) && Apply(second, cfg, steps[2]).0 == third && Legal(third, steps[3]) && Apply(third, cfg, steps[3]).0 == fourth
    ensures LegalRun(b, cfg, steps) && Run(b, cfg, steps) == fourth
  {
    OneMoreStep(third, cfg, steps[3], fourth, []);
    OneMoreStep(second, cfg, steps[2], third, [steps[3]]);
    OneMoreStep(first, cfg, steps[1], second, [steps[2], steps[3]]);
    OneMoreStep(b, cfg, steps[0], first, [steps[1], steps[2], steps[3]]);
    assert [steps[3]] + [] == [steps[3]] && [steps[2]] + [steps[3]] == [steps[2], steps[3]];
    assert [steps[1]] + [steps[2], steps[3]] == [steps[1], steps[2], steps[3]];
    assert [steps[0]] + [steps[1], steps[2], steps[3]] == steps;
  }

  /** Such tables exist: ten shares in one lot, as seeding leaves them. */
  lemma TenSharesHeld(symbol: string) returns (b: Book)
    ensures Inv(b) && b.orders == [] && 1 in b.accounts && Held(b.lots, 1, symbol) == 10.0
  {
    var bare := Book(map[1 := Account(1, 1, true, 0.0, 0.0)], [], [], map[], []);
    b := Purchase(bare, 1, symbol, 10.0, 90.0, 0);
    PurchaseKeepsTable(bare, 1, symbol, 10.0, 90.0, 0);
    PurchaseKeepsRollup(bare, 1, symbol, 10.0, 90.0, 0);
    PurchaseHeld(bare, 1, symbol, 10.0, 90.0, 0, 1, symbol);
    forall a, s ensures CommittedAt(b, a, s) {
      HeldIsNonnegative(b.lots, a, s);
    }
  }
}
