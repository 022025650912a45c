/** Executing a plan: create and fill its proposals one at a time, in sequence order.

    The main result is that a plan meeting conditions anyone can check beforehand is executed in
    full, and no account is overdrawn on the way. */
module PlanExecution {
  import opened Wrappers
  import opened Sums
  import opened Ordering
  import opened TaxLots
  import opened Books
  import opened LotWrites
  import opened Broker
  import opened LedgerInvariants
  import opened LedgerRuns

  datatype Proposal = Proposal(
    symbol: string, side: Side, account: int, notional: real, quantity: real, tax: real, sequence: nat)

  /** What a trade is expected to cost before it is placed. */
  function EstimatedCost(cfg: Settings, notional: real): real
  {
    if notional <= 0.0 then 0.0
    else Amount(notional, cfg.slippage) + Max(cfg.commissionMin, Amount(notional, cfg.commissionRate))
  }

  function NetSaleProceeds(cfg: Settings, notional: real): real
  {
    Max(0.0, notional - EstimatedCost(cfg, notional))
  }

  function GrossPurchaseCost(cfg: Settings, notional: real): real
  {
    notional + EstimatedCost(cfg, notional)
  }

  // --- Executing ---------------------------------------------------------------------

  function OrderFor(p: Proposal): Request
  {
    Request(p.account, Some(p.side), p.symbol, p.quantity, None, None, Approved)
  }

  function Quote(quotes: map<string, real>, symbol: string): Option<real>
  {
    if symbol in quotes then Some(quotes[symbol]) else None
  }

  /** One proposal: created and filled, or rolled back. */
  function ExecuteOne(b: Book, cfg: Settings, p: Proposal, quotes: map<string, real>, how: LotMethod, at: int): (Book, bool)
  {
    if p.account !in b.accounts then (b, false)
    else
      var (created, placed) := Create(b, cfg, OrderFor(p), Quote(quotes, p.symbol));
      if placed.Refused? || placed.order >= |created.orders| then (b, false)
      else
        var (done, filled) := Submit(created, cfg, placed.order, Quote(quotes, p.symbol), how, at);
        if filled.Refused? then (b, false) else (done, true)
  }

  /** Proposals in the order given; the count is of those that filled. */
  function ExecuteInOrder(b: Book, cfg: Settings, ps: seq<Proposal>, quotes: map<string, real>, how: LotMethod, at: int): (Book, nat)
    decreases |ps|
  {
    if ps == [] then (b, 0)
    else
      var (c, filled) := ExecuteOne(b, cfg, ps[0], quotes, how, at);
      var (d, n) := ExecuteInOrder(c, cfg, ps[1..], quotes, how, at);
      (d, if filled then n + 1 else n)
  }

  const BySequence: Proposal -> Rank := (p: Proposal) => Rank(p.sequence, if p.side == Sell then 0.0 else 1.0)

  function ExecuteProposals(b: Book, cfg: Settings, ps: seq<Proposal>, quotes: map<string, real>, how: LotMethod, at: int): (Book, nat)
  {
    ExecuteInOrder(b, cfg, StableSort(ps, BySequence), quotes, how, at)
  }

  // --- When a plan is executable ------------------------------------------------------

  /** Costs the planner and the simulator agree on: no proportional commission, and a flat one that the
      smallest allowed sale still covers. */
  predicate AgreedCosts(cfg: Settings)
  {
    && cfg.trading
    && 0.0 <= cfg.slippage < 1.0
    && cfg.commissionRate == 0.0
    && 0.0 <= cfg.commissionMin
    && 0.0 <= cfg.minOrder
    && cfg.commissionMin <= Amount(cfg.minOrder, 1.0 - cfg.slippage)
  }

  /** Priced at the current quote, at or above the minimum order, in whole shares where required. */
  predicate Placeable(b: Book, cfg: Settings, p: Proposal, quotes: map<string, real>)
  {
    && p.account in b.accounts
    && p.quantity > 0.0
    && (!cfg.fractional ==> IsWhole(p.quantity))
    && p.symbol in quotes && quotes[p.symbol] > 0.0
    && p.notional == Amount(p.quantity, quotes[p.symbol])
    && p.notional >= cfg.minOrder && p.notional > 0.0
  }

  function SaleNet(cfg: Settings, account: int): Proposal -> real
  {
    (p: Proposal) => if p.account == account && p.side == Sell then NetSaleProceeds(cfg, p.notional) else 0.0
  }

  function BuyCost(cfg: Settings, account: int): Proposal -> real
  {
    (p: Proposal) => if p.account == account && p.side == Buy then GrossPurchaseCost(cfg, p.notional) else 0.0
  }

  predicate SellsFirst(ps: seq<Proposal>)
  {
    forall i, j :: 0 <= i < j < |ps| && ps[j].side == Sell ==> ps[i].side == Sell
  }

  /** Each holding is sold at most once, and never beyond what is held. */
  predicate SellsHeld(b: Book, ps: seq<Proposal>)
  {
    && (forall p :: p in ps && p.side == Sell ==> p.quantity <= Held(b.lots, p.account, p.symbol))
    && (forall i, j :: 0 <= i < j < |ps| && ps[i].side == Sell && ps[j].side == Sell
          ==> (ps[i].account, ps[i].symbol) != (ps[j].account, ps[j].symbol))
  }

  /** Each account's cash, with its own sale proceeds, covers its purchases. */
  predicate FundedAt(b: Book, cfg: Settings, ps: seq<Proposal>, account: int)
    requires account in b.accounts
  {
    && Available(b.accounts[account]) >= 0.0
    && Available(b.accounts[account]) + SumBy(ps, SaleNet(cfg, account)) >= SumBy(ps, BuyCost(cfg, account))
  }

  /** None of the accounts in `mine` has an order still open; other accounts may. */
  predicate NoOpenOrders(b: Book, mine: set<int>)
  {
    forall o :: o in b.orders && o.account in mine ==> !OpenStatus(o.status)
  }

  /** A plan for the accounts in `mine` that can be executed from these tables. */
  ghost predicate Executable(b: Book, cfg: Settings, ps: seq<Proposal>, quotes: map<string, real>, mine: set<int>)
  {
    && Inv(b) && NoOpenOrders(b, mine) && mine <= b.accounts.Keys
    && (forall p :: p in ps ==> p.account in mine && Placeable(b, cfg, p, quotes))
    && SellsFirst(ps)
    && SellsHeld(b, ps)
    && (forall a :: a in mine ==> FundedAt(b, cfg, ps, a))
  }

  // --- Fills cost what was estimated ---------------------------------------------------

  lemma CrossedPrice(quantity: real, price: real, slippage: real)
    ensures Amount(quantity, Amount(price, 1.0 + slippage)) == Amount(quantity, price) + Amount(Amount(quantity, price), slippage)
    ensures Amount(quantity, Amount(price, 1.0 - slippage)) == Amount(quantity, price) - Amount(Amount(quantity, price), slippage)
  {
    assert quantity * (price * (1.0 + slippage)) == quantity * price * (1.0 + slippage);
    assert quantity * (price * (1.0 - slippage)) == quantity * price * (1.0 - slippage);
  }

  /** With no proportional commission the simulator charges exactly the planner's estimate. */
  lemma FillMatchesEstimate(o: Order, cfg: Settings, price: real)
    requires AgreedCosts(cfg) && o.quantity > 0.0 && price > 0.0 && o.limit.None?
    requires Amount(o.quantity, price) >= cfg.minOrder && Amount(o.quantity, price) > 0.0
    ensures Execute(o, cfg, price).Fills?
    ensures var net := Execute(o, cfg, price).fill.net;
            var notional := Amount(o.quantity, price);
      if o.side == Buy then net == GrossPurchaseCost(cfg, notional) && net >= notional
      else net == NetSaleProceeds(cfg, notional) && net >= 0.0
  {
    var notional := Amount(o.quantity, price);
    CrossedPrice(o.quantity, price, cfg.slippage);
    assert Amount(notional, cfg.slippage) >= 0.0;
    SaleCoversMinimum(notional, cfg.minOrder, cfg.slippage);
  }

  /** A fill crosses the spread against the order, and never at a price worse than the order's limit; a limit order
      misses exactly when the crossed price is worse than its limit. */
  lemma FillsWithinLimit(o: Order, cfg: Settings, reference: real)
    requires o.quantity > 0.0 && reference > 0.0 && 0.0 <= cfg.slippage < 1.0
    ensures var crossed := Amount(reference, if o.side == Buy then 1.0 + cfg.slippage else 1.0 - cfg.slippage);
            var result := Execute(o, cfg, reference);
      && (if o.side == Buy then crossed >= reference else 0.0 < crossed <= reference)
      && (result.Misses? <==> o.limit.Some? && (if o.side == Buy then o.limit.value < crossed else crossed < o.limit.value))
      && (result.Fills? ==> result.fill.price == crossed && result.fill.commission >= cfg.commissionMin)
      && (result.Fills? && cfg.commissionRate >= 0.0 && cfg.commissionMin >= 0.0 ==>
            if o.side == Buy then result.fill.net >= Amount(o.quantity, reference)
            else result.fill.net <= Amount(o.quantity, reference))
  {
    CrossedPrice(o.quantity, reference, cfg.slippage);
    ZeroProduct(reference, cfg.slippage);
    ZeroProduct(reference, 1.0 - cfg.slippage);
    ZeroProduct(o.quantity, reference);
    ZeroProduct(Amount(o.quantity, reference), cfg.slippage);
    assert reference * (1.0 + cfg.slippage) == reference + reference * cfg.slippage;
    assert reference * (1.0 - cfg.slippage) == reference - reference * cfg.slippage;
  }

  /** The planner charges commission on the quoted value, the simulator on the slipped one: for a purchase the
      two agree exactly when the commission is the flat minimum on both, or slippage or the rate is zero. */
  lemma EstimateIsExact(o: Order, cfg: Settings, price: real)
    requires o.side == Buy && Execute(o, cfg, price).Fills?
    requires 0.0 <= cfg.slippage && 0.0 <= cfg.commissionRate
    ensures var fill := Execute(o, cfg, price).fill;
      fill.net == GrossPurchaseCost(cfg, Amount(o.quantity, price))
      <==> cfg.slippage == 0.0 || cfg.commissionRate == 0.0 || Amount(fill.gross, cfg.commissionRate) <= cfg.commissionMin
  {
    var notional := Amount(o.quantity, price);
    var fill := Execute(o, cfg, price).fill;
    assert notional > 0.0;
    CrossedPrice(o.quantity, price, cfg.slippage);
    var slipped := Amount(notional, cfg.slippage);
    assert fill.gross == notional + slipped;
    AmountAdds(notional, slipped, cfg.commissionRate);
    ZeroProduct(notional, cfg.slippage);
    ZeroProduct(slipped, cfg.commissionRate);
  }

  /** For a sale they agree exactly when the proceeds just pay the commission, or more than pay it and the commission is
      the flat minimum on both, or slippage or the rate is zero. */
  lemma SaleEstimateIsExact(o: Order, cfg: Settings, price: real)
    requires o.side == Sell && Execute(o, cfg, price).Fills?
    requires 0.0 <= cfg.slippage && 0.0 <= cfg.commissionRate
    ensures var fill := Execute(o, cfg, price).fill;
      fill.net == NetSaleProceeds(cfg, Amount(o.quantity, price))
      <==> fill.gross == fill.commission
           || (fill.gross > fill.commission
               && (cfg.slippage == 0.0 || cfg.commissionRate == 0.0
                   || Amount(Amount(o.quantity, price), cfg.commissionRate) <= cfg.commissionMin))
  {
    var notional := Amount(o.quantity, price);
    var fill := Execute(o, cfg, price).fill;
    assert notional > 0.0;
    CrossedPrice(o.quantity, price, cfg.slippage);
    var slipped := Amount(notional, cfg.slippage);
    assert fill.gross == notional - slipped;
    AmountAdds(notional, slipped, cfg.commissionRate);
    ZeroProduct(notional, cfg.slippage);
    ZeroProduct(slipped, cfg.commissionRate);
  }

  lemma ZeroProduct(a: real, b: real)
    requires 0.0 <= a && 0.0 <= b
    ensures 0.0 <= Amount(a, b)
    ensures Amount(a, b) == 0.0 <==> a == 0.0 || b == 0.0
  {
  }

  lemma SaleCoversMinimum(notional: real, least: real, slippage: real)
    requires notional >= least && 0.0 <= slippage < 1.0
    ensures notional - Amount(notional, slippage) >= Amount(least, 1.0 - slippage)
  {
    ProductNonnegative(notional - least, 1.0 - slippage);
    assert (notional - least) * (1.0 - slippage) == notional - notional * slippage - least * (1.0 - slippage);
  }

  lemma ProductNonnegative(a: real, b: real)
    requires 0.0 <= a && 0.0 <= b
    ensures 0.0 <= a * b
  {
  }

  // --- Executable plans execute ---------------------------------------------------------

  lemma NothingReserved(b: Book, account: int, symbol: string, mine: set<int>)
    requires Inv(b) && NoOpenOrders(b, mine) && account in mine
    ensures OpenSellQuantity(b.orders, account, symbol) == 0.0
    ensures account in b.accounts ==> b.accounts[account].hold == 0.0
  {
    SumByZero(b.orders, Committed(account, symbol));
    forall o | o in b.orders ensures ReservedBy(account)(o) == 0.0 {
      assert OrderOk(b, o);
    }
    SumByZero(b.orders, ReservedBy(account));
    if account in b.accounts {
      assert HoldAt(b, account);
    }
  }

  /** What one proposal needs of the tables for its order to be placed. */
  predicate Affordable(b: Book, cfg: Settings, p: Proposal)
    requires p.account in b.accounts
  {
    if p.side == Sell then p.quantity <= Held(b.lots, p.account, p.symbol)
    else GrossPurchaseCost(cfg, p.notional) <= Available(b.accounts[p.account])
  }

  lemma CostsAtLeastNotional(cfg: Settings, notional: real)
    requires AgreedCosts(cfg)
    ensures notional <= GrossPurchaseCost(cfg, notional)
    ensures 0.0 <= EstimatedCost(cfg, notional)
  {
    if notional > 0.0 {
      assert Amount(notional, cfg.slippage) >= 0.0;
    }
  }

  lemma OrderIsPlaced(b: Book, cfg: Settings, p: Proposal, quotes: map<string, real>, mine: set<int>)
    requires Inv(b) && NoOpenOrders(b, mine) && p.account in mine && AgreedCosts(cfg) && Placeable(b, cfg, p, quotes) && Affordable(b, cfg, p)
    ensures Create(b, cfg, OrderFor(p), Quote(quotes, p.symbol))
         == (Created(b, OrderFor(p), quotes[p.symbol]), Done(|b.orders|))
  {
    NothingReserved(b, p.account, p.symbol, mine);
    if p.side == Sell {
      assert RollupAt(b, p.account, p.symbol);
    } else {
      CostsAtLeastNotional(cfg, p.notional);
    }
  }

  /** The effect of one executed proposal on an account's spendable cash. */
  function CashEffect(cfg: Settings, p: Proposal, account: int): real
  {
    if p.account != account then 0.0
    else if p.side == Buy then -GrossPurchaseCost(cfg, p.notional)
    else NetSaleProceeds(cfg, p.notional)
  }

  /** The freshly placed order of a proposal: its tables, and the fill it will get. */
  lemma PlacedOrder(b: Book, cfg: Settings, p: Proposal, quotes: map<string, real>, mine: set<int>) returns (m: Book, o: Order, fill: Fill)
    requires Inv(b) && NoOpenOrders(b, mine) && p.account in mine && AgreedCosts(cfg) && Placeable(b, cfg, p, quotes) && Affordable(b, cfg, p)
    ensures m == Created(b, OrderFor(p), quotes[p.symbol]) && Inv(m)
    ensures m.orders == b.orders + [o] && m.lots == b.lots && m.accounts.Keys == b.accounts.Keys
    ensures o.account == p.account && o.symbol == p.symbol && o.side == p.side && o.quantity == p.quantity
    ensures o.status == Approved && o.reserved == m.accounts[p.account].hold
    ensures m.accounts[p.account].cash == b.accounts[p.account].cash && b.accounts[p.account].hold == 0.0
    ensures forall a :: a in b.accounts && a != p.account ==> m.accounts[a] == b.accounts[a]
    ensures SubmissionOf(m, cfg, |b.orders|, Some(quotes[p.symbol])) == if p.side == Buy then Bought(fill) else Sold(fill)
    ensures fill.net == if p.side == Buy then GrossPurchaseCost(cfg, p.notional) else NetSaleProceeds(cfg, p.notional)
  {
    var price := quotes[p.symbol];
    OrderIsPlaced(b, cfg, p, quotes, mine);
    StepKeepsInv(b, cfg, CreateStep(OrderFor(p), Some(price)));
    m := Created(b, OrderFor(p), price);
    o := m.orders[|b.orders|];
    FillMatchesEstimate(o, cfg, price);
    fill := Execute(o, cfg, price).fill;
    NothingReserved(b, p.account, p.symbol, mine);
  }

  lemma ClosedLeavesNoneOpen(b: Book, orders: seq<Order>, closed: Order, mine: set<int>)
    requires NoOpenOrders(b, mine) && !OpenStatus(closed.status)
    requires orders == b.orders + [closed]
    ensures forall x :: x in orders && x.account in mine ==> !OpenStatus(x.status)
  {
  }

  /** Submitting an order that will fill closes it and moves its account's cash; holds return to zero. */
  lemma SubmissionFills(m: Book, cfg: Settings, id: nat, price: real, how: LotMethod, at: int, fill: Fill) returns (closed: Order)
    requires Inv(m) && id < |m.orders| && OpenStatus(m.orders[id].status)
    requires SubmissionOf(m, cfg, id, Some(price)) == if m.orders[id].side == Buy then Bought(fill) else Sold(fill)
    ensures m.orders[id].account in m.accounts
    ensures var o := m.orders[id];
            var (c, out) := Submit(m, cfg, id, Some(price), how, at);
            var payer := m.accounts[o.account];
            var change := if o.side == Buy then -fill.net else fill.net;
      && out == Done(id)
      && !OpenStatus(closed.status) && c.orders == m.orders[id := closed]
      && c.accounts == m.accounts[o.account := payer.(cash := payer.cash + change, hold := payer.hold - o.reserved)]
  {
    var o := m.orders[id];
    KnownOrder(m, id);
    SubmitCases(m, cfg, id, Some(price), how, at);
    if o.side == Buy {
      BuyFilledTables(m, id, fill, at);
      closed := FilledOrder(o.(reserved := 0.0));
    } else {
      SellFilledTables(m, id, fill, how, at);
      closed := FilledOrder(o);
    }
  }

  /** A placeable, affordable proposal fills; cash moves by exactly the estimate and no order stays open. */
  lemma ProposalFills(b: Book, cfg: Settings, p: Proposal, quotes: map<string, real>, how: LotMethod, at: int, mine: set<int>)
    requires Inv(b) && NoOpenOrders(b, mine) && p.account in mine && AgreedCosts(cfg) && Placeable(b, cfg, p, quotes) && Affordable(b, cfg, p)
    ensures var (c, filled) := ExecuteOne(b, cfg, p, quotes, how, at);
      && filled
      && Inv(c) && NoOpenOrders(c, mine)
      && c.accounts.Keys == b.accounts.Keys
      && (forall a :: a in b.accounts ==> Available(c.accounts[a]) == Available(b.accounts[a]) + CashEffect(cfg, p, a))
  {
    var id, price := |b.orders|, quotes[p.symbol];
    var m, o, fill := PlacedOrder(b, cfg, p, quotes, mine);
    OrderIsPlaced(b, cfg, p, quotes, mine);
    assert m.orders[id] == o;
    SubmitKeepsInv(m, cfg, id, Some(price), how, at);
    var closed := SubmissionFills(m, cfg, id, price, how, at, fill);
    assert m.orders[id := closed] == b.orders + [closed];
    ClosedLeavesNoneOpen(b, b.orders + [closed], closed, mine);
  }

  /** Executing a sale leaves every other holding as it was. */
  lemma OtherHoldingsStay(b: Book, cfg: Settings, p: Proposal, quotes: map<string, real>, how: LotMethod, at: int, mine: set<int>, a: int, s: string)
    requires Inv(b) && NoOpenOrders(b, mine) && p.account in mine && AgreedCosts(cfg) && Placeable(b, cfg, p, quotes) && Affordable(b, cfg, p)
    requires p.side == Sell && (a, s) != (p.account, p.symbol)
    ensures Held(ExecuteOne(b, cfg, p, quotes, how, at).0.lots, a, s) == Held(b.lots, a, s)
  {
    var id, price := |b.orders|, quotes[p.symbol];
    var m, o, fill := PlacedOrder(b, cfg, p, quotes, mine);
    OrderIsPlaced(b, cfg, p, quotes, mine);
    assert m.orders[id] == o;
    SubmitCases(m, cfg, id, Some(price), how, at);
    SellFilledTables(m, id, fill, how, at);
    PromisedSharesAreHeld(m, id);
    SaleHeld(m, p.account, p.symbol, p.quantity, fill.price, how, at, a, s);
  }

  lemma {:induction false} NoMoreSales(cfg: Settings, ps: seq<Proposal>, account: int)
    requires SellsFirst(ps) && ps != [] && ps[0].side == Buy
    ensures SumBy(ps, SaleNet(cfg, account)) == 0.0
  {
    forall p | p in ps ensures SaleNet(cfg, account)(p) == 0.0 {
      var i :| 0 <= i < |ps| && ps[i] == p;
    }
    SumByZero(ps, SaleNet(cfg, account));
  }

  lemma BuyCostsNonnegative(cfg: Settings, ps: seq<Proposal>, account: int)
    requires AgreedCosts(cfg) && forall p :: p in ps ==> p.notional > 0.0
    ensures 0.0 <= SumBy(ps, BuyCost(cfg, account))
    ensures forall p :: p in ps ==> BuyCost(cfg, account)(p) <= SumBy(ps, BuyCost(cfg, account))
  {
    forall p | p in ps ensures 0.0 <= BuyCost(cfg, account)(p) {
      CostsAtLeastNotional(cfg, p.notional);
    }
    SumByNonnegative(ps, BuyCost(cfg, account));
  }

  lemma FirstIsAffordable(b: Book, cfg: Settings, ps: seq<Proposal>, quotes: map<string, real>, mine: set<int>)
    requires AgreedCosts(cfg) && Executable(b, cfg, ps, quotes, mine) && ps != []
    ensures Placeable(b, cfg, ps[0], quotes) && Affordable(b, cfg, ps[0])
  {
    var p := ps[0];
    assert p in ps;
    assert FundedAt(b, cfg, ps, p.account);
    if p.side == Buy {
      NoMoreSales(cfg, ps, p.account);
      BuyCostsNonnegative(cfg, ps, p.account);
      assert BuyCost(cfg, p.account)(p) == GrossPurchaseCost(cfg, p.notional);
    }
  }

  /** After its first proposal, the rest of an executable plan is executable from the new tables. */
  lemma RestIsExecutable(b: Book, cfg: Settings, ps: seq<Proposal>, quotes: map<string, real>, how: LotMethod, at: int, mine: set<int>)
    requires AgreedCosts(cfg) && Executable(b, cfg, ps, quotes, mine) && ps != []
    ensures Executable(ExecuteOne(b, cfg, ps[0], quotes, how, at).0, cfg, ps[1..], quotes, mine)
  {
    var p, rest := ps[0], ps[1..];
    var c := ExecuteOne(b, cfg, p, quotes, how, at).0;
    FirstIsAffordable(b, cfg, ps, quotes, mine);
    ProposalFills(b, cfg, p, quotes, how, at, mine);
    forall q | q in rest && q.side == Sell ensures q.quantity <= Held(c.lots, q.account, q.symbol) {
      LaterSaleIsHeld(b, cfg, ps, quotes, how, at, mine, q);
    }
    forall a | a in mine ensures FundedAt(c, cfg, rest, a) {
      FundingMovesOn(b, c, cfg, ps, a);
    }
    forall q | q in rest ensures q.account in mine && Placeable(c, cfg, q, quotes) {
      assert q in ps;
    }
    SellsFirstOfRest(ps);
    assert SellsHeld(c, rest);
  }

  lemma SellsFirstOfRest(ps: seq<Proposal>)
    requires SellsFirst(ps) && ps != []
    ensures SellsFirst(ps[1..])
  {
    forall i, j | 0 <= i < j < |ps[1..]| && ps[1..][j].side == Sell ensures ps[1..][i].side == Sell {
      assert ps[j + 1].side == Sell && ps[i + 1].side == Sell;
    }
  }

  lemma LaterSaleIsHeld(b: Book, cfg: Settings, ps: seq<Proposal>, quotes: map<string, real>, how: LotMethod, at: int, mine: set<int>, q: Proposal)
    requires AgreedCosts(cfg) && Executable(b, cfg, ps, quotes, mine) && ps != [] && q in ps[1..] && q.side == Sell
    ensures q.quantity <= Held(ExecuteOne(b, cfg, ps[0], quotes, how, at).0.lots, q.account, q.symbol)
  {
    var j :| 0 <= j < |ps[1..]| && ps[1..][j] == q;
    assert ps[j + 1] == q && q in ps;
    FirstIsAffordable(b, cfg, ps, quotes, mine);
    OtherHoldingsStay(b, cfg, ps[0], quotes, how, at, mine, q.account, q.symbol);
  }

  lemma FundingMovesOn(b: Book, c: Book, cfg: Settings, ps: seq<Proposal>, a: int)
    requires AgreedCosts(cfg) && ps != [] && SellsFirst(ps) && forall p :: p in ps ==> p.notional > 0.0
    requires a in b.accounts && a in c.accounts && FundedAt(b, cfg, ps, a)
    requires Available(c.accounts[a]) == Available(b.accounts[a]) + CashEffect(cfg, ps[0], a)
    ensures FundedAt(c, cfg, ps[1..], a)
  {
    SumByHead(ps, SaleNet(cfg, a));
    SumByHead(ps, BuyCost(cfg, a));
    if ps[0].side == Buy {
      NoMoreSales(cfg, ps, a);
      forall p | p in ps[1..] ensures p in ps {
      }
      BuyCostsNonnegative(cfg, ps[1..], a);
    }
  }

  /** An executable plan executes in full: every proposal is accepted and filled in sequence, and every
      account ends with exactly its estimated cash, not overdrawn. */
  lemma {:induction false} PlanExecutes(b: Book, cfg: Settings, ps: seq<Proposal>, quotes: map<string, real>, how: LotMethod, at: int, mine: set<int>)
    requires AgreedCosts(cfg) && Executable(b, cfg, ps, quotes, mine)
    ensures var (c, n) := ExecuteInOrder(b, cfg, ps, quotes, how, at);
      && n == |ps|
      && Inv(c) && NoOpenOrders(c, mine)
      && c.accounts.Keys == b.accounts.Keys
      && forall a :: a in mine ==>
           && Available(c.accounts[a])
              == Available(b.accounts[a]) + SumBy(ps, SaleNet(cfg, a)) - SumBy(ps, BuyCost(cfg, a))
           && Available(c.accounts[a]) >= 0.0
    decreases |ps|
  {
    if ps == [] {
      forall a | a in mine ensures Available(b.accounts[a]) >= 0.0 {
        assert FundedAt(b, cfg, ps, a);
      }
    } else {
      FirstIsAffordable(b, cfg, ps, quotes, mine);
      ProposalFills(b, cfg, ps[0], quotes, how, at, mine);
      RestIsExecutable(b, cfg, ps, quotes, how, at, mine);
      var c := ExecuteOne(b, cfg, ps[0], quotes, how, at).0;
      PlanExecutes(c, cfg, ps[1..], quotes, how, at, mine);
      forall a | a in mine
        ensures SumBy(ps, SaleNet(cfg, a)) == SaleNet(cfg, a)(ps[0]) + SumBy(ps[1..], SaleNet(cfg, a))
        ensures SumBy(ps, BuyCost(cfg, a)) == BuyCost(cfg, a)(ps[0]) + SumBy(ps[1..], BuyCost(cfg, a))
      {
        SumByHead(ps, SaleNet(cfg, a));
        SumByHead(ps, BuyCost(cfg, a));
      }
    }
  }

  /** Every prefix of an executable plan is executable, so no account is overdrawn part-way either. */
  lemma PrefixIsExecutable(b: Book, cfg: Settings, ps: seq<Proposal>, quotes: map<string, real>, mine: set<int>, k: nat)
    requires AgreedCosts(cfg) && Executable(b, cfg, ps, quotes, mine) && k <= |ps|
    ensures Executable(b, cfg, ps[..k], quotes, mine)
  {
    forall p | p in ps[..k] ensures p in ps {
    }
    forall a | a in mine ensures FundedAt(b, cfg, ps[..k], a) {
      assert FundedAt(b, cfg, ps, a);
      PrefixIsFunded(b, cfg, ps, a, k);
    }
  }

  lemma PrefixIsFunded(b: Book, cfg: Settings, ps: seq<Proposal>, a: int, k: nat)
    requires AgreedCosts(cfg) && SellsFirst(ps) && k <= |ps| && forall p :: p in ps ==> p.notional > 0.0
    requires a in b.accounts && FundedAt(b, cfg, ps, a)
    ensures FundedAt(b, cfg, ps[..k], a)
  {
    var before, after := ps[..k], ps[k..];
    assert ps == before + after;
    SumByConcat(before, after, SaleNet(cfg, a));
    SumByConcat(before, after, BuyCost(cfg, a));
    if after != [] && after[0].side == Sell {
      OnlySalesBefore(ps, k);
      SalesAloneAreFunded(cfg, before, a);
    } else {
      forall p | p in after ensures p in ps {
      }
      BuyCostsNonnegative(cfg, after, a);
      if after != [] {
        SellsFirstFrom(ps, k);
        NoMoreSales(cfg, after, a);
      }
    }
  }

  lemma SellsFirstFrom(ps: seq<Proposal>, k: nat)
    requires SellsFirst(ps) && k <= |ps|
    ensures SellsFirst(ps[k..])
  {
  }

  lemma OnlySalesBefore(ps: seq<Proposal>, k: nat)
    requires SellsFirst(ps) && k < |ps| && ps[k].side == Sell
    ensures forall p :: p in ps[..k] ==> p.side == Sell
  {
  }

  lemma SalesAloneAreFunded(cfg: Settings, ps: seq<Proposal>, a: int)
    requires forall p :: p in ps ==> p.side == Sell
    ensures SumBy(ps, BuyCost(cfg, a)) == 0.0 <= SumBy(ps, SaleNet(cfg, a))
  {
    SumByZero(ps, BuyCost(cfg, a));
    SumByNonnegative(ps, SaleNet(cfg, a));
  }
}
