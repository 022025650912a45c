/** The ledger as it is worked on: one session over the tables, changed in place a row at a time.

    Every method is the corresponding function on the whole tables, and the public ones keep the
    ledger's invariant. */
module Ledgers {
  import opened Wrappers
  import opened Sums
  import opened Ordering
  import opened TaxLots
  import opened Books
  import opened LotWrites
  import opened Broker
  import opened LedgerInvariants
  import opened LedgerRuns
  import opened PlanExecution
  import opened Portfolio
  import opened Rebalance
  import opened MergeProofs
  import opened PlanProofs

  /** A holding brought in at onboarding; an unknown acquisition date is taken as today. */
  datatype Opening = Opening(symbol: string, quantity: real, cost: real, acquiredAt: Option<int>)

  function SeededLot(id: nat, account: int, o: Opening, now: int): Lot
  {
    Lot(id, account, o.symbol, o.quantity, o.quantity, o.cost, if o.acquiredAt.Some? then o.acquiredAt.value else now,
        None, 0.0, 0.0, None, 0.0, None)
  }

  /** Lots with one opened for each holding of a positive quantity. */
  function Seeded(lots: seq<Lot>, account: int, os: seq<Opening>, now: int): seq<Lot>
  {
    if os == [] then lots
    else
      var before := Seeded(lots, account, os[..|os| - 1], now);
      var o := os[|os| - 1];
      if o.quantity <= 0.0 then before else before + [SeededLot(|before|, account, o, now)]
  }

  function SymbolsOf(os: seq<Opening>): set<string>
  {
    set o | o in os :: o.symbol
  }

  lemma {:induction false} SeededIsSound(lots: seq<Lot>, account: int, os: seq<Opening>, now: int)
    requires LotsOk(lots)
    ensures LotsOk(Seeded(lots, account, os, now)) && lots <= Seeded(lots, account, os, now)
    ensures forall l :: l in Seeded(lots, account, os, now) ==> l in lots || l.account == account
  {
    if os != [] {
      SeededIsSound(lots, account, os[..|os| - 1], now);
      var l := SeededLot(|Seeded(lots, account, os[..|os| - 1], now)|, account, os[|os| - 1], now);
      assert Amount(0.0, l.cost) == 0.0;
    }
  }

  /** Seeding only adds shares, and only to the symbols seeded. */
  lemma {:induction false} SeededHolding(lots: seq<Lot>, account: int, os: seq<Opening>, now: int, a: int, s: string)
    ensures Held(Seeded(lots, account, os, now), a, s) >= Held(lots, a, s)
    ensures a != account || s !in SymbolsOf(os) ==> SameHolding(lots, Seeded(lots, account, os, now), a, s)
  {
    if os != [] {
      var init, o := os[..|os| - 1], os[|os| - 1];
      SeededHolding(lots, account, init, now, a, s);
      assert os == init + [o];
      assert o.symbol in SymbolsOf(os);
      assert SymbolsOf(init) <= SymbolsOf(os);
      var before := Seeded(lots, account, init, now);
      var l := SeededLot(|before|, account, o, now);
      SumByAppend(before, l, OpenShares(a, s));
      SumByAppend(before, l, OpenBasis(a, s));
    }
  }

  /** Rebuilding a position makes its rollup exact and leaves the others as they were. */
  lemma RebuiltRollup(b: Book, account: int, symbol: string, a: int, s: string)
    requires (a, s) != (account, symbol) ==> RollupAt(b, a, s)
    ensures RollupAt(Books.RebuildPosition(b, account, symbol), a, s)
  {
  }

  /** Everything the invariant asks, but for the account's positions in these symbols. */
  ghost predicate AwaitsRollup(b: Book, account: int, symbols: set<string>)
  {
    && LotTable(b)
    && (forall a, s :: a != account || s !in symbols ==> RollupAt(b, a, s))
    && (forall o :: o in b.orders ==> OrderOk(b, o))
    && (forall a :: a in b.accounts ==> HoldAt(b, a))
    && (forall a, s :: CommittedAt(b, a, s))
  }

  lemma RolledUp(b: Book, account: int)
    requires AwaitsRollup(b, account, {})
    ensures Inv(b)
  {
  }

  lemma RebuiltAwaitsLess(b: Book, account: int, symbol: string, symbols: set<string>)
    requires AwaitsRollup(b, account, symbols)
    ensures AwaitsRollup(Books.RebuildPosition(b, account, symbol), account, symbols - {symbol})
  {
    var c := Books.RebuildPosition(b, account, symbol);
    forall a, s | a != account || s !in symbols - {symbol} ensures RollupAt(c, a, s) {
      RebuiltRollup(b, account, symbol, a, s);
    }
    forall o | o in c.orders ensures OrderOk(c, o) {
      assert OrderOk(b, o);
    }
    forall a | a in c.accounts ensures HoldAt(c, a) {
      assert HoldAt(b, a);
    }
    forall a, s ensures CommittedAt(c, a, s) {
      assert CommittedAt(b, a, s);
    }
  }

  lemma FirstThenRest(b: Book, cfg: Settings, ordered: seq<Proposal>, i: nat, quotes: map<string, real>, how: LotMethod, at: int,
                      c: Book, filled: bool)
    requires i < |ordered| && (c, filled) == ExecuteOne(b, cfg, ordered[i], quotes, how, at)
    ensures ExecuteInOrder(b, cfg, ordered[i..], quotes, how, at).0 == ExecuteInOrder(c, cfg, ordered[i + 1..], quotes, how, at).0
    ensures ExecuteInOrder(b, cfg, ordered[i..], quotes, how, at).1
         == ExecuteInOrder(c, cfg, ordered[i + 1..], quotes, how, at).1 + if filled then 1 else 0
  {
    assert ordered[i..][1..] == ordered[i + 1..];
  }

  class Ledger {
    var accounts: map<int, Account>
    var orders: seq<Order>
    var lots: seq<Lot>
    var positions: map<(int, string), Position>
    var executions: seq<Execution>

    ghost function Tables(): Book
      reads this
    {
      Book(accounts, orders, lots, positions, executions)
    }

    ghost predicate Valid()
      reads this
    {
      Inv(Tables())
    }

    /** An empty ledger for these accounts, with nothing reserved. */
    constructor (starting: map<int, Account>)
      requires forall a :: a in starting ==> starting[a].hold == 0.0
      ensures Valid()
      ensures accounts == starting && lots == [] && orders == [] && executions == []
    {
      accounts, orders, lots, positions, executions := starting, [], [], map[], [];
    }

    /** Recompute one position from its open lots. */
    method RebuildPosition(account: int, symbol: string)
      modifies `positions
      ensures Tables() == Books.RebuildPosition(old(Tables()), account, symbol)
    {
      var shares, cost := 0.0, 0.0;
      for i := 0 to |lots|
        invariant shares == SumBy(lots[..i], OpenShares(account, symbol))
        invariant cost == SumBy(lots[..i], OpenBasis(account, symbol))
      {
        assert lots[..i + 1][..i] == lots[..i];
        var lot := lots[i];
        if lot.account == account && lot.symbol == symbol {
          shares := shares + lot.remaining;
          cost := cost + Amount(lot.remaining, lot.cost);
        }
      }
      assert lots[..|lots|] == lots;
      if shares <= 0.0 {
        positions := positions - {(account, symbol)};
      } else {
        positions := positions[(account, symbol) := Position(shares, cost / shares)];
      }
    }

    /** Open lots at onboarding, then rebuild each symbol touched, in whatever order. */
    method Seed(account: int, os: seq<Opening>, now: int)
      requires Valid() && account in accounts
      modifies `lots, `positions
      ensures Valid()
      ensures lots == Seeded(old(lots), account, os, now)
    {
      for i := 0 to |os|
        invariant lots == Seeded(old(lots), account, os[..i], now) && positions == old(positions)
      {
        assert os[..i + 1][..i] == os[..i];
        if os[i].quantity > 0.0 {
          lots := lots + [SeededLot(|lots|, account, os[i], now)];
        }
      }
      assert os[..|os|] == os;
      SeededAwaitsRollup(old(Tables()), Tables(), account, os, now);
      RebuildSymbols(account, SymbolsOf(os));
    }

    /** Rebuild the account's positions in these symbols, in whatever order. */
    method RebuildSymbols(account: int, symbols: set<string>)
      requires AwaitsRollup(Tables(), account, symbols)
      modifies `positions
      ensures Valid()
    {
      var left := symbols;
      while left != {}
        invariant Tables() == old(Tables()).(positions := positions)
        invariant AwaitsRollup(Tables(), account, left)
        decreases |left|
      {
        ghost var member := SomeMember(left);
        var symbol :| symbol in left;
        ghost var previous := Tables();
        RebuildPosition(account, symbol);
        left := left - {symbol};
        RebuiltAwaitsLess(previous, account, symbol, left + {symbol});
        assert left + {symbol} - {symbol} == left;
      }
      RolledUp(Tables(), account);
    }

    /** Open a lot, adding to its basis any loss it defers, and roll the position up. */
    method RecordPurchase(account: int, symbol: string, quantity: real, price: real, at: int) returns (deferred: real)
      requires account in accounts
      modifies `lots, `positions
      ensures Tables() == Purchase(old(Tables()), account, symbol, quantity, price, at)
      ensures deferred == Deferral(old(Tables()), account, symbol, quantity, at)
    {
      var replaced := Replaced(Book(accounts, orders, lots, positions, executions), account, symbol, quantity, at);
      deferred := 0.0;
      if replaced.Some? {
        var lost := lots[replaced.value];
        deferred := DeferredLoss(lost.realizedGain, lost.quantity, quantity);
        if deferred != 0.0 {
          lots := lots[replaced.value := lost.(washSaleDisallowed := deferred, replacementLot := Some(|lots|))];
        }
      }
      lots := lots + [OpenedLot(|lots|, account, symbol, quantity, price, deferred, at)];
      RebuildPosition(account, symbol);
    }

    /** Write a sale's selections onto the lots they name. */
    method ConsumeLots(sold: seq<Selection>, at: int)
      modifies `lots
      ensures lots == ApplySale(old(lots), sold, at)
    {
      for i := 0 to |sold|
        invariant lots == ApplySale(old(lots), sold[..i], at)
      {
        assert sold[..i + 1][..i] == sold[..i];
        if sold[i].lotId < |lots| {
          lots := lots[sold[i].lotId := Dispose(lots[sold[i].lotId], sold[i], at)];
        }
      }
      assert sold[..|sold|] == sold;
    }

    /** Consume lots and write the realized result, or refuse a sale of shares that are not there. */
    method RecordSale(account: int, symbol: string, quantity: real, price: real, how: LotMethod, at: int)
      returns (done: bool, gain: real)
      modifies `lots, `positions
      ensures var sale := Sale(old(Tables()), account, symbol, quantity, price, how, at);
        done == sale.Some? && Tables() == if done then sale.value else old(Tables())
      ensures done ==> gain == SumBy(SaleOf(old(Tables()), account, symbol, quantity, price, how, at), Gain)
    {
      var open := OpenLots(lots, account, symbol);
      var sold, shortfall := SelectLots(open, quantity, price, how, at);
      gain := 0.0;
      if shortfall > SHORTAGE_TOLERANCE {
        return false, gain;
      }
      for i := 0 to |sold|
        invariant gain == SumBy(sold[..i], Gain)
      {
        assert sold[..i + 1][..i] == sold[..i];
        gain := gain + sold[i].gain;
      }
      assert sold[..|sold|] == sold;
      ConsumeLots(sold, at);
      RebuildPosition(account, symbol);
      done := true;
    }

    /** Shares already promised to open sell orders. */
    method CommittedShares(account: int, symbol: string) returns (committed: real)
      ensures committed == OpenSellQuantity(orders, account, symbol)
    {
      committed := 0.0;
      for i := 0 to |orders|
        invariant committed == SumBy(orders[..i], Committed(account, symbol))
      {
        assert orders[..i + 1][..i] == orders[..i];
        var o := orders[i];
        if o.account == account && o.symbol == symbol && o.side == Sell && OpenStatus(o.status) {
          committed := committed + (o.quantity - o.filled);
        }
      }
      assert orders[..|orders|] == orders;
    }

    method Recorded(org: int, key: Option<string>) returns (found: Option<nat>)
      ensures found == Replay(orders, org, key)
    {
      found := None;
      for i := 0 to |orders|
        invariant found == Replay(orders[..i], org, key)
      {
        assert orders[..i + 1][..i] == orders[..i];
        if found.None? && key.Some? && orders[i].org == org && orders[i].key == key {
          found := Some(i);
        }
      }
      assert orders[..|orders|] == orders;
    }

    /** The pre-trade checks: why this order may not be placed, if so. */
    method PreTrade(cfg: Settings, r: Request, quote: Option<real>) returns (refusal: Option<Refusal>)
      requires r.account in accounts
      ensures refusal == Refuses(Tables(), cfg, r, quote)
    {
      if !cfg.fractional && !IsWhole(r.quantity) {
        return Some(NotWhole);
      }
      if quote.None? {
        return Some(NoPrice);
      }
      var notional := Amount(r.quantity, quote.value);
      if notional < cfg.minOrder {
        return Some(BelowMinimum);
      }
      if r.side == Some(Sell) {
        var held := if (r.account, r.symbol) in positions then positions[(r.account, r.symbol)].quantity else 0.0;
        var committed := CommittedShares(r.account, r.symbol);
        return if r.quantity > held - committed then Some(NotEnoughShares) else None;
      }
      return if notional > Available(accounts[r.account]) + CASH_TOLERANCE then Some(NotEnoughCash) else None;
    }

    /** Place an order after its pre-trade checks, reserving cash for a buy. */
    method CreateOrder(cfg: Settings, r: Request, quote: Option<real>) returns (out: Outcome)
      requires Valid() && r.account in accounts && OpenStatus(r.status) && 0.0 <= cfg.minOrder
      modifies `accounts, `orders
      ensures (Tables(), out) == Create(old(Tables()), cfg, r, quote)
      ensures Valid()
    {
      StepKeepsInv(Tables(), cfg, CreateStep(r, quote));
      if r.side.None? {
        return Refused(UnknownSide);
      }
      if r.quantity <= 0.0 {
        return Refused(NotPositive);
      }
      var account := accounts[r.account];
      var replay := Recorded(account.org, r.key);
      if replay.Some? {
        return Done(replay.value);
      }
      var refusal := PreTrade(cfg, r, quote);
      if refusal.Some? {
        return Refused(refusal.value);
      }
      var reserved := 0.0;
      if r.side == Some(Buy) {
        reserved := Amount(Amount(r.quantity, quote.value), RESERVE_MARGIN);
      }
      accounts := accounts[r.account := account.(hold := account.hold + reserved)];
      out := Done(|orders|);
      orders := orders + [Order(account.org, r.account, r.symbol, r.side.value, r.limit, r.quantity, r.status, 0.0, reserved, r.key)];
    }

    /** Give back the cash an order was holding. */
    method ReleaseReservation(id: nat)
      requires id < |orders|
      modifies `accounts, `orders
      ensures Tables() == Release(old(Tables()), id)
    {
      var o := orders[id];
      if o.account in accounts && o.reserved > 0.0 {
        var a := accounts[o.account];
        accounts := accounts[o.account := a.(hold := Max(0.0, a.hold - o.reserved))];
        orders := orders[id := o.(reserved := 0.0)];
      }
    }

    method FailOrder(id: nat)
      requires id < |orders|
      modifies `accounts, `orders
      ensures Tables() == Release(SetStatus(old(Tables()), id, Failed), id)
    {
      orders := orders[id := orders[id].(status := Failed)];
      ReleaseReservation(id);
    }

    method SettleBuy(id: nat, fill: Fill, at: int)
      requires id < |orders| && orders[id].account in accounts
      modifies this
      ensures Tables() == BuyFilled(old(Tables()), id, fill, at)
    {
      var o := orders[id];
      var deferred := RecordPurchase(o.account, o.symbol, o.quantity, fill.price, at);
      accounts := accounts[o.account := accounts[o.account].(cash := accounts[o.account].cash + -fill.net)];
      ReleaseReservation(id);
      orders := orders[id := FilledOrder(orders[id])];
      executions := executions
        + [Execution(id, o.account, o.symbol, Buy, o.quantity, fill.price, fill.gross, fill.commission, fill.net, 0.0, deferred)];
    }

    method SettleSell(id: nat, fill: Fill, how: LotMethod, at: int) returns (done: bool)
      requires id < |orders| && orders[id].account in accounts
      modifies this
      ensures var after := SellFilled(old(Tables()), id, fill, how, at);
        done == after.Some? && Tables() == if done then after.value else old(Tables())
    {
      var o := orders[id];
      var gain;
      done, gain := RecordSale(o.account, o.symbol, o.quantity, fill.price, how, at);
      if done {
        accounts := accounts[o.account := accounts[o.account].(cash := accounts[o.account].cash + fill.net)];
        orders := orders[id := FilledOrder(o)];
        executions := executions
          + [Execution(id, o.account, o.symbol, Sell, o.quantity, fill.price, fill.gross, fill.commission, fill.net, gain, 0.0)];
      }
    }

    /** Fill an order and apply every consequence, or fail it and free its cash. */
    method SubmitOrder(cfg: Settings, id: nat, quote: Option<real>, how: LotMethod, at: int) returns (out: Outcome)
      requires id < |orders|
      modifies this
      ensures (Tables(), out) == Submit(old(Tables()), cfg, id, quote, how, at)
      ensures old(Valid() && orders[id].status != Failed) ==> Valid() && out != Refused(ShortSale)
    {
      ghost var sound := Valid() && orders[id].status != Failed;
      if sound {
        SubmitKeepsInv(Tables(), cfg, id, quote, how, at);
      }
      var o := orders[id];
      if !cfg.trading {
        return Refused(TradingDisabled);
      }
      if o.status == Filled || o.status == Cancelled || o.status == Rejected {
        return Refused(AlreadyFinal);
      }
      if o.account !in accounts {
        return Refused(NoAccount);
      }
      if quote.None? {
        FailOrder(id);
        return Refused(NoPrice);
      }
      var fill := Execute(o, cfg, quote.value);
      if fill.Misses? {
        FailOrder(id);
        return Refused(fill.why);
      }
      if o.side == Buy {
        SettleBuy(id, fill.fill, at);
        return Done(id);
      }
      var sold := SettleSell(id, fill.fill, how, at);
      out := if sold then Done(id) else Refused(ShortSale);
    }

    method CancelOrder(id: nat) returns (out: Outcome)
      requires Valid() && id < |orders|
      modifies `accounts, `orders
      ensures (Tables(), out) == Cancel(old(Tables()), id)
      ensures Valid()
    {
      ReleasedStatusKeepsInv(Tables(), id, Cancelled);
      if orders[id].status == Filled || orders[id].status == Cancelled {
        return Refused(AlreadyFinal);
      }
      ReleaseReservation(id);
      orders := orders[id := orders[id].(status := Cancelled)];
      out := Done(id);
    }

    /** Put the tables back as they were before a proposal that failed. */
    method Rollback(a: map<int, Account>, o: seq<Order>, l: seq<Lot>, p: map<(int, string), Position>, e: seq<Execution>)
      modifies this
      ensures Tables() == Book(a, o, l, p, e)
    {
      accounts, orders, lots, positions, executions := a, o, l, p, e;
    }

    /** Create and fill one proposal, or leave no trace of it. */
    method ExecuteProposal(cfg: Settings, p: Proposal, quotes: map<string, real>, how: LotMethod, at: int) returns (filled: bool)
      requires Valid() && 0.0 <= cfg.minOrder
      modifies this
      ensures (Tables(), filled) == ExecuteOne(old(Tables()), cfg, p, quotes, how, at)
      ensures Valid()
    {
      if p.account !in accounts {
        return false;
      }
      var a, o, l, ps, e := accounts, orders, lots, positions, executions;
      var placed := CreateOrder(cfg, OrderFor(p), Quote(quotes, p.symbol));
      if placed.Refused? || placed.order >= |orders| {
        Rollback(a, o, l, ps, e);
        return false;
      }
      var out := SubmitOrder(cfg, placed.order, Quote(quotes, p.symbol), how, at);
      if out.Refused? {
        Rollback(a, o, l, ps, e);
        return false;
      }
      filled := true;
    }

    /** What executing the proposals from the i-th on comes to. */
    ghost function RestOfPlan(cfg: Settings, ordered: seq<Proposal>, i: nat, quotes: map<string, real>, how: LotMethod, at: int): (Book, nat)
      requires i <= |ordered|
      reads this
    {
      ExecuteInOrder(Tables(), cfg, ordered[i..], quotes, how, at)
    }

    /** One turn of the loop: what is left to execute after it is the rest of the plan. */
    method ExecuteNext(cfg: Settings, ordered: seq<Proposal>, i: nat, quotes: map<string, real>, how: LotMethod, at: int)
      returns (filled: bool)
      requires Valid() && 0.0 <= cfg.minOrder && i < |ordered|
      modifies this
      ensures Valid()
      ensures old(RestOfPlan(cfg, ordered, i, quotes, how, at)).0 == RestOfPlan(cfg, ordered, i + 1, quotes, how, at).0
      ensures old(RestOfPlan(cfg, ordered, i, quotes, how, at)).1
           == RestOfPlan(cfg, ordered, i + 1, quotes, how, at).1 + if filled then 1 else 0
    {
      filled := ExecuteProposal(cfg, ordered[i], quotes, how, at);
      FirstThenRest(old(Tables()), cfg, ordered, i, quotes, how, at, Tables(), filled);
    }

    /** Carry out a plan in sequence order, each proposal on its own. */
    method ExecutePlan(cfg: Settings, plan: seq<Proposal>, quotes: map<string, real>, how: LotMethod, at: int) returns (filled: nat)
      requires Valid() && 0.0 <= cfg.minOrder
      modifies this
      ensures (Tables(), filled) == ExecuteProposals(old(Tables()), cfg, plan, quotes, how, at)
      ensures Valid()
    {
      var ordered := StableSort(plan, BySequence);
      filled := 0;
      var i := 0;
      ghost var whole := ExecuteInOrder(Tables(), cfg, ordered, quotes, how, at);
      assert ordered[0..] == ordered;
      while i < |ordered|
        invariant 0 <= i <= |ordered| && Valid()
        invariant RestOfPlan(cfg, ordered, i, quotes, how, at).0 == whole.0
        invariant RestOfPlan(cfg, ordered, i, quotes, how, at).1 + filled == whole.1
      {
        var done := ExecuteNext(cfg, ordered, i, quotes, how, at);
        if done {
          filled := filled + 1;
        }
        i := i + 1;
      }
    }

    /** Plan and carry out. From tables with no open orders and no account in debit, at unchanged prices and in whole shares,
        every proposal is filled exactly when each meets the minimum order, and then no account ends overdrawn. */
    method RebalanceAll(inp: Inputs, quotes: map<string, real>, at: int) returns (plan: seq<Proposal>, filled: nat)
      requires Valid() && 0.0 <= inp.cfg.minOrder && DistinctPurses(inp.view.purses)
      modifies this
      ensures plan == Plan(inp).0
      ensures Valid() && (Tables(), filled) == ExecuteProposals(old(Tables()), inp.cfg, plan, quotes, inp.policy.lotMethod, at)
      ensures old(BuiltFrom(inp, Tables(), quotes)) ==> (filled == |plan| <==> forall p :: p in plan ==> p.notional >= inp.cfg.minOrder)
      ensures old(BuiltFrom(inp, Tables(), quotes)) && filled == |plan| ==>
        forall a :: a in Mine(inp.view) ==> a in accounts && Available(accounts[a]) >= 0.0
    {
      var deferred;
      plan, deferred := PlanRebalance(inp);
      ghost var built := BuiltFrom(inp, Tables(), quotes);
      if built {
        PlanFillsInFullExactly(inp, Tables(), quotes, at);
        if forall p :: p in plan ==> p.notional >= inp.cfg.minOrder {
          PlanIsCarriedOut(inp, Tables(), quotes, at);
        }
      }
      filled := ExecutePlan(inp.cfg, plan, quotes, inp.policy.lotMethod, at);
    }

    /** Costs the planner and simulator agree on, whole shares, nothing open and nobody in debit on the client's accounts, and
        instruments on offer at their quotes. */
    ghost predicate Rebalanceable(client: set<int>, quotes: map<string, real>, cfg: Settings, candidates: seq<Pick>,
                                  provider: map<string, seq<Pick>>)
      reads this
    {
      && AgreedCosts(cfg) && !cfg.fractional && NoOpenOrders(Tables(), client)
      && (forall a :: a in client ==> a in accounts && accounts[a].cash >= 0.0)
      && forall p: Pick :: p in candidates || (exists c :: c in provider && p in provider[c])
           ==> p.price <= 0.0 || (p.ticker in quotes && quotes[p.ticker] == p.price)
    }

    /** Load a client's accounts at the current quotes, then plan and carry out. */
    method RebalanceClient(client: set<int>, quotes: map<string, real>, policy: Policy, cfg: Settings,
                           reference: map<string, Listing>, candidates: seq<Pick>, provider: map<string, seq<Pick>>,
                           classes: seq<string>, maxProposals: nat, at: int) returns (plan: seq<Proposal>, filled: nat)
      requires Valid() && client <= accounts.Keys && 0.0 <= cfg.minOrder
      requires forall s :: s in quotes ==> quotes[s] > 0.0
      modifies this
      ensures Valid() && (Tables(), filled) == ExecuteProposals(old(Tables()), cfg, plan, quotes, policy.lotMethod, at)
      ensures old(Rebalanceable(client, quotes, cfg, candidates, provider)) ==>
        (filled == |plan| <==> forall p :: p in plan ==> p.notional >= cfg.minOrder)
      ensures old(Rebalanceable(client, quotes, cfg, candidates, provider)) && filled == |plan| ==>
        forall a :: a in client ==> a in accounts && Available(accounts[a]) >= 0.0
    {
      var tables := Book(accounts, orders, lots, positions, executions);
      var view := LoadPortfolio(tables, client, quotes, reference);
      var inp := Inputs(view, policy, cfg, lots, reference, candidates, provider, classes, maxProposals, at);
      if Rebalanceable(client, quotes, cfg, candidates, provider) {
        BuiltForClient(inp, Tables(), quotes, client);
      }
      plan, filled := RebalanceAll(inp, quotes, at);
    }
  }

  lemma BuiltForClient(inp: Inputs, b: Book, quotes: map<string, real>, client: set<int>)
    requires Inv(b) && ViewOf(inp.view, b, quotes) && forall a :: Owns(inp.view.purses, a) <==> a in client
    requires AgreedCosts(inp.cfg) && !inp.cfg.fractional && NoOpenOrders(b, client)
    requires forall a :: a in client ==> a in b.accounts && b.accounts[a].cash >= 0.0
    requires PricesHold(inp, quotes)
    ensures Mine(inp.view) == client && BuiltFrom(inp, b, quotes)
  {
    ClientIsMine(inp.view, client);
  }

  lemma ClientIsMine(v: View, client: set<int>)
    requires forall a :: Owns(v.purses, a) <==> a in client
    ensures Mine(v) == client
  {
    forall a ensures a in Mine(v) <==> a in client {
      if a in client {
        assert HasPurse(v, a);
        HasAccount(v, a);
      }
      if a in Mine(v) {
        var i :| 0 <= i < |v.purses| && Accounts(v)[i] == a;
        assert v.purses[i] in v.purses;
      }
    }
  }

  lemma SeededAwaitsRollup(before: Book, after: Book, account: int, os: seq<Opening>, now: int)
    requires Inv(before) && account in before.accounts
    requires after == before.(lots := Seeded(before.lots, account, os, now))
    ensures AwaitsRollup(after, account, SymbolsOf(os))
  {
    SeededIsSound(before.lots, account, os, now);
    forall a, s ensures CommittedAt(after, a, s) {
      assert CommittedAt(before, a, s);
      SeededHolding(before.lots, account, os, now, a, s);
    }
    forall a, s | a != account || s !in SymbolsOf(os) ensures RollupAt(after, a, s) {
      assert RollupAt(before, a, s);
      SeededHolding(before.lots, account, os, now, a, s);
    }
    forall o | o in after.orders ensures OrderOk(after, o) {
      assert OrderOk(before, o);
    }
    forall a | a in after.accounts ensures HoldAt(after, a) {
      assert HoldAt(before, a);
    }
  }
}
