/** Order lifecycle: create with pre-trade checks, fill in simulation, cancel.

    The operations are given first as functions from one state of the tables to the next;
    `Ledger` is the session that applies them in place. */
module Broker {
  import opened Wrappers
  import opened Sums
  import opened TaxLots
  import opened Books

  const RESERVE_MARGIN: real := 1.01
  const CASH_TOLERANCE: real := 0.000001

  datatype Request = Request(
    account: int, side: Option<Side>, symbol: string, quantity: real,
    limit: Option<real>, key: Option<string>, status: Status)

  datatype Fill = Fill(price: real, gross: real, commission: real, net: real)

  datatype FillResult = Fills(fill: Fill) | Misses(why: Refusal)

  /** Modelled fill: the spread is crossed against the order, and trading is not free. */
  function Execute(o: Order, cfg: Settings, reference: real): FillResult
  {
    if o.quantity <= 0.0 then Misses(NotPositive)
    else if reference <= 0.0 then Misses(NoPrice)
    else
      var price := Amount(reference, if o.side == Buy then 1.0 + cfg.slippage else 1.0 - cfg.slippage);
      if o.limit.Some? && (if o.side == Buy then price > o.limit.value else price < o.limit.value) then Misses(LimitMissed)
      else
        var gross := Amount(o.quantity, price);
        var commission := Max(cfg.commissionMin, Amount(gross, cfg.commissionRate));
        Fills(Fill(price, gross, commission, if o.side == Buy then gross + commission else gross - commission))
  }

  /** Shares an order has promised to sell but not yet sold. */
  function Committed(account: int, symbol: string): Order -> real
  {
    (o: Order) =>
      if o.account == account && o.symbol == symbol && o.side == Sell && OpenStatus(o.status)
      then o.quantity - o.filled else 0.0
  }

  function OpenSellQuantity(orders: seq<Order>, account: int, symbol: string): real
  {
    SumBy(orders, Committed(account, symbol))
  }

  /** The order already recorded under an idempotency key, if any. */
  function Replay(orders: seq<Order>, org: int, key: Option<string>): (r: Option<nat>)
    ensures r.Some? ==> r.value < |orders| && orders[r.value].org == org && orders[r.value].key == key && key.Some?
    ensures r.None? && key.Some? ==> forall o :: o in orders && o.org == org ==> o.key != key
  {
    if orders == [] || key.None? then None
    else
      var n := |orders| - 1;
      assert orders == orders[..n] + [orders[n]];
      var earlier := Replay(orders[..n], org, key);
      if earlier.Some? then earlier
      else if orders[n].org == org && orders[n].key == key then Some(n)
      else None
  }

  function Available(a: Account): real
  {
    a.cash - a.hold
  }

  function PositionQuantity(b: Book, account: int, symbol: string): real
  {
    if (account, symbol) in b.positions then b.positions[(account, symbol)].quantity else 0.0
  }

  function IsWhole(x: real): bool
  {
    x == x.Floor as real
  }

  /** Pre-trade checks, in the order they are applied. */
  function Refuses(b: Book, cfg: Settings, r: Request, quote: Option<real>): Option<Refusal>
    requires r.account in b.accounts
  {
    if !cfg.fractional && !IsWhole(r.quantity) then Some(NotWhole)
    else if quote.None? then Some(NoPrice)
    else if Amount(r.quantity, quote.value) < cfg.minOrder then Some(BelowMinimum)
    else if r.side == Some(Sell) then
      if r.quantity > PositionQuantity(b, r.account, r.symbol) - OpenSellQuantity(b.orders, r.account, r.symbol)
      then Some(NotEnoughShares) else None
    else if Amount(r.quantity, quote.value) > Available(b.accounts[r.account]) + CASH_TOLERANCE
    then Some(NotEnoughCash) else None
  }

  function Created(b: Book, r: Request, price: real): Book
    requires r.account in b.accounts && r.side.Some?
  {
    var account := b.accounts[r.account];
    var reserved := if r.side == Some(Buy) then Amount(Amount(r.quantity, price), RESERVE_MARGIN) else 0.0;
    var order := Order(account.org, r.account, r.symbol, r.side.value, r.limit, r.quantity, r.status, 0.0, reserved, r.key);
    b.(accounts := b.accounts[r.account := account.(hold := account.hold + reserved)],
       orders := b.orders + [order])
  }

  function Create(b: Book, cfg: Settings, r: Request, quote: Option<real>): (Book, Outcome)
    requires r.account in b.accounts
  {
    if r.side.None? then (b, Refused(UnknownSide))
    else if r.quantity <= 0.0 then (b, Refused(NotPositive))
    else
      var replay := Replay(b.orders, b.accounts[r.account].org, r.key);
      if replay.Some? then (b, Done(replay.value))
      else
        var refusal := Refuses(b, cfg, r, quote);
        if refusal.Some? then (b, Refused(refusal.value))
        else (Created(b, r, quote.value), Done(|b.orders|))
  }

  /** Give back the cash an order was holding. */
  function Release(b: Book, id: nat): Book
    requires id < |b.orders|
  {
    var o := b.orders[id];
    if o.account !in b.accounts || o.reserved <= 0.0 then b
    else
      var a := b.accounts[o.account];
      b.(accounts := b.accounts[o.account := a.(hold := Max(0.0, a.hold - o.reserved))],
         orders := b.orders[id := o.(reserved := 0.0)])
  }

  function SetStatus(b: Book, id: nat, status: Status): Book
    requires id < |b.orders|
  {
    b.(orders := b.orders[id := b.orders[id].(status := status)])
  }

  function MoveCash(b: Book, account: int, amount: real): Book
    requires account in b.accounts
  {
    b.(accounts := b.accounts[account := b.accounts[account].(cash := b.accounts[account].cash + amount)])
  }

  function FilledOrder(o: Order): Order
  {
    o.(status := Filled, filled := o.quantity)
  }

  function BuyFilled(b: Book, id: nat, fill: Fill, at: int): Book
    requires id < |b.orders| && b.orders[id].account in b.accounts
  {
    var o := b.orders[id];
    var deferred := Deferral(b, o.account, o.symbol, o.quantity, at);
    var bought := Purchase(b, o.account, o.symbol, o.quantity, fill.price, at);
    var execution := Execution(id, o.account, o.symbol, Buy, o.quantity, fill.price, fill.gross, fill.commission, fill.net, 0.0, deferred);
    var paid := Release(MoveCash(bought, o.account, -fill.net), id);
    paid.(orders := paid.orders[id := FilledOrder(paid.orders[id])], executions := b.executions + [execution])
  }

  function SellFilled(b: Book, id: nat, fill: Fill, how: LotMethod, at: int): Option<Book>
    requires id < |b.orders| && b.orders[id].account in b.accounts
  {
    var o := b.orders[id];
    var sale := Sale(b, o.account, o.symbol, o.quantity, fill.price, how, at);
    if sale.None? then None
    else
      var gain := SumBy(SaleOf(b, o.account, o.symbol, o.quantity, fill.price, how, at), Gain);
      var execution := Execution(id, o.account, o.symbol, Sell, o.quantity, fill.price, fill.gross, fill.commission, fill.net, gain, 0.0);
      var paid := MoveCash(sale.value, o.account, fill.net);
      Some(paid.(orders := b.orders[id := FilledOrder(o)], executions := b.executions + [execution]))
  }

  /** Fill an order and apply every consequence, or fail it and free its cash. */
  function Submit(b: Book, cfg: Settings, id: nat, quote: Option<real>, how: LotMethod, at: int): (Book, Outcome)
    requires id < |b.orders|
  {
    var o := b.orders[id];
    if !cfg.trading then (b, Refused(TradingDisabled))
    else if o.status == Filled || o.status == Cancelled || o.status == Rejected then (b, Refused(AlreadyFinal))
    else if o.account !in b.accounts then (b, Refused(NoAccount))
    else if quote.None? then (Release(SetStatus(b, id, Failed), id), Refused(NoPrice))
    else
      var fill := Execute(o, cfg, quote.value);
      if fill.Misses? then (Release(SetStatus(b, id, Failed), id), Refused(fill.why))
      else if o.side == Buy then (BuyFilled(b, id, fill.fill, at), Done(id))
      else
        var sold := SellFilled(b, id, fill.fill, how, at);
        // A shortage raises out of the transaction, which the caller rolls back.
        if sold.None? then (b, Refused(ShortSale)) else (sold.value, Done(id))
  }

  function Cancel(b: Book, id: nat): (Book, Outcome)
    requires id < |b.orders|
  {
    var o := b.orders[id];
    if o.status == Filled || o.status == Cancelled then (b, Refused(AlreadyFinal))
    else (SetStatus(Release(b, id), id, Cancelled), Done(id))
  }
}
