/** The durable tables behind the money path, and what each write does to them.

    A `Book` is one committed state of the tables. Accounts keep their key; an order, lot or
    execution is identified by its index. Every operation here says the whole new state. */
module Books {
  import opened Wrappers
  import opened Sums
  import opened Ordering
  import opened TaxLots
  import opened LotSelection

  datatype Account = Account(org: int, client: int, taxable: bool, cash: real, hold: real)

  datatype Side = Buy | Sell

  datatype Status = Draft | PendingApproval | Approved | Submitted | Filled | Cancelled | Rejected | Failed

  datatype Order = Order(
    org: int, account: int, symbol: string, side: Side, limit: Option<real>, quantity: real,
    status: Status, filled: real, reserved: real, key: Option<string>)

  /** A fill. `deferred` is the loss moved into the opened lot's basis (zero for a sale); the
      source writes it to the replaced lot rather than to the execution. */
  datatype Execution = Execution(
    order: nat, account: int, symbol: string, side: Side, quantity: real, price: real,
    gross: real, commission: real, net: real, realizedGain: real, deferred: real)

  datatype Position = Position(quantity: real, averageCost: real)

  datatype Book = Book(
    accounts: map<int, Account>, orders: seq<Order>, lots: seq<Lot>,
    positions: map<(int, string), Position>, executions: seq<Execution>)

  datatype Settings = Settings(
    slippage: real,          // fraction of price: SIM_SLIPPAGE_BPS / 10,000
    commissionRate: real,    // fraction of gross: SIM_COMMISSION_BPS / 10,000
    commissionMin: real, minOrder: real, fractional: bool, trading: bool)

  datatype Refusal =
    | UnknownSide | NotPositive | NotWhole | NoPrice | BelowMinimum | NotEnoughShares | NotEnoughCash
    | TradingDisabled | AlreadyFinal | NoAccount | LimitMissed | ShortSale

  datatype Outcome = Done(order: nat) | Refused(why: Refusal)

  predicate OpenStatus(s: Status)
  {
    s == Draft || s == PendingApproval || s == Approved || s == Submitted
  }

  // --- Tax lots ----------------------------------------------------------------

  /** The rollup is recomputed from open lots, never incremented. */
  function RebuildPosition(b: Book, account: int, symbol: string): Book
  {
    var shares := Held(b.lots, account, symbol);
    var cost := SumBy(b.lots, OpenBasis(account, symbol));
    if shares <= 0.0 then b.(positions := b.positions - {(account, symbol)})
    else b.(positions := b.positions[(account, symbol) := Position(shares, cost / shares)])
  }

  predicate RecentLoss(l: Lot, symbol: string, since: int)
  {
    l.symbol == symbol && l.disposedAt.Some? && l.disposedAt.value >= since && l.realizedGain < 0.0
  }

  function WindowStart(asOf: int): int
  {
    asOf - WASH_SALE_WINDOW_DAYS * DAY
  }

  datatype Finding = Finding(loss: real, soldAt: int, daysRemaining: int, permanent: bool)

  predicate Blocks(l: Lot, taxable: set<int>, symbol: string, asOf: int)
  {
    l.account in taxable && RecentLoss(l, symbol, WindowStart(asOf)) && l.disposedAt.value <= asOf
  }

  function BlockingLots(lots: seq<Lot>, taxable: set<int>, symbol: string, asOf: int): seq<Lot>
  {
    if lots == [] then []
    else
      var l := lots[|lots| - 1];
      BlockingLots(lots[..|lots| - 1], taxable, symbol, asOf)
        + (if Blocks(l, taxable, symbol, asOf) then [l] else [])
  }

  function LatestDisposal(rows: seq<Lot>): int
    requires rows != [] && forall l :: l in rows ==> l.disposedAt.Some?
  {
    var last := rows[|rows| - 1];
    if |rows| == 1 then last.disposedAt.value
    else
      var earlier := LatestDisposal(rows[..|rows| - 1]);
      if earlier < last.disposedAt.value then last.disposedAt.value else earlier
  }

  const RealizedGain: Lot -> real := (l: Lot) => l.realizedGain

  lemma {:induction false} BlockingLotsMembers(lots: seq<Lot>, taxable: set<int>, symbol: string, asOf: int)
    ensures forall l :: l in BlockingLots(lots, taxable, symbol, asOf) <==> l in lots && Blocks(l, taxable, symbol, asOf)
  {
    if lots != [] {
      BlockingLotsMembers(lots[..|lots| - 1], taxable, symbol, asOf);
      assert lots == lots[..|lots| - 1] + [lots[|lots| - 1]];
    }
  }

  /** Would buying `symbol` now trigger a wash sale? `target` is the buying account's taxability, when known. */
  function CheckWashSale(lots: seq<Lot>, taxable: set<int>, symbol: string, target: Option<bool>, asOf: int): (r: Option<Finding>)
    ensures r.Some? <==> exists l :: l in lots && Blocks(l, taxable, symbol, asOf)
    ensures r.Some? ==> 0 <= r.value.daysRemaining <= WASH_SALE_WINDOW_DAYS && r.value.loss < 0.0
    ensures r.Some? ==> (r.value.permanent <==> target == Some(false))
  {
    var rows := BlockingLots(lots, taxable, symbol, asOf);
    BlockingLotsMembers(lots, taxable, symbol, asOf);
    if rows == [] then None
    else
      LossesAreNegative(rows);
      LatestIsOne(rows);
      assert rows[0] in rows;
      var soldAt := LatestDisposal(rows);
      var days := WASH_SALE_WINDOW_DAYS - (asOf - soldAt) / DAY;
      Some(Finding(SumBy(rows, RealizedGain), soldAt, if days < 0 then 0 else days, target == Some(false)))
  }

  lemma {:induction false} LossesAreNegative(rows: seq<Lot>)
    requires rows != [] && forall l :: l in rows ==> l.realizedGain < 0.0
    ensures SumBy(rows, RealizedGain) < 0.0
  {
    if |rows| > 1 {
      LossesAreNegative(rows[..|rows| - 1]);
    }
  }

  lemma {:induction false} LatestIsOne(rows: seq<Lot>)
    requires rows != [] && forall l :: l in rows ==> l.disposedAt.Some?
    ensures exists l :: l in rows && l.disposedAt.value == LatestDisposal(rows)
    ensures forall l :: l in rows ==> l.disposedAt.value <= LatestDisposal(rows)
  {
    if |rows| > 1 {
      LatestIsOne(rows[..|rows| - 1]);
      assert rows == rows[..|rows| - 1] + [rows[|rows| - 1]];
    }
    assert rows[|rows| - 1] in rows;
  }

  /** The lot a repurchase replaces: the most recently disposed loss in the window, in any account. */
  function ReplacedLot(lots: seq<Lot>, symbol: string, since: int): (r: Option<nat>)
    ensures r.Some? <==> exists l :: l in lots && RecentLoss(l, symbol, since)
    ensures r.Some? ==> r.value < |lots| && RecentLoss(lots[r.value], symbol, since)
    ensures r.Some? ==> forall l :: l in lots && RecentLoss(l, symbol, since)
                          ==> l.disposedAt.value <= lots[r.value].disposedAt.value
  {
    if lots == [] then None
    else
      var n := |lots| - 1;
      assert lots == lots[..n] + [lots[n]];
      var earlier := ReplacedLot(lots[..n], symbol, since);
      if !RecentLoss(lots[n], symbol, since) then earlier
      else if earlier.Some? && lots[n].disposedAt.value <= lots[earlier.value].disposedAt.value then earlier
      else Some(n)
  }

  function TaxableAccounts(b: Book, client: int): set<int>
  {
    set a | a in b.accounts && b.accounts[a].client == client && b.accounts[a].taxable
  }

  /** How much of what was sold a repurchase matches. */
  function Matched(quantity: real, sold: real): real
    requires sold > 0.0
  {
    Min(quantity, sold) / sold
  }

  /** The share of a loss (a negative gain) on `sold` shares that buying `quantity` shares defers. */
  function DeferredLoss(gain: real, sold: real, quantity: real): real
  {
    if sold <= 0.0 || Min(quantity, sold) <= 0.0 then 0.0 else Amount(Matched(quantity, sold), -gain)
  }

  /** The lot replaced by a purchase, if its loss is to be deferred into the new basis. */
  function Replaced(b: Book, account: int, symbol: string, quantity: real, at: int): (r: Option<nat>)
    requires account in b.accounts
    ensures r.Some? ==> r.value < |b.lots|
  {
    var buyer := b.accounts[account];
    var finding := CheckWashSale(b.lots, TaxableAccounts(b, buyer.client), symbol, Some(buyer.taxable), at);
    if finding.Some? && !finding.value.permanent && quantity > 0.0
    then ReplacedLot(b.lots, symbol, WindowStart(at))
    else None
  }

  function Deferral(b: Book, account: int, symbol: string, quantity: real, at: int): real
    requires account in b.accounts
  {
    var replaced := Replaced(b, account, symbol, quantity, at);
    if replaced.Some? then DeferredLoss(b.lots[replaced.value].realizedGain, b.lots[replaced.value].quantity, quantity) else 0.0
  }

  function OpenedLot(id: nat, account: int, symbol: string, quantity: real, price: real, deferred: real, at: int): Lot
  {
    var cost := if deferred != 0.0 && quantity != 0.0 then price + deferred / quantity else price;
    Lot(id, account, symbol, quantity, quantity, cost, at, None, 0.0, 0.0, None, 0.0, None)
  }

  /** Open a lot, with any wash-sale loss it inherits added to its basis. */
  function Purchase(b: Book, account: int, symbol: string, quantity: real, price: real, at: int): Book
    requires account in b.accounts
  {
    var replaced := Replaced(b, account, symbol, quantity, at);
    var deferred := Deferral(b, account, symbol, quantity, at);
    var lot := OpenedLot(|b.lots|, account, symbol, quantity, price, deferred, at);
    var lots :=
      if deferred != 0.0
      then b.lots[replaced.value := b.lots[replaced.value].(washSaleDisallowed := deferred, replacementLot := Some(|b.lots|))]
      else b.lots;
    RebuildPosition(b.(lots := lots + [lot]), account, symbol)
  }

  function Dispose(l: Lot, s: Selection, at: int): Lot
  {
    l.(remaining := Max(0.0, l.remaining - s.quantity),
       realizedGain := l.realizedGain + s.gain,
       proceeds := l.proceeds + s.proceeds,
       term := Some(s.term),
       disposedAt := Some(at))
  }

  function ApplySale(lots: seq<Lot>, sold: seq<Selection>, at: int): (r: seq<Lot>)
    ensures |r| == |lots|
  {
    if sold == [] then lots
    else
      var s := sold[|sold| - 1];
      var before := ApplySale(lots, sold[..|sold| - 1], at);
      // `SaleOfIsBacked` shows that a selection of a sale always names a row.
      if s.lotId < |before| then before[s.lotId := Dispose(before[s.lotId], s, at)] else before
  }

  predicate Numbered(lots: seq<Lot>)
  {
    forall i :: 0 <= i < |lots| ==> lots[i].id == i
  }

  /** What a sale would take from the account's open lots. */
  function SaleOf(b: Book, account: int, symbol: string, quantity: real, price: real, how: LotMethod, at: int): seq<Selection>
  {
    Selected(OpenLots(b.lots, account, symbol), quantity, price, how, at)
  }

  lemma {:induction false} OpenRowsMembers(lots: seq<Lot>, account: int, symbol: string)
    ensures forall l :: l in OpenRows(lots, account, symbol) <==> l in lots && IsOpen(l, account, symbol)
  {
    if lots != [] {
      OpenRowsMembers(lots[..|lots| - 1], account, symbol);
      assert lots == lots[..|lots| - 1] + [lots[|lots| - 1]];
    }
  }

  lemma OpenLotsMembers(lots: seq<Lot>, account: int, symbol: string)
    ensures forall l :: l in OpenLots(lots, account, symbol) <==> l in lots && IsOpen(l, account, symbol)
  {
    OpenRowsMembers(lots, account, symbol);
    StableSortSpec(OpenRows(lots, account, symbol), ByAge);
  }

  /** Every selection of a sale names an open lot of the holding and takes no more than it has. */
  lemma SaleOfIsBacked(b: Book, account: int, symbol: string, quantity: real, price: real, how: LotMethod, at: int)
    requires Numbered(b.lots)
    ensures forall s :: s in SaleOf(b, account, symbol, quantity, price, how, at) ==>
      && s.lotId < |b.lots|
      && IsOpen(b.lots[s.lotId], account, symbol)
      && 0.0 < s.quantity <= b.lots[s.lotId].remaining
      && s == Take(b.lots[s.lotId], s.quantity, price, at)
  {
    var lots := OpenLots(b.lots, account, symbol);
    var ordered := InSaleOrder(lots, price, how, at);
    OpenLotsMembers(b.lots, account, symbol);
    InSaleOrderMembers(lots, price, how, at);
    ConsumeShape(ordered, quantity, price, at);
    var sold := SaleOf(b, account, symbol, quantity, price, how, at);
    forall s | s in sold
      ensures s.lotId < |b.lots| && IsOpen(b.lots[s.lotId], account, symbol)
      ensures 0.0 < s.quantity <= b.lots[s.lotId].remaining && s == Take(b.lots[s.lotId], s.quantity, price, at)
    {
      var k :| 0 <= k < |sold| && sold[k] == s;
      assert ordered[k] in ordered;
      var i :| 0 <= i < |b.lots| && b.lots[i] == ordered[k];
    }
  }

  /** Consume lots and write the realized result; None when the account is short by more than the tolerance. */
  function Sale(b: Book, account: int, symbol: string, quantity: real, price: real, how: LotMethod, at: int): Option<Book>
  {
    var sold := SaleOf(b, account, symbol, quantity, price, how, at);
    if Shortfall(sold, quantity) > SHORTAGE_TOLERANCE then None
    else Some(RebuildPosition(b.(lots := ApplySale(b.lots, sold, at)), account, symbol))
  }
}
