/** Tax lots: which shares a sale consumes, what it realizes, and what a repurchase inherits.

    Money, prices and share quantities are exact reals. Stored quantities are multiples of
    1e-8 shares, so the source's 1e-9 share tolerances become tests against zero. Instants
    are seconds. A lot's `id` is its index in the table. */
module TaxLots {
  import opened Wrappers
  import opened Sums
  import opened Ordering

  const DAY: int := 86400
  const WASH_SALE_WINDOW_DAYS: int := 30
  const LONG_TERM_DAYS: int := 365
  const SHORTAGE_TOLERANCE: real := 0.000001

  datatype Term = ShortTerm | LongTerm

  datatype LotMethod = Hifo | Fifo | Lifo | MinTax

  datatype Lot = Lot(
    id: nat, account: int, symbol: string,
    quantity: real, remaining: real, cost: real, acquiredAt: int,
    disposedAt: Option<int>, proceeds: real, realizedGain: real, term: Option<Term>,
    washSaleDisallowed: real, replacementLot: Option<nat>)

  datatype Selection = Selection(
    lotId: nat, quantity: real, cost: real, acquiredAt: int,
    proceeds: real, gain: real, term: Term)

  /** "More than one year": whole days held must exceed 365. */
  function TermFor(acquiredAt: int, disposedAt: int): Term
  {
    if (disposedAt - acquiredAt) / DAY > LONG_TERM_DAYS then LongTerm else ShortTerm
  }

  // --- Columns that get totalled ---------------------------------------------

  const Shares: Selection -> real := (s: Selection) => s.quantity
  const Gain: Selection -> real := (s: Selection) => s.gain
  const Proceeds: Selection -> real := (s: Selection) => s.proceeds
  const Basis: Selection -> real := (s: Selection) => Amount(s.quantity, s.cost)
  const ShortGain: Selection -> real := (s: Selection) => if s.term == ShortTerm then s.gain else 0.0
  const LongGain: Selection -> real := (s: Selection) => if s.term == LongTerm then s.gain else 0.0

  /** Shares of a holding still open: zero for lots of another account or symbol. */
  function OpenShares(account: int, symbol: string): Lot -> real
  {
    (l: Lot) => if l.account == account && l.symbol == symbol then l.remaining else 0.0
  }

  /** Basis of a holding still open. */
  function OpenBasis(account: int, symbol: string): Lot -> real
  {
    (l: Lot) => if l.account == account && l.symbol == symbol then Amount(l.remaining, l.cost) else 0.0
  }

  function Held(lots: seq<Lot>, account: int, symbol: string): real
  {
    SumBy(lots, OpenShares(account, symbol))
  }

  // --- Reading lots ------------------------------------------------------------

  predicate IsOpen(l: Lot, account: int, symbol: string)
  {
    l.account == account && l.symbol == symbol && l.remaining > 0.0
  }

  function OpenRows(lots: seq<Lot>, account: int, symbol: string): seq<Lot>
  {
    if lots == [] then []
    else
      var l := lots[|lots| - 1];
      OpenRows(lots[..|lots| - 1], account, symbol) + (if IsOpen(l, account, symbol) then [l] else [])
  }

  const ByAge: Lot -> Rank := (l: Lot) => Rank(l.acquiredAt, 0.0)

  /** Lots with shares remaining, oldest first. */
  function OpenLots(lots: seq<Lot>, account: int, symbol: string): seq<Lot>
  {
    StableSort(OpenRows(lots, account, symbol), ByAge)
  }

  /** The order in which a method consumes lots; a lower rank is sold first. */
  function SaleRank(how: LotMethod, price: real, asOf: int): Lot -> Rank
  {
    match how
    case Fifo => ((l: Lot) => Rank(l.acquiredAt, 0.0))
    case Lifo => ((l: Lot) => Rank(-l.acquiredAt, 0.0))
    case Hifo => ((l: Lot) => Rank(0, -l.cost))
    case MinTax => ((l: Lot) =>
        Rank(if l.cost > price then 0 else if TermFor(l.acquiredAt, asOf) == LongTerm then 1 else 2, -l.cost))
  }

  function WithShares(lots: seq<Lot>): seq<Lot>
  {
    if lots == [] then []
    else WithShares(lots[..|lots| - 1]) + (if lots[|lots| - 1].remaining > 0.0 then [lots[|lots| - 1]] else [])
  }

  function Take(l: Lot, quantity: real, price: real, asOf: int): Selection
  {
    Selection(l.id, quantity, l.cost, l.acquiredAt, Amount(quantity, price),
              Amount(quantity, price) - Amount(quantity, l.cost), TermFor(l.acquiredAt, asOf))
  }

  /** Consume lots front to back until the quantity is met. */
  function Consume(ordered: seq<Lot>, quantity: real, price: real, asOf: int): seq<Selection>
  {
    if ordered == [] || quantity <= 0.0 then []
    else
      var taken := Min(quantity, ordered[0].remaining);
      if taken <= 0.0 then Consume(ordered[1..], quantity, price, asOf)
      else [Take(ordered[0], taken, price, asOf)] + Consume(ordered[1..], quantity - taken, price, asOf)
  }

  function InSaleOrder(lots: seq<Lot>, price: real, how: LotMethod, asOf: int): seq<Lot>
  {
    StableSort(WithShares(lots), SaleRank(how, price, asOf))
  }

  function Selected(lots: seq<Lot>, quantity: real, price: real, how: LotMethod, asOf: int): seq<Selection>
  {
    Consume(InSaleOrder(lots, price, how, asOf), quantity, price, asOf)
  }

  function Shortfall(selections: seq<Selection>, quantity: real): real
  {
    Max(0.0, quantity - SumBy(selections, Shares))
  }

  method OfferedLots(lots: seq<Lot>) returns (available: seq<Lot>)
    ensures available == WithShares(lots)
  {
    available := [];
    for i := 0 to |lots|
      invariant available == WithShares(lots[..i])
    {
      assert lots[..i + 1][..i] == lots[..i];
      if lots[i].remaining > 0.0 {
        available := available + [lots[i]];
      }
    }
    assert lots[..|lots|] == lots;
  }

  lemma ConsumeFrom(ordered: seq<Lot>, i: nat, remaining: real, price: real, asOf: int)
    requires i < |ordered| && remaining > 0.0
    ensures var taken := Min(remaining, ordered[i].remaining);
      Consume(ordered[i..], remaining, price, asOf)
      == if taken > 0.0 then [Take(ordered[i], taken, price, asOf)] + Consume(ordered[i + 1..], remaining - taken, price, asOf)
         else Consume(ordered[i + 1..], remaining, price, asOf)
  {
    assert ordered[i..][1..] == ordered[i + 1..];
  }

  method SelectLots(lots: seq<Lot>, quantity: real, price: real, how: LotMethod, asOf: int)
    returns (selections: seq<Selection>, shortfall: real)
    ensures selections == Selected(lots, quantity, price, how, asOf)
    ensures shortfall == Shortfall(selections, quantity)
  {
    var available := OfferedLots(lots);
    var ordered := StableSort(available, SaleRank(how, price, asOf));
    selections := [];
    var remaining := quantity;
    var i := 0;
    while i < |ordered|
      invariant 0 <= i <= |ordered|
      invariant selections + Consume(ordered[i..], remaining, price, asOf)
             == Consume(ordered, quantity, price, asOf)
      invariant remaining == quantity - SumBy(selections, Shares)
    {
      if remaining <= 0.0 {
        break;
      }
      var lot := ordered[i];
      var taken := Min(remaining, lot.remaining);
      ConsumeFrom(ordered, i, remaining, price, asOf);
      if taken > 0.0 {
        var chosen := Take(lot, taken, price, asOf);
        SumByAppend(selections, chosen, Shares);
        assert (selections + [chosen]) + Consume(ordered[i + 1..], remaining - taken, price, asOf)
            == selections + ([chosen] + Consume(ordered[i + 1..], remaining - taken, price, asOf));
        selections := selections + [chosen];
        remaining := remaining - taken;
      }
      i := i + 1;
    }
    assert Consume(ordered[i..], remaining, price, asOf) == [];
    shortfall := Max(0.0, remaining);
  }
}
