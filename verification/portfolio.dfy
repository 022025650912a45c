/** Portfolio valuation: totals, weights and the limits a portfolio breaches. */
module Portfolio {
  import opened Wrappers
  import opened Sums
  import opened Ordering
  import opened TaxLots
  import opened Books

  datatype Holding = Holding(
    symbol: string, account: int, taxable: bool, quantity: real, price: real, marketValue: real,
    costBasis: real, assetClass: string, sector: Option<string>, fund: bool)

  /** One account's cash, and the part of it held for open orders. */
  datatype Purse = Purse(account: int, taxable: bool, cash: real, held: real)

  datatype View = View(holdings: seq<Holding>, purses: seq<Purse>)

  datatype Policy = Policy(
    maxPosition: real, maxSector: real, minCash: real, minNotional: real,
    targets: map<string, real>, bands: map<string, real>, defaultBand: real,
    lotMethod: LotMethod, shortRate: Option<real>, longRate: Option<real>)

  const MarketValue: Holding -> real := (h: Holding) => h.marketValue
  const CashOf: Purse -> real := (p: Purse) => p.cash
  const SpendableOf: Purse -> real := (p: Purse) => Max(0.0, p.cash - p.held)

  function Cash(v: View): real { SumBy(v.purses, CashOf) }

  function SpendableCash(v: View): real { SumBy(v.purses, SpendableOf) }

  function InvestedValue(v: View): real { SumBy(v.holdings, MarketValue) }

  /** The denominator of every weight; it includes cash. */
  function TotalValue(v: View): real { InvestedValue(v) + Cash(v) }

  function ValueOfSymbol(symbol: string): Holding -> real
  {
    (h: Holding) => if h.symbol == symbol then h.marketValue else 0.0
  }

  function SymbolValue(v: View, symbol: string): real
  {
    SumBy(v.holdings, ValueOfSymbol(symbol))
  }

  const UNCLASSIFIED := "Unclassified"

  /** A broad fund carries no single-sector exposure. */
  predicate DiversifiedFund(h: Holding)
  {
    h.fund && h.sector.None?
  }

  function SectorKey(h: Holding): string
  {
    if h.sector.Some? then h.sector.value else UNCLASSIFIED
  }

  predicate InSector(h: Holding, sector: string)
  {
    !DiversifiedFund(h) && SectorKey(h) == sector
  }

  function ValueOfSector(sector: string): Holding -> real
  {
    (h: Holding) => if InSector(h, sector) then h.marketValue else 0.0
  }

  function SectorValue(v: View, sector: string): real
  {
    SumBy(v.holdings, ValueOfSector(sector))
  }

  function TargetFor(p: Policy, assetClass: string): real
  {
    if assetClass in p.targets then p.targets[assetClass] else 0.0
  }

  function BandFor(p: Policy, assetClass: string): real
  {
    if assetClass in p.bands then p.bands[assetClass] else p.defaultBand
  }

  // --- Breaches ----------------------------------------------------------------------

  /** A position or sector over its limit, with the dollars over. */
  datatype Breach = PositionBreach(key: string, excess: real) | SectorBreach(key: string, excess: real)

  /** Rounded to cents. */
  function Cents(x: real): real
  {
    (x * 100.0 + 0.5).Floor as real / 100.0
  }

  function Weight(value: real, total: real): real
    requires total > 0.0
  {
    value / total
  }

  /** Dollars a weight is over its limit, to the cent. */
  function ExcessDollars(weight: real, limit: real, total: real): real
  {
    Cents((weight - limit) * total)
  }

  /** Keys in order of first appearance, as a dictionary keeps them. */
  function FirstSeen(keys: seq<string>): (r: seq<string>)
    ensures forall k :: k in r <==> k in keys
    ensures forall i, j :: 0 <= i < j < |r| ==> r[i] != r[j]
  {
    if keys == [] then []
    else
      var n := |keys| - 1;
      assert keys == keys[..n] + [keys[n]];
      var before := FirstSeen(keys[..n]);
      if keys[n] in before then before else before + [keys[n]]
  }

  function PositionBreaches(v: View, p: Policy, symbols: seq<string>): seq<Breach>
    requires TotalValue(v) > 0.0
  {
    if symbols == [] then []
    else
      var s := symbols[|symbols| - 1];
      var weight := Weight(SymbolValue(v, s), TotalValue(v));
      PositionBreaches(v, p, symbols[..|symbols| - 1])
        + if weight > p.maxPosition then [PositionBreach(s, ExcessDollars(weight, p.maxPosition, TotalValue(v)))] else []
  }

  /** Missing reference data is not a concentration a trim can fix. */
  function SectorBreaches(v: View, p: Policy, sectors: seq<string>): seq<Breach>
    requires InvestedValue(v) > 0.0
  {
    if sectors == [] then []
    else
      var s := sectors[|sectors| - 1];
      var weight := Weight(SectorValue(v, s), InvestedValue(v));
      SectorBreaches(v, p, sectors[..|sectors| - 1])
        + if s != UNCLASSIFIED && weight > p.maxSector then [SectorBreach(s, ExcessDollars(weight, p.maxSector, InvestedValue(v)))] else []
  }

  const LargestFirst: Breach -> Rank := (b: Breach) => Rank(0, if b.excess < 0.0 then b.excess else -b.excess)

  function Symbols(hs: seq<Holding>): seq<string>
  {
    if hs == [] then [] else Symbols(hs[..|hs| - 1]) + [hs[|hs| - 1].symbol]
  }

  function SectorKeys(hs: seq<Holding>): seq<string>
  {
    if hs == [] then []
    else SectorKeys(hs[..|hs| - 1]) + if DiversifiedFund(hs[|hs| - 1]) then [] else [SectorKey(hs[|hs| - 1])]
  }

  /** Positions measured against the whole portfolio, sectors against what is invested; largest excess first.
      The cash breaches the source also reports play no part in trimming. */
  function ConcentrationBreaches(v: View, p: Policy): seq<Breach>
  {
    if TotalValue(v) <= 0.0 then []
    else
      var positions := PositionBreaches(v, p, FirstSeen(Symbols(v.holdings)));
      var sectors := if InvestedValue(v) <= 0.0 then [] else SectorBreaches(v, p, FirstSeen(SectorKeys(v.holdings)));
      StableSort(positions + sectors, LargestFirst)
  }

  // --- The view of a ledger -------------------------------------------------------------

  /** A holding as `load_portfolio` prices it: the account's position at the current quote. */
  predicate PricedFrom(h: Holding, b: Book, quotes: map<string, real>)
  {
    && (h.account, h.symbol) in b.positions
    && h.symbol in quotes
    && h.quantity == b.positions[(h.account, h.symbol)].quantity
    && h.price == quotes[h.symbol] > 0.0
    && h.marketValue == Amount(h.quantity, h.price)
    && h.account in b.accounts && h.taxable == b.accounts[h.account].taxable
  }

  predicate DistinctHoldings(hs: seq<Holding>)
  {
    forall i, j :: 0 <= i < j < |hs| ==> (hs[i].account, hs[i].symbol) != (hs[j].account, hs[j].symbol)
  }

  predicate DistinctPurses(ps: seq<Purse>)
  {
    forall i, j :: 0 <= i < j < |ps| ==> ps[i].account != ps[j].account
  }

  predicate PurseOf(p: Purse, b: Book)
  {
    && p.account in b.accounts
    && p.cash == Max(0.0, b.accounts[p.account].cash)
    && p.held == Max(0.0, b.accounts[p.account].hold)
    && p.taxable == b.accounts[p.account].taxable
  }

  /** The view of a client's active accounts: their cash, and their priced positions once each. */
  predicate ViewOf(v: View, b: Book, quotes: map<string, real>)
  {
    && (forall h :: h in v.holdings ==> PricedFrom(h, b, quotes))
    && DistinctHoldings(v.holdings)
    && (forall p :: p in v.purses ==> PurseOf(p, b))
    && DistinctPurses(v.purses)
    && (forall h :: h in v.holdings ==> exists p :: p in v.purses && p.account == h.account)
  }

  /** Reference data on an instrument; one without any is taken as an unclassified equity. */
  datatype Listing = Listing(assetClass: string, sector: Option<string>, fund: bool)

  function ListingOf(reference: map<string, Listing>, symbol: string): Listing
  {
    if symbol in reference then reference[symbol] else Listing("us_equity", None, false)
  }

  predicate HasHolding(hs: seq<Holding>, account: int, symbol: string)
  {
    exists h :: h in hs && h.account == account && h.symbol == symbol
  }

  predicate Owns(purses: seq<Purse>, account: int)
  {
    exists p :: p in purses && p.account == account
  }

  lemma AddPurse(purses: seq<Purse>, p: Purse)
    requires DistinctPurses(purses) && !Owns(purses, p.account)
    ensures DistinctPurses(purses + [p])
    ensures forall a :: Owns(purses + [p], a) <==> (Owns(purses, a) || a == p.account)
  {
    forall a ensures Owns(purses + [p], a) <==> (Owns(purses, a) || a == p.account) {
      if Owns(purses, a) {
        var q :| q in purses && q.account == a;
        assert q in purses + [p];
      }
      if a == p.account {
        assert p in purses + [p];
      }
    }
  }

  /** A position of one of these accounts that has shares and a quote. */
  predicate Loadable(b: Book, accounts: set<int>, quotes: map<string, real>, keys: set<(int, string)>, account: int, symbol: string)
  {
    account in accounts && (account, symbol) in keys && (account, symbol) in b.positions
    && b.positions[(account, symbol)].quantity > 0.0 && symbol in quotes
  }

  method LoadPurses(b: Book, accounts: set<int>) returns (purses: seq<Purse>)
    requires accounts <= b.accounts.Keys
    ensures DistinctPurses(purses) && forall p :: p in purses ==> PurseOf(p, b)
    ensures forall a :: Owns(purses, a) <==> a in accounts
  {
    purses := [];
    var left := accounts;
    while left != {}
      invariant left <= accounts
      invariant DistinctPurses(purses)
      invariant forall p :: p in purses ==> PurseOf(p, b)
      invariant forall a :: Owns(purses, a) <==> (a in accounts && a !in left)
      decreases |left|
    {
      ghost var member := SomeMember(left);
      var a :| a in left;
      var row := b.accounts[a];
      var p := Purse(a, row.taxable, Max(0.0, row.cash), Max(0.0, row.hold));
      AddPurse(purses, p);
      purses := purses + [p];
      left := left - {a};
    }
  }

  method LoadHoldings(b: Book, accounts: set<int>, quotes: map<string, real>, reference: map<string, Listing>)
    returns (holdings: seq<Holding>)
    requires accounts <= b.accounts.Keys && forall s :: s in quotes ==> quotes[s] > 0.0
    ensures DistinctHoldings(holdings)
    ensures forall h :: h in holdings ==> h.account in accounts && PricedFrom(h, b, quotes)
    ensures forall a, s :: HasHolding(holdings, a, s) <==> Loadable(b, accounts, quotes, b.positions.Keys, a, s)
  {
    holdings := [];
    var left := b.positions.Keys;
    while left != {}
      invariant left <= b.positions.Keys
      invariant DistinctHoldings(holdings)
      invariant forall h :: h in holdings ==> h.account in accounts && PricedFrom(h, b, quotes)
      invariant forall a, s :: HasHolding(holdings, a, s) <==> Loadable(b, accounts, quotes, b.positions.Keys - left, a, s)
      decreases |left|
    {
      var key :| key in left;
      var position := b.positions[key];
      assert !HasHolding(holdings, key.0, key.1);
      if key.0 in accounts && position.quantity > 0.0 && key.1 in quotes {
        var listing := ListingOf(reference, key.1);
        var h := Holding(key.1, key.0, b.accounts[key.0].taxable, position.quantity, quotes[key.1],
                         Amount(position.quantity, quotes[key.1]), Amount(position.quantity, position.averageCost),
                         listing.assetClass, listing.sector, listing.fund);
        AddHolding(holdings, h);
        holdings := holdings + [h];
      }
      left := left - {key};
    }
  }

  lemma AddHolding(hs: seq<Holding>, h: Holding)
    requires DistinctHoldings(hs) && !HasHolding(hs, h.account, h.symbol)
    ensures DistinctHoldings(hs + [h])
    ensures forall a, s :: HasHolding(hs + [h], a, s) <==> (HasHolding(hs, a, s) || (a == h.account && s == h.symbol))
  {
    forall a, s ensures HasHolding(hs + [h], a, s) <==> (HasHolding(hs, a, s) || (a == h.account && s == h.symbol)) {
      if HasHolding(hs, a, s) {
        var g :| g in hs && g.account == a && g.symbol == s;
        assert g in hs + [h];
      }
      if a == h.account && s == h.symbol {
        assert h in hs + [h];
      }
    }
  }

  /** Price every position the client holds: one purse per account, and one holding for each position that
      has shares and a quote. Positions without a quote are left out of every total. */
  method LoadPortfolio(b: Book, accounts: set<int>, quotes: map<string, real>, reference: map<string, Listing>) returns (v: View)
    requires accounts <= b.accounts.Keys && forall s :: s in quotes ==> quotes[s] > 0.0
    ensures ViewOf(v, b, quotes)
    ensures forall a :: Owns(v.purses, a) <==> a in accounts
    ensures forall a, s :: HasHolding(v.holdings, a, s) <==> Loadable(b, accounts, quotes, b.positions.Keys, a, s)
  {
    var purses := LoadPurses(b, accounts);
    var holdings := LoadHoldings(b, accounts, quotes, reference);
    v := View(holdings, purses);
    forall h | h in v.holdings ensures exists p :: p in v.purses && p.account == h.account {
      assert Owns(purses, h.account);
    }
  }
}
