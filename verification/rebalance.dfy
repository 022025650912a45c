/** Turning a diagnosis into trades: trim what is over its limit, then spend each account's cash on
    what is underweight. Nothing here executes. */
module Rebalance {
  import opened Wrappers
  import opened Sums
  import opened Ordering
  import opened TaxLots
  import opened Books
  import opened PlanExecution
  import opened Portfolio

  const TOP_MARGINAL_RATE: real := 0.37
  const TOP_CAPITAL_GAINS_RATE: real := 0.20
  const TAX_GATE: real := 0.25
  const CASH_CLASS := "cash"

  datatype Pick = Pick(ticker: string, price: real, assetClass: Option<string>)

  datatype Deferred = DeferredTrim(symbol: string, amount: real) | DeferredBuy(symbol: string, amount: real)
                    | Unfilled(assetClass: string, amount: real)

  /** Everything a plan is built from. `classes` lists the asset classes alphabetically, once each. */
  datatype Inputs = Inputs(
    view: View, policy: Policy, cfg: Settings, lots: seq<Lot>, reference: map<string, Listing>,
    candidates: seq<Pick>, provider: map<string, seq<Pick>>, classes: seq<string>, maxProposals: nat, now: int)

  // --- Sizes -------------------------------------------------------------------------

  /** Rounded to a millionth of a share. */
  function Millionths(x: real): real
  {
    (x * 1000000.0 + 0.5).Floor as real / 1000000.0
  }

  /** Dollars to shares: whole shares round down; fractional shares round to nearest. */
  function RoundQuantity(fractional: bool, notional: real, price: real): Option<real>
  {
    if price <= 0.0 then None
    else
      var raw := notional / price;
      if fractional then (if raw > 0.0 then Some(Millionths(raw)) else None)
      else if raw.Floor >= 1 then Some(raw.Floor as real) else None
  }

  function Rate(onFile: Option<real>, top: real): real
  {
    if onFile.Some? then onFile.value else top
  }

  /** Tax a sale of these shares would realize, before it happens. */
  function EstimatedTax(inp: Inputs, account: int, symbol: string, quantity: real, price: real): real
  {
    var sold := Selected(OpenLots(inp.lots, account, symbol), quantity, price, inp.policy.lotMethod, inp.now);
    Amount(SumBy(sold, ShortGain), Rate(inp.policy.shortRate, TOP_MARGINAL_RATE))
      + Amount(SumBy(sold, LongGain), Rate(inp.policy.longRate, TOP_CAPITAL_GAINS_RATE))
  }

  // --- Trims ---------------------------------------------------------------------------

  type Planned = map<(int, string), real>

  datatype Trims = Trims(proposals: seq<Proposal>, planned: Planned, deferred: seq<Deferred>)

  datatype Allotment = Allotment(holding: Holding, amount: real)

  function PlannedFor(planned: Planned, h: Holding): real
  {
    if (h.account, h.symbol) in planned then planned[(h.account, h.symbol)] else 0.0
  }

  function PlannedIn(planned: Planned): Holding -> real
  {
    (h: Holding) => PlannedFor(planned, h)
  }

  predicate Covers(b: Breach, h: Holding)
  {
    match b
    case PositionBreach(key, _) => h.symbol == key
    case SectorBreach(key, _) => InSector(h, key)
  }

  function HoldingsFor(hs: seq<Holding>, b: Breach): seq<Holding>
  {
    if hs == [] then []
    else HoldingsFor(hs[..|hs| - 1], b) + if Covers(b, hs[|hs| - 1]) then [hs[|hs| - 1]] else []
  }

  /** Sheltered accounts first; within a group the largest unrealized gain first. */
  const TrimOrder: Holding -> Rank := (h: Holding) => Rank(if h.taxable then 1 else 0, h.costBasis - h.marketValue)

  function Sellable(planned: Planned, h: Holding): real
  {
    h.marketValue - PlannedFor(planned, h)
  }

  /** Fill `remaining` dollars from the holdings in order, never beyond what each has left to sell. */
  function Allot(ordered: seq<Holding>, remaining: real, planned: Planned): seq<Allotment>
  {
    if ordered == [] || remaining <= 0.0 then []
    else
      var sellable := Sellable(planned, ordered[0]);
      if sellable <= 0.0 then Allot(ordered[1..], remaining, planned)
      else
        var amount := Min(remaining, sellable);
        [Allotment(ordered[0], amount)] + Allot(ordered[1..], remaining - amount, planned)
  }

  function TrimTargets(v: View, b: Breach, excess: real, planned: Planned): seq<Allotment>
  {
    Allot(StableSort(HoldingsFor(v.holdings, b), TrimOrder), excess, planned)
  }

  /** What the next holding contributes, and what is then left to fill. */
  lemma AllotFrom(ordered: seq<Holding>, i: nat, remaining: real, planned: Planned) returns (first: seq<Allotment>, left: real)
    requires i < |ordered| && remaining > 0.0
    ensures Allot(ordered[i..], remaining, planned) == first + Allot(ordered[i + 1..], left, planned)
    ensures var sellable := Sellable(planned, ordered[i]);
      if sellable <= 0.0 then first == [] && left == remaining
      else first == [Allotment(ordered[i], Min(remaining, sellable))] && left == remaining - Min(remaining, sellable)
  {
    var sellable := Sellable(planned, ordered[i]);
    assert ordered[i..][1..] == ordered[i + 1..];
    first := if sellable <= 0.0 then [] else [Allotment(ordered[i], Min(remaining, sellable))];
    left := if sellable <= 0.0 then remaining else remaining - Min(remaining, sellable);
  }

  method AllotTargets(v: View, b: Breach, excess: real, planned: Planned) returns (targets: seq<Allotment>)
    ensures targets == TrimTargets(v, b, excess, planned)
  {
    var ordered := StableSort(HoldingsFor(v.holdings, b), TrimOrder);
    ghost var all := Allot(ordered, excess, planned);
    targets := [];
    var remaining := excess;
    var i := 0;
    assert ordered[0..] == ordered;
    while i < |ordered| && remaining > 0.0
      invariant 0 <= i <= |ordered|
      invariant all == targets + Allot(ordered[i..], remaining, planned)
    {
      ghost var first, left := AllotFrom(ordered, i, remaining, planned);
      Reassociates(targets, first, Allot(ordered[i + 1..], left, planned));
      var sellable := ordered[i].marketValue - PlannedFor(planned, ordered[i]);
      if sellable > 0.0 {
        var amount := Min(remaining, sellable);
        targets := targets + [Allotment(ordered[i], amount)];
        remaining := remaining - amount;
      } else {
        assert targets + first == targets;
      }
      i := i + 1;
    }
    assert Allot(ordered[i..], remaining, planned) == [];
  }

  predicate HasPurse(v: View, account: int)
  {
    exists p :: p in v.purses && p.account == account
  }

  /** A trim whose tax exceeds a quarter of the trade is left for a human. */
  predicate TooTaxing(inp: Inputs, t: Allotment)
  {
    var quantity := RoundQuantity(inp.cfg.fractional, t.amount, t.holding.price);
    && t.holding.taxable
    && EstimatedTax(inp, t.holding.account, t.holding.symbol, if quantity.Some? then quantity.value else 0.0, t.holding.price)
       > Amount(t.amount, TAX_GATE)
  }

  function SellProposal(inp: Inputs, h: Holding, quantity: real): Proposal
  {
    var tax := if h.taxable then EstimatedTax(inp, h.account, h.symbol, quantity, h.price) else 0.0;
    Proposal(h.symbol, Sell, h.account, Amount(quantity, h.price), quantity, tax, 0)
  }

  function TrimOne(inp: Inputs, st: Trims, t: Allotment): Trims
  {
    var h := t.holding;
    if t.amount < inp.policy.minNotional || !HasPurse(inp.view, h.account) then st
    else if TooTaxing(inp, t) then st.(deferred := st.deferred + [DeferredTrim(h.symbol, t.amount)])
    else
      var quantity := RoundQuantity(inp.cfg.fractional, t.amount, h.price);
      if quantity.None? || quantity.value <= 0.0 then st
      else
        var p := SellProposal(inp, h, quantity.value);
        st.(proposals := st.proposals + [p],
            planned := st.planned[(h.account, h.symbol) := PlannedFor(st.planned, h) + p.notional])
  }

  function TrimEach(inp: Inputs, st: Trims, ts: seq<Allotment>): Trims
  {
    if ts == [] then st else TrimOne(inp, TrimEach(inp, st, ts[..|ts| - 1]), ts[|ts| - 1])
  }

  /** Dollars still to trim for a breach, crediting what is already planned from the same holdings. */
  function Uncovered(v: View, b: Breach, planned: Planned): real
  {
    b.excess - SumBy(HoldingsFor(v.holdings, b), PlannedIn(planned))
  }

  function TrimBreach(inp: Inputs, st: Trims, b: Breach): Trims
  {
    var excess := Uncovered(inp.view, b, st.planned);
    if excess < inp.policy.minNotional then st
    else TrimEach(inp, st, TrimTargets(inp.view, b, excess, st.planned))
  }

  function TrimAll(inp: Inputs, bs: seq<Breach>): Trims
  {
    if bs == [] then Trims([], map[], []) else TrimBreach(inp, TrimAll(inp, bs[..|bs| - 1]), bs[|bs| - 1])
  }

  const PositionsFirst: Breach -> Rank := (b: Breach) => Rank(if b.PositionBreach? then 0 else 1, 0.0)

  function OrderedBreaches(inp: Inputs): seq<Breach>
  {
    StableSort(ConcentrationBreaches(inp.view, inp.policy), PositionsFirst)
  }

  method AlreadyPlanned(v: View, breach: Breach, planned: Planned) returns (already: real)
    ensures already == SumBy(HoldingsFor(v.holdings, breach), PlannedIn(planned))
  {
    var covered := HoldingsFor(v.holdings, breach);
    already := 0.0;
    for k := 0 to |covered|
      invariant already == SumBy(covered[..k], PlannedIn(planned))
    {
      assert covered[..k + 1][..k] == covered[..k];
      already := already + PlannedFor(planned, covered[k]);
    }
    assert covered[..|covered|] == covered;
  }

  method TrimHoldings(inp: Inputs, st: Trims, targets: seq<Allotment>) returns (after: Trims)
    ensures after == TrimEach(inp, st, targets)
  {
    var proposals, planned, deferred := st.proposals, st.planned, st.deferred;
    for j := 0 to |targets|
      invariant Trims(proposals, planned, deferred) == TrimEach(inp, st, targets[..j])
    {
      assert targets[..j + 1][..j] == targets[..j];
      var holding, amount := targets[j].holding, targets[j].amount;
      if amount >= inp.policy.minNotional && HasPurse(inp.view, holding.account) {
        var quantity := RoundQuantity(inp.cfg.fractional, amount, holding.price);
        var estimated := if quantity.Some? then quantity.value else 0.0;
        var tax := if holding.taxable
          then EstimatedTax(inp, holding.account, holding.symbol, estimated, holding.price) else 0.0;
        if holding.taxable && tax > Amount(amount, TAX_GATE) {
          deferred := deferred + [DeferredTrim(holding.symbol, amount)];
        } else if quantity.Some? && quantity.value > 0.0 {
          var filled := Amount(quantity.value, holding.price);
          proposals := proposals + [Proposal(holding.symbol, Sell, holding.account, filled, quantity.value, tax, 0)];
          planned := planned[(holding.account, holding.symbol) := PlannedFor(planned, holding) + filled];
        }
      }
    }
    assert targets[..|targets|] == targets;
    after := Trims(proposals, planned, deferred);
  }

  method PlanTrims(inp: Inputs, breaches: seq<Breach>) returns (trims: Trims)
    ensures trims == TrimAll(inp, breaches)
  {
    trims := Trims([], map[], []);
    for i := 0 to |breaches|
      invariant trims == TrimAll(inp, breaches[..i])
    {
      assert breaches[..i + 1][..i] == breaches[..i];
      var already := AlreadyPlanned(inp.view, breaches[i], trims.planned);
      var excess := breaches[i].excess - already;
      if excess >= inp.policy.minNotional {
        var targets := AllotTargets(inp.view, breaches[i], excess, trims.planned);
        trims := TrimHoldings(inp, trims, targets);
      }
    }
    assert breaches[..|breaches|] == breaches;
  }

  // --- Cash ----------------------------------------------------------------------------

  type CashMap = map<int, real>

  function Accounts(v: View): seq<int>
  {
    Ids(v.purses)
  }

  function Ids(ps: seq<Purse>): (r: seq<int>)
    ensures |r| == |ps| && forall i :: 0 <= i < |ps| ==> r[i] == ps[i].account
  {
    if ps == [] then [] else Ids(ps[..|ps| - 1]) + [ps[|ps| - 1].account]
  }

  function SpendableIn(account: int): Purse -> real
  {
    (p: Purse) => if p.account == account then SpendableOf(p) else 0.0
  }

  function SpendableByAccount(v: View): CashMap
  {
    map a | a in Accounts(v) :: SumBy(v.purses, SpendableIn(a))
  }

  /** Each account credited with the net proceeds of its own planned sales. */
  function Credited(cfg: Settings, cash: CashMap, sells: seq<Proposal>): CashMap
  {
    map a | a in cash :: cash[a] + SumBy(sells, SaleNet(cfg, a))
  }

  function CashAfterSales(inp: Inputs, sells: seq<Proposal>): CashMap
  {
    Credited(inp.cfg, SpendableByAccount(inp.view), sells)
  }

  function Lookup(cash: CashMap, a: int): real
  {
    if a in cash then cash[a] else 0.0
  }

  function CashIn(cash: CashMap): int -> real
  {
    (a: int) => Lookup(cash, a)
  }

  /** The first of the accounts with the most cash. */
  function Richest(accounts: seq<int>, cash: CashMap): (r: int)
    requires accounts != []
    ensures r in accounts
    ensures forall a :: a in accounts ==> Lookup(cash, a) <= Lookup(cash, r)
  {
    var n := |accounts| - 1;
    assert accounts == accounts[..n] + [accounts[n]];
    if n == 0 then accounts[0]
    else
      var best := Richest(accounts[..n], cash);
      if Lookup(cash, accounts[n]) > Lookup(cash, best) then accounts[n] else best
  }

  /** The policy floor is held back from the largest balance. */
  function Withhold(accounts: seq<int>, cash: CashMap, floor: real): CashMap
  {
    if accounts == [] || floor <= 0.0 then cash
    else
      var largest := Richest(accounts, cash);
      cash[largest := Max(0.0, Lookup(cash, largest) - floor)]
  }

  function CashFloor(inp: Inputs): real
  {
    Amount(inp.policy.minCash, TotalValue(inp.view))
  }

  function BuyingCash(inp: Inputs, sells: seq<Proposal>): CashMap
  {
    Withhold(Accounts(inp.view), CashAfterSales(inp, sells), CashFloor(inp))
  }

  // --- Underweights ----------------------------------------------------------------------

  datatype Underweight = Underweight(assetClass: string, drift: real, gap: real, breached: bool)

  function Left(planned: Planned, h: Holding): real
  {
    Max(0.0, h.marketValue - PlannedFor(planned, h))
  }

  function LeftIn(planned: Planned, assetClass: string): Holding -> real
  {
    (h: Holding) => if h.assetClass == assetClass then Left(planned, h) else 0.0
  }

  function Freed(planned: Planned): Holding -> real
  {
    (h: Holding) => h.marketValue - Left(planned, h)
  }

  /** What a class will be worth once the planned sales have moved its dollars into cash. */
  function ProjectedValue(v: View, planned: Planned, assetClass: string): real
  {
    SumBy(v.holdings, LeftIn(planned, assetClass))
      + if assetClass == CASH_CLASS then Cash(v) + SumBy(v.holdings, Freed(planned)) else 0.0
  }

  function Gap(v: View, p: Policy, planned: Planned, assetClass: string): real
    requires TotalValue(v) > 0.0
  {
    Amount(TargetFor(p, assetClass) - ProjectedValue(v, planned, assetClass) / TotalValue(v), TotalValue(v))
  }

  function DriftOf(v: View, p: Policy, planned: Planned, assetClass: string): Underweight
    requires TotalValue(v) > 0.0
  {
    var drift := ProjectedValue(v, planned, assetClass) / TotalValue(v) - TargetFor(p, assetClass);
    Underweight(assetClass, drift, Gap(v, p, planned, assetClass),
                drift > BandFor(p, assetClass) || -drift > BandFor(p, assetClass))
  }

  function Drifts(v: View, p: Policy, planned: Planned, classes: seq<string>): seq<Underweight>
    requires TotalValue(v) > 0.0
  {
    if classes == [] then []
    else Drifts(v, p, planned, classes[..|classes| - 1]) + [DriftOf(v, p, planned, classes[|classes| - 1])]
  }

  const WidestFirst: Underweight -> Rank := (d: Underweight) => Rank(0, if d.drift < 0.0 then d.drift else -d.drift)

  function ProjectedDrift(inp: Inputs, planned: Planned): seq<Underweight>
    requires TotalValue(inp.view) > 0.0
  {
    StableSort(Drifts(inp.view, inp.policy, planned, inp.classes), WidestFirst)
  }

  function Underweights(ds: seq<Underweight>, breachedOnly: bool): seq<Underweight>
  {
    if ds == [] then []
    else
      var d := ds[|ds| - 1];
      Underweights(ds[..|ds| - 1], breachedOnly) + if d.gap > 0.0 && (d.breached || !breachedOnly) then [d] else []
  }

  /** Breached underweights, or failing those the four widest underweights. */
  function ToFill(ds: seq<Underweight>): seq<Underweight>
  {
    var breached := Underweights(ds, true);
    if breached != [] then breached
    else
      var all := Underweights(ds, false);
      if |all| <= 4 then all else all[..4]
  }

  // --- Buys ------------------------------------------------------------------------------

  datatype Buys = Buys(proposals: seq<Proposal>, cash: CashMap, remaining: real, deferred: seq<Deferred>)

  function ClassOf(inp: Inputs, p: Pick): string
  {
    if p.assetClass.Some? then p.assetClass.value
    else if p.ticker in inp.reference then inp.reference[p.ticker].assetClass
    else "us_equity"
  }

  function PicksIn(inp: Inputs, ps: seq<Pick>, assetClass: string): seq<Pick>
  {
    if ps == [] then []
    else PicksIn(inp, ps[..|ps| - 1], assetClass) + if ClassOf(inp, ps[|ps| - 1]) == assetClass then [ps[|ps| - 1]] else []
  }

  /** Screened candidates for a class, or failing those what the provider offers for it. */
  function PicksFor(inp: Inputs, assetClass: string): seq<Pick>
  {
    var screened := PicksIn(inp, inp.candidates, assetClass);
    if screened != [] then screened
    else if assetClass in inp.provider then inp.provider[assetClass]
    else []
  }

  /** At most three names, and no more than the allocation can give a minimum trade each. */
  function Chosen(inp: Inputs, picks: seq<Pick>, allocation: real): (r: seq<Pick>)
    ensures picks != [] ==> 1 <= |r| <= 3
    ensures r <= picks
  {
    var n := (allocation / Max(inp.policy.minNotional, 1.0)).Floor;
    var k := if n < 1 then 1 else if n > 3 then 3 else n;
    if |picks| <= k then picks else picks[..k]
  }

  function BoughtOf(symbol: string): Proposal -> real
  {
    (p: Proposal) => if p.symbol == symbol then p.notional else 0.0
  }

  const NotionalOf: Proposal -> real := (p: Proposal) => p.notional

  /** Dollars that can be added to a symbol before it breaches its cap. */
  function PositionHeadroom(inp: Inputs, symbol: string, buys: seq<Proposal>): real
  {
    Max(0.0, Amount(inp.policy.maxPosition, TotalValue(inp.view))
             - (SymbolValue(inp.view, symbol) + SumBy(buys, BoughtOf(symbol))))
  }

  function SectorOf(inp: Inputs, symbol: string): Option<string>
  {
    if symbol in inp.reference then inp.reference[symbol].sector else None
  }

  function BoughtInSector(inp: Inputs, sector: string): Proposal -> real
  {
    (p: Proposal) => if SectorOf(inp, p.symbol) == Some(sector) then p.notional else 0.0
  }

  function LeftInSector(planned: Planned, sector: string): Holding -> real
  {
    (h: Holding) => if InSector(h, sector) then Left(planned, h) else 0.0
  }

  function SoldInSector(planned: Planned, sector: string): Holding -> real
  {
    (h: Holding) => if InSector(h, sector) then PlannedFor(planned, h) else 0.0
  }

  /** Dollars addable to a sector before it breaches its limit; None when unlimited. Sales in other
      sectors are not subtracted from the invested base. */
  function SectorHeadroom(inp: Inputs, sector: Option<string>, planned: Planned, buys: seq<Proposal>): Option<real>
  {
    if sector.None? then None
    else
      var s := sector.value;
      var exposure := SumBy(inp.view.holdings, LeftInSector(planned, s)) + SumBy(buys, BoughtInSector(inp, s));
      var invested := InvestedValue(inp.view) - SumBy(inp.view.holdings, SoldInSector(planned, s)) + SumBy(buys, NotionalOf);
      var cap := inp.policy.maxSector;
      if invested <= 0.0 then Some(0.0)
      else if cap >= 1.0 then None
      else Some(Max(0.0, (Amount(cap, invested) - exposure) / (1.0 - cap)))
  }

  function WithAtLeast(accounts: seq<int>, cash: CashMap, amount: real): (r: seq<int>)
    ensures forall a :: a in r ==> a in accounts && a in cash && cash[a] >= amount
    ensures forall a :: a in accounts && a in cash && cash[a] >= amount ==> a in r
  {
    if accounts == [] then []
    else
      var n := |accounts| - 1;
      assert accounts == accounts[..n] + [accounts[n]];
      WithAtLeast(accounts[..n], cash, amount)
        + if accounts[n] in cash && cash[accounts[n]] >= amount then [accounts[n]] else []
  }

  /** Prefer an account that can fund the whole amount; failing that, the richest that can fund a minimum trade. */
  function AccountForBuy(inp: Inputs, cash: CashMap, amount: real): (r: Option<int>)
    ensures r.Some? ==> r.value in Accounts(inp.view) && r.value in cash
  {
    var accounts := Accounts(inp.view);
    var fundable := WithAtLeast(accounts, cash, amount);
    if fundable != [] then Some(Richest(fundable, cash))
    else
      var partial := WithAtLeast(accounts, cash, inp.policy.minNotional);
      if partial != [] then Some(Richest(partial, cash)) else None
  }

  /** What an account can spend on one purchase and still pay the cost of trading. */
  function SpendableNow(cfg: Settings, cash: real): real
  {
    Max(0.0, cash - EstimatedCost(cfg, cash))
  }

  function MinOpt(a: real, b: Option<real>): real
  {
    if b.Some? then Min(a, b.value) else a
  }

  function BuyAmount(inp: Inputs, planned: Planned, st: Buys, symbol: string, share: real, cash: real): real
  {
    var room := SectorHeadroom(inp, SectorOf(inp, symbol), planned, st.proposals);
    Min(Min(MinOpt(Min(share, PositionHeadroom(inp, symbol, st.proposals)), room), st.remaining), SpendableNow(inp.cfg, cash))
  }

  function DeferBuy(inp: Inputs, planned: Planned, st: Buys, symbol: string, share: real): seq<Deferred>
  {
    var sector := SectorOf(inp, symbol);
    var room := SectorHeadroom(inp, sector, planned, st.proposals);
    if (sector.Some? && room.Some? && room.value < inp.policy.minNotional)
       || PositionHeadroom(inp, symbol, st.proposals) < inp.policy.minNotional
    then [DeferredBuy(symbol, share)] else []
  }

  function BuyOne(inp: Inputs, planned: Planned, st: Buys, pick: Pick, share: real): Buys
  {
    if pick.price <= 0.0 then st
    else
      var account := AccountForBuy(inp, st.cash, share);
      if account.None? then st
      else
        var amount := BuyAmount(inp, planned, st, pick.ticker, share, st.cash[account.value]);
        if amount < inp.policy.minNotional
        then st.(deferred := st.deferred + DeferBuy(inp, planned, st, pick.ticker, share))
        else
          var quantity := RoundQuantity(inp.cfg.fractional, amount, pick.price);
          if quantity.None? || quantity.value <= 0.0 then st
          else
            var notional := Amount(quantity.value, pick.price);
            Buys(st.proposals + [Proposal(pick.ticker, Buy, account.value, notional, quantity.value, 0.0, 1)],
                 st.cash[account.value := st.cash[account.value] - GrossPurchaseCost(inp.cfg, notional)],
                 st.remaining - notional,
                 st.deferred)
  }

  function BuyEach(inp: Inputs, planned: Planned, st: Buys, picks: seq<Pick>, share: real): Buys
  {
    if picks == [] then st
    else BuyOne(inp, planned, BuyEach(inp, planned, st, picks[..|picks| - 1], share), picks[|picks| - 1], share)
  }

  /** Fill one underweight; the flag says whether the plan may go on to the next. */
  function BuyClass(inp: Inputs, trims: Trims, st: Buys, d: Underweight): (Buys, bool)
  {
    var allocation := Min(d.gap, st.remaining);
    var picks := PicksFor(inp, d.assetClass);
    if allocation < inp.policy.minNotional then (st, true)
    else if picks == [] then (st.(deferred := st.deferred + [Unfilled(d.assetClass, allocation)]), true)
    else
      var chosen := Chosen(inp, picks, allocation);
      var after := BuyEach(inp, trims.planned, st, chosen, allocation / |chosen| as real);
      (after, |trims.proposals| + |after.proposals| < inp.maxProposals)
  }

  function BuyClasses(inp: Inputs, trims: Trims, st: Buys, ds: seq<Underweight>): Buys
    decreases |ds|
  {
    if ds == [] || st.remaining < inp.policy.minNotional then st
    else
      var (after, goOn) := BuyClass(inp, trims, st, ds[0]);
      if goOn then BuyClasses(inp, trims, after, ds[1..]) else after
  }

  function BuyAll(inp: Inputs, trims: Trims): Buys
  {
    var cash := BuyingCash(inp, trims.proposals);
    var investable := SumBy(Accounts(inp.view), CashIn(cash));
    var start := Buys([], cash, investable, []);
    if TotalValue(inp.view) <= 0.0 || investable < inp.policy.minNotional then start
    else BuyClasses(inp, trims, start, ToFill(ProjectedDrift(inp, trims.planned)))
  }

  // --- Merging and sequencing ------------------------------------------------------------

  predicate SameTrade(p: Proposal, q: Proposal)
  {
    p.account == q.account && p.symbol == q.symbol && p.side == q.side
  }

  function FindTrade(ps: seq<Proposal>, p: Proposal): (r: nat)
    ensures r <= |ps|
    ensures r < |ps| ==> SameTrade(ps[r], p)
    ensures forall i :: 0 <= i < r ==> !SameTrade(ps[i], p)
  {
    if ps == [] then 0
    else
      var n := |ps| - 1;
      var r := FindTrade(ps[..n], p);
      if r < n then r else if SameTrade(ps[n], p) then n else n + 1
  }

  function Combine(p: Proposal, q: Proposal): Proposal
  {
    p.(notional := p.notional + q.notional, quantity := Millionths(p.quantity + q.quantity), tax := p.tax + q.tax)
  }

  function MergeOne(ps: seq<Proposal>, p: Proposal): seq<Proposal>
  {
    var i := FindTrade(ps, p);
    if i < |ps| then ps[i := Combine(ps[i], p)] else ps + [p]
  }

  /** One trade per account, symbol and side, in order of first appearance. */
  function Merge(ps: seq<Proposal>): seq<Proposal>
  {
    if ps == [] then [] else MergeOne(Merge(ps[..|ps| - 1]), ps[|ps| - 1])
  }

  const SellsBeforeBuys: Proposal -> Rank := (p: Proposal) => Rank(if p.side == Sell then 0 else 1, 0.0)

  function Number(ps: seq<Proposal>): (r: seq<Proposal>)
    ensures |r| == |ps|
    ensures forall i :: 0 <= i < |ps| ==> r[i] == ps[i].(sequence := i)
  {
    if ps == [] then [] else Number(ps[..|ps| - 1]) + [ps[|ps| - 1].(sequence := |ps| - 1)]
  }

  function Sequence(ps: seq<Proposal>): seq<Proposal>
  {
    Number(StableSort(Merge(ps), SellsBeforeBuys))
  }

  /** The finished plan, in the order its sequence numbers give, and what it deliberately left undone. */
  function Plan(inp: Inputs): (seq<Proposal>, seq<Deferred>)
  {
    var trims := TrimAll(inp, OrderedBreaches(inp));
    var buys := BuyAll(inp, trims);
    (Sequence(trims.proposals + buys.proposals), trims.deferred + buys.deferred)
  }

  // --- The planner's loops -----------------------------------------------------------------

  method MergeDuplicates(ps: seq<Proposal>) returns (merged: seq<Proposal>)
    ensures merged == Merge(ps)
  {
    merged := [];
    for i := 0 to |ps|
      invariant merged == Merge(ps[..i])
    {
      assert ps[..i + 1][..i] == ps[..i];
      var at := 0;
      while at < |merged| && !SameTrade(merged[at], ps[i])
        invariant 0 <= at <= |merged|
        invariant forall k :: 0 <= k < at ==> !SameTrade(merged[k], ps[i])
      {
        at := at + 1;
      }
      if at < |merged| {
        merged := merged[at := Combine(merged[at], ps[i])];
      } else {
        merged := merged + [ps[i]];
      }
    }
    assert ps[..|ps|] == ps;
  }

  /** Spendable cash of the accounts of the first `n` purses. */
  function SpendableOfFirst(purses: seq<Purse>, n: nat): CashMap
    requires n <= |purses|
  {
    map a | a in Ids(purses[..n]) :: SumBy(purses, SpendableIn(a))
  }

  lemma OneMorePurse(purses: seq<Purse>, n: nat)
    requires DistinctPurses(purses) && n < |purses|
    ensures SpendableOfFirst(purses, n + 1) == SpendableOfFirst(purses, n)[purses[n].account := SpendableOf(purses[n])]
  {
    OwnPurse(purses, n);
    assert purses[..n + 1][..n] == purses[..n];
  }

  method SpendableCashByAccount(inp: Inputs) returns (cash: CashMap)
    requires DistinctPurses(inp.view.purses)
    ensures cash == SpendableByAccount(inp.view)
  {
    var purses := inp.view.purses;
    cash := map[];
    for i := 0 to |purses|
      invariant cash == SpendableOfFirst(purses, i)
    {
      OneMorePurse(purses, i);
      cash := cash[purses[i].account := SpendableOf(purses[i])];
    }
    assert purses[..|purses|] == purses;
  }

  method CreditSales(cfg: Settings, before: CashMap, sells: seq<Proposal>) returns (cash: CashMap)
    ensures cash == Credited(cfg, before, sells)
  {
    cash := before;
    for j := 0 to |sells|
      invariant cash == Credited(cfg, before, sells[..j])
    {
      assert sells[..j + 1][..j] == sells[..j];
      var p := sells[j];
      if p.side == Sell && p.account in cash {
        cash := cash[p.account := cash[p.account] + NetSaleProceeds(cfg, p.notional)];
      }
    }
    assert sells[..|sells|] == sells;
  }

  method LargestBalance(accounts: seq<int>, cash: CashMap) returns (largest: int)
    requires accounts != []
    ensures largest == Richest(accounts, cash)
  {
    largest := accounts[0];
    for k := 1 to |accounts|
      invariant largest == Richest(accounts[..k], cash)
    {
      assert accounts[..k + 1][..k] == accounts[..k];
      if Lookup(cash, accounts[k]) > Lookup(cash, largest) {
        largest := accounts[k];
      }
    }
    assert accounts[..|accounts|] == accounts;
  }

  method CashForBuying(inp: Inputs, sells: seq<Proposal>) returns (cash: CashMap)
    requires DistinctPurses(inp.view.purses)
    ensures cash == BuyingCash(inp, sells)
  {
    var before := SpendableCashByAccount(inp);
    cash := CreditSales(inp.cfg, before, sells);
    cash := HoldBack(Accounts(inp.view), cash, CashFloor(inp));
  }

  method HoldBack(accounts: seq<int>, before: CashMap, floor: real) returns (cash: CashMap)
    ensures cash == Withhold(accounts, before, floor)
  {
    cash := before;
    if accounts != [] && floor > 0.0 {
      var largest := LargestBalance(accounts, cash);
      cash := cash[largest := Max(0.0, Lookup(cash, largest) - floor)];
    }
  }

  lemma OwnPurse(purses: seq<Purse>, i: nat)
    requires DistinctPurses(purses) && i < |purses|
    ensures SumBy(purses, SpendableIn(purses[i].account)) == SpendableOf(purses[i])
    decreases |purses|
  {
    var n := |purses| - 1;
    var f := SpendableIn(purses[i].account);
    if i == n {
      forall p | p in purses[..n] ensures f(p) == 0.0 {
        var k :| 0 <= k < n && purses[k] == p;
      }
      SumByZero(purses[..n], f);
    } else {
      OwnPurse(purses[..n], i);
    }
  }

  /** What can be bought of a pick from an account, and what is noted when that is too little. */
  method SizeBuy(inp: Inputs, planned: Planned, st: Buys, symbol: string, share: real, cash: real)
    returns (amount: real, deferred: seq<Deferred>)
    ensures amount == BuyAmount(inp, planned, st, symbol, share, cash)
    ensures deferred == DeferBuy(inp, planned, st, symbol, share)
  {
    var headroom := PositionHeadroom(inp, symbol, st.proposals);
    var sector := SectorOf(inp, symbol);
    var room := SectorHeadroom(inp, sector, planned, st.proposals);
    amount := Min(Min(MinOpt(Min(share, headroom), room), st.remaining), SpendableNow(inp.cfg, cash));
    deferred := [];
    if sector.Some? && room.Some? && room.value < inp.policy.minNotional {
      deferred := [DeferredBuy(symbol, share)];
    } else if headroom < inp.policy.minNotional {
      deferred := [DeferredBuy(symbol, share)];
    }
  }

  method BuyPick(inp: Inputs, planned: Planned, st: Buys, pick: Pick, share: real) returns (after: Buys)
    requires forall a :: a in Accounts(inp.view) ==> a in st.cash
    ensures after == BuyOne(inp, planned, st, pick, share)
  {
    var account := AccountForBuy(inp, st.cash, share);
    if pick.price <= 0.0 || account.None? {
      return st;
    }
    var amount, deferred := SizeBuy(inp, planned, st, pick.ticker, share, st.cash[account.value]);
    if amount < inp.policy.minNotional {
      return st.(deferred := st.deferred + deferred);
    }
    var quantity := RoundQuantity(inp.cfg.fractional, amount, pick.price);
    if quantity.None? || quantity.value <= 0.0 {
      return st;
    }
    var notional := Amount(quantity.value, pick.price);
    var bought := Proposal(pick.ticker, Buy, account.value, notional, quantity.value, 0.0, 1);
    var cash := st.cash[account.value := st.cash[account.value] - GrossPurchaseCost(inp.cfg, notional)];
    after := Buys(st.proposals + [bought], cash, st.remaining - notional, st.deferred);
  }

  method BuyPicks(inp: Inputs, planned: Planned, st: Buys, picks: seq<Pick>, share: real) returns (after: Buys)
    requires forall a :: a in Accounts(inp.view) ==> a in st.cash
    ensures after == BuyEach(inp, planned, st, picks, share)
    ensures forall a :: a in Accounts(inp.view) ==> a in after.cash
  {
    after := st;
    for j := 0 to |picks|
      invariant after == BuyEach(inp, planned, st, picks[..j], share)
      invariant forall a :: a in Accounts(inp.view) ==> a in after.cash
    {
      assert picks[..j + 1][..j] == picks[..j];
      after := BuyPick(inp, planned, after, picks[j], share);
    }
    assert picks[..|picks|] == picks;
  }

  method BuyUnderweights(inp: Inputs, trims: Trims, start: Buys, ds: seq<Underweight>) returns (st: Buys)
    requires forall a :: a in Accounts(inp.view) ==> a in start.cash
    ensures st == BuyClasses(inp, trims, start, ds)
  {
    st := start;
    var i := 0;
    while i < |ds| && st.remaining >= inp.policy.minNotional
      invariant 0 <= i <= |ds|
      invariant forall a :: a in Accounts(inp.view) ==> a in st.cash
      invariant BuyClasses(inp, trims, st, ds[i..]) == BuyClasses(inp, trims, start, ds)
    {
      assert ds[i..][1..] == ds[i + 1..];
      var entry := ds[i];
      var allocation := Min(entry.gap, st.remaining);
      if allocation >= inp.policy.minNotional {
        var picks := PicksFor(inp, entry.assetClass);
        if picks == [] {
          st := st.(deferred := st.deferred + [Unfilled(entry.assetClass, allocation)]);
        } else {
          var chosen := Chosen(inp, picks, allocation);
          st := BuyPicks(inp, trims.planned, st, chosen, allocation / |chosen| as real);
          if |trims.proposals| + |st.proposals| >= inp.maxProposals {
            return;
          }
        }
      }
      i := i + 1;
    }
  }

  method TotalCash(accounts: seq<int>, cash: CashMap) returns (total: real)
    ensures total == SumBy(accounts, CashIn(cash))
  {
    total := 0.0;
    for i := 0 to |accounts|
      invariant total == SumBy(accounts[..i], CashIn(cash))
    {
      assert accounts[..i + 1][..i] == accounts[..i];
      total := total + Lookup(cash, accounts[i]);
    }
    assert accounts[..|accounts|] == accounts;
  }

  /** Build the plan. It is `Plan(inp)`, whose promises are proved beside it. */
  method PlanRebalance(inp: Inputs) returns (plan: seq<Proposal>, deferred: seq<Deferred>)
    requires DistinctPurses(inp.view.purses)
    ensures (plan, deferred) == Plan(inp)
  {
    var trims := PlanTrims(inp, OrderedBreaches(inp));
    var cash := CashForBuying(inp, trims.proposals);
    var investable := TotalCash(Accounts(inp.view), cash);
    var buys := Buys([], cash, investable, []);
    if TotalValue(inp.view) > 0.0 && investable >= inp.policy.minNotional {
      buys := BuyUnderweights(inp, trims, buys, ToFill(ProjectedDrift(inp, trims.planned)));
    }
    var merged := MergeDuplicates(trims.proposals + buys.proposals);
    plan := Number(StableSort(merged, SellsBeforeBuys));
    deferred := trims.deferred + buys.deferred;
  }
}
