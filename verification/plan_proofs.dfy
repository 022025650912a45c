/** The planner and the broker agree: a plan built from the ledger is a plan the ledger can carry out. */
module PlanProofs {
  import opened Wrappers
  import opened Sums
  import opened Ordering
  import opened TaxLots
  import opened Books
  import opened LotWrites
  import opened Broker
  import opened LedgerInvariants
  import opened PlanExecution
  import opened Portfolio
  import opened Rebalance
  import opened TrimProofs
  import opened BuyProofs
  import opened MergeProofs

  function Mine(v: View): set<int>
  {
    set a | a in Accounts(v)
  }

  /** The prices of the instruments on offer are the quotes the trades will fill at. */
  ghost predicate PricesHold(inp: Inputs, quotes: map<string, real>)
  {
    forall p :: Offered(inp, p) && p.price > 0.0 ==> p.ticker in quotes && quotes[p.ticker] == p.price
  }

  /** The plan is built from these tables at these quotes: whole shares, no proportional commission, no open
      orders on the client's accounts and no account in debit. */
  ghost predicate BuiltFrom(inp: Inputs, b: Book, quotes: map<string, real>)
  {
    && AgreedCosts(inp.cfg) && !inp.cfg.fractional
    && Inv(b) && ViewOf(inp.view, b, quotes) && NoOpenOrders(b, Mine(inp.view))
    && (forall a :: a in Mine(inp.view) ==> a in b.accounts && b.accounts[a].cash >= 0.0)
    && PricesHold(inp, quotes)
  }

  // --- Every proposal is priced ------------------------------------------------------------------

  /** Whole shares of a quoted symbol, at its quote, for one of the client's accounts. */
  predicate Priced(p: Proposal, mine: set<int>, quotes: map<string, real>)
  {
    && p.account in mine
    && IsWhole(p.quantity) && p.quantity >= 1.0
    && p.symbol in quotes && quotes[p.symbol] > 0.0
    && p.notional == Amount(p.quantity, quotes[p.symbol])
  }

  lemma PricedIsPositive(p: Proposal, mine: set<int>, quotes: map<string, real>)
    requires Priced(p, mine, quotes)
    ensures p.notional > 0.0
  {
  }

  lemma MillionthsOfWhole(x: real)
    requires IsWhole(x)
    ensures Millionths(x) == x
  {
    var n := x.Floor * 1000000;
    assert x * 1000000.0 == n as real;
    assert (x * 1000000.0 + 0.5).Floor == n;
  }

  lemma WholeSum(x: real, y: real)
    requires IsWhole(x) && IsWhole(y)
    ensures IsWhole(x + y)
  {
    assert x + y == (x.Floor + y.Floor) as real;
  }

  lemma CombinePriced(p: Proposal, q: Proposal, mine: set<int>, quotes: map<string, real>)
    requires SameTrade(p, q) && Priced(p, mine, quotes) && Priced(q, mine, quotes)
    ensures Priced(Combine(p, q), mine, quotes)
  {
    WholeSum(p.quantity, q.quantity);
    MillionthsOfWhole(p.quantity + q.quantity);
    AmountAdds(p.quantity, q.quantity, quotes[p.symbol]);
  }

  lemma HasAccount(v: View, account: int)
    requires HasPurse(v, account)
    ensures account in Mine(v)
  {
    var p :| p in v.purses && p.account == account;
    var i :| 0 <= i < |v.purses| && v.purses[i] == p;
    assert Accounts(v)[i] == account;
  }

  lemma TrimsArePriced(inp: Inputs, b: Book, quotes: map<string, real>)
    requires BuiltFrom(inp, b, quotes)
    ensures forall p :: p in TrimAll(inp, OrderedBreaches(inp)).proposals ==> p.side == Sell && Priced(p, Mine(inp.view), quotes)
  {
    var ps := TrimAll(inp, OrderedBreaches(inp)).proposals;
    TrimAllProposals(inp, OrderedBreaches(inp));
    forall p | p in ps ensures p.side == Sell && Priced(p, Mine(inp.view), quotes) {
      var h :| TrimOf(inp, p, h);
      HasAccount(inp.view, p.account);
      assert PricedFrom(h, b, quotes);
    }
  }

  function PricedBuys(mine: set<int>, quotes: map<string, real>): Property
  {
    (ps: seq<Proposal>, cash: CashMap, left: real) => forall p :: p in ps ==> p.side == Buy && Priced(p, mine, quotes)
  }

  lemma BuysArePriced(inp: Inputs, trims: Trims, quotes: map<string, real>)
    requires !inp.cfg.fractional && PricesHold(inp, quotes)
    ensures forall p :: p in BuyAll(inp, trims).proposals ==> p.side == Buy && Priced(p, Mine(inp.view), quotes)
  {
    var keeps := PricedBuys(Mine(inp.view), quotes);
    forall st: Buys, pick: Pick, share: real
      | Holds(keeps, st) && Offered(inp, pick) && PurchaseFor(inp, trims.planned, st, pick, share).Some?
      ensures Holds(keeps, BuyOne(inp, trims.planned, st, pick, share))
    {
      BuyOneIs(inp, trims.planned, st, pick, share);
      PurchaseFits(inp, trims.planned, st, pick, share);
    }
    BuyAllKeeps(inp, trims, keeps);
  }

  /** All proposals before merging: the trims, then the purchases. */
  function Drafted(inp: Inputs): seq<Proposal>
  {
    var trims := TrimAll(inp, OrderedBreaches(inp));
    trims.proposals + BuyAll(inp, trims).proposals
  }

  lemma DraftIsPriced(inp: Inputs, b: Book, quotes: map<string, real>)
    requires BuiltFrom(inp, b, quotes)
    ensures forall p :: p in Drafted(inp) ==> Priced(p, Mine(inp.view), quotes) && p.notional > 0.0
    ensures forall p :: p in Merge(Drafted(inp)) ==> Priced(p, Mine(inp.view), quotes)
  {
    TrimsArePriced(inp, b, quotes);
    BuysArePriced(inp, TrimAll(inp, OrderedBreaches(inp)), quotes);
    forall p | p in Drafted(inp) ensures Priced(p, Mine(inp.view), quotes) && p.notional > 0.0 {
      PricedIsPositive(p, Mine(inp.view), quotes);
    }
    var good := (p: Proposal) => Priced(p, Mine(inp.view), quotes);
    forall p, q | SameTrade(p, q) && good(p) && good(q) ensures good(Combine(p, q)) {
      CombinePriced(p, q, Mine(inp.view), quotes);
    }
    MergeKeepsProperty(Drafted(inp), good);
  }

  // --- Sales are of shares that are held ---------------------------------------------------------

  predicate SoldFrom(inp: Inputs, p: Proposal)
  {
    p.side == Sell ==> exists h :: h in inp.view.holdings && h.account == p.account && h.symbol == p.symbol
  }

  lemma MergedSalesHaveHoldings(inp: Inputs, b: Book, quotes: map<string, real>)
    requires BuiltFrom(inp, b, quotes)
    ensures forall p :: p in Merge(Drafted(inp)) ==> SoldFrom(inp, p)
  {
    var good := (p: Proposal) => SoldFrom(inp, p);
    var trims := TrimAll(inp, OrderedBreaches(inp));
    TrimAllProposals(inp, OrderedBreaches(inp));
    BuysArePriced(inp, trims, quotes);
    forall p | p in Drafted(inp) ensures good(p) {
      if p in trims.proposals {
        var h :| TrimOf(inp, p, h);
      }
    }
    MergeKeepsProperty(Drafted(inp), good);
  }

  lemma PurchasesAreNotSales(buys: seq<Proposal>, m: Proposal)
    requires m.side == Sell && forall p :: p in buys ==> p.side == Buy
    ensures SumBy(buys, NotionalIn(m)) == 0.0
  {
    SumByZero(buys, NotionalIn(m));
  }

  lemma TrimsOfHolding(trims: seq<Proposal>, m: Proposal, h: Holding)
    requires m.side == Sell && h.account == m.account && h.symbol == m.symbol && forall p :: p in trims ==> p.side == Sell
    ensures SumBy(trims, NotionalIn(m)) == SumBy(trims, SoldOf(h))
  {
    SumByEqual(trims, NotionalIn(m), SoldOf(h));
  }

  lemma SalesOfHolding(inp: Inputs, b: Book, quotes: map<string, real>, m: Proposal, h: Holding)
    requires BuiltFrom(inp, b, quotes)
    requires m.side == Sell && h in inp.view.holdings && h.account == m.account && h.symbol == m.symbol
    ensures SumBy(Drafted(inp), NotionalIn(m)) <= Max(0.0, h.marketValue)
  {
    var trims := TrimAll(inp, OrderedBreaches(inp));
    var buys := BuyAll(inp, trims).proposals;
    TrimsArePriced(inp, b, quotes);
    BuysArePriced(inp, trims, quotes);
    SumByConcat(trims.proposals, buys, NotionalIn(m));
    PurchasesAreNotSales(buys, m);
    TrimsOfHolding(trims.proposals, m, h);
    TrimsNeverOversell(inp, OrderedBreaches(inp), h);
  }

  /** A priced sale worth no more than the holding is of no more shares than the ledger holds. */
  lemma WorthNoMoreMeansHeld(inp: Inputs, b: Book, quotes: map<string, real>, m: Proposal, h: Holding)
    requires Inv(b) && PricedFrom(h, b, quotes) && Priced(m, Mine(inp.view), quotes)
    requires h.account == m.account && h.symbol == m.symbol && m.notional <= Max(0.0, h.marketValue)
    ensures m.quantity <= Held(b.lots, m.account, m.symbol)
  {
    assert RollupAt(b, m.account, m.symbol);
    assert Amount(h.quantity, h.price) >= 0.0;
    WithinQuotient(h.quantity, h.price, m.quantity);
  }

  /** No merged sale asks for more shares than its account holds. */
  lemma MergedSaleIsHeld(inp: Inputs, b: Book, quotes: map<string, real>, i: nat)
    requires BuiltFrom(inp, b, quotes) && i < |Merge(Drafted(inp))| && Merge(Drafted(inp))[i].side == Sell
    ensures var m := Merge(Drafted(inp))[i]; m.quantity <= Held(b.lots, m.account, m.symbol)
  {
    var m := Merge(Drafted(inp))[i];
    assert m in Merge(Drafted(inp));
    DraftIsPriced(inp, b, quotes);
    MergedSalesHaveHoldings(inp, b, quotes);
    assert SoldFrom(inp, m);
    var h :| h in inp.view.holdings && h.account == m.account && h.symbol == m.symbol;
    MergeKeepsTrade(Drafted(inp), i);
    SalesOfHolding(inp, b, quotes, m, h);
    WorthNoMoreMeansHeld(inp, b, quotes, m, h);
  }

  // --- Each account funds its purchases ----------------------------------------------------------

  lemma {:induction false} PurseHoldsCash(inp: Inputs, b: Book, quotes: map<string, real>, a: int)
    requires BuiltFrom(inp, b, quotes) && a in Mine(inp.view)
    ensures SumBy(inp.view.purses, SpendableIn(a)) == Available(b.accounts[a]) >= 0.0
  {
    var i :| 0 <= i < |Accounts(inp.view)| && Accounts(inp.view)[i] == a;
    OwnPurse(inp.view.purses, i);
    assert PurseOf(inp.view.purses[i], b);
    NothingReserved(b, a, "", Mine(inp.view));
  }

  lemma SaleNetsNonnegative(cfg: Settings, ps: seq<Proposal>, a: int)
    ensures 0.0 <= SumBy(ps, SaleNet(cfg, a))
  {
    SumByNonnegative(ps, SaleNet(cfg, a));
  }

  /** An account buys with its own spendable cash and its own sale proceeds, less any floor held back. */
  lemma BuyingCashIsBacked(inp: Inputs, b: Book, quotes: map<string, real>, sells: seq<Proposal>, a: int)
    requires BuiltFrom(inp, b, quotes) && a in Mine(inp.view)
    ensures 0.0 <= Lookup(BuyingCash(inp, sells), a) <= Available(b.accounts[a]) + SumBy(sells, SaleNet(inp.cfg, a))
  {
    PurseHoldsCash(inp, b, quotes, a);
    SaleNetsNonnegative(inp.cfg, sells, a);
    assert a in SpendableByAccount(inp.view);
    assert CashAfterSales(inp, sells)[a] == SumBy(inp.view.purses, SpendableIn(a)) + SumBy(sells, SaleNet(inp.cfg, a));
  }

  lemma DraftColumns(inp: Inputs, b: Book, quotes: map<string, real>, a: int)
    requires BuiltFrom(inp, b, quotes)
    ensures var trims := TrimAll(inp, OrderedBreaches(inp));
      && SumBy(Drafted(inp), SaleNet(inp.cfg, a)) == SumBy(trims.proposals, SaleNet(inp.cfg, a))
      && SumBy(Drafted(inp), BuyCost(inp.cfg, a)) == SumBy(BuyAll(inp, trims).proposals, BuyCost(inp.cfg, a))
  {
    var trims := TrimAll(inp, OrderedBreaches(inp));
    var buys := BuyAll(inp, trims);
    TrimsArePriced(inp, b, quotes);
    BuysArePriced(inp, trims, quotes);
    SumByConcat(trims.proposals, buys.proposals, SaleNet(inp.cfg, a));
    SumByConcat(trims.proposals, buys.proposals, BuyCost(inp.cfg, a));
    SumByZero(buys.proposals, SaleNet(inp.cfg, a));
    SumByZero(trims.proposals, BuyCost(inp.cfg, a));
  }

  lemma PlanColumns(inp: Inputs, b: Book, quotes: map<string, real>, a: int)
    requires BuiltFrom(inp, b, quotes)
    ensures SumBy(Plan(inp).0, SaleNet(inp.cfg, a)) >= SumBy(Drafted(inp), SaleNet(inp.cfg, a))
    ensures SumBy(Plan(inp).0, BuyCost(inp.cfg, a)) <= SumBy(Drafted(inp), BuyCost(inp.cfg, a))
  {
    DraftIsPriced(inp, b, quotes);
    MergingOnlyHelps(inp.cfg, Drafted(inp), a);
    SequenceKeepsColumn(Drafted(inp), SaleNet(inp.cfg, a));
    SequenceKeepsColumn(Drafted(inp), BuyCost(inp.cfg, a));
  }

  lemma PlanIsFunded(inp: Inputs, b: Book, quotes: map<string, real>, a: int)
    requires BuiltFrom(inp, b, quotes) && a in Mine(inp.view)
    ensures FundedAt(b, inp.cfg, Plan(inp).0, a)
  {
    var trims := TrimAll(inp, OrderedBreaches(inp));
    PurseHoldsCash(inp, b, quotes, a);
    BuyingCashIsBacked(inp, b, quotes, trims.proposals, a);
    BuysNeverOverdraw(inp, trims, a, 0.0);
    DraftColumns(inp, b, quotes, a);
    PlanColumns(inp, b, quotes, a);
  }

  // --- The plan is executable --------------------------------------------------------------------

  lemma MergedTrade(inp: Inputs, b: Book, quotes: map<string, real>, m: Proposal)
    requires BuiltFrom(inp, b, quotes) && m in Merge(Drafted(inp))
    ensures Priced(m, Mine(inp.view), quotes)
    ensures m.side == Sell ==> m.quantity <= Held(b.lots, m.account, m.symbol)
  {
    DraftIsPriced(inp, b, quotes);
    if m.side == Sell {
      var merged := Merge(Drafted(inp));
      var k :| 0 <= k < |merged| && merged[k] == m;
      MergedSaleIsHeld(inp, b, quotes, k);
    }
  }

  /** Each trade of the plan is priced, and if a sale, of shares that are held. */
  lemma PlannedTrade(inp: Inputs, b: Book, quotes: map<string, real>, i: nat)
    requires BuiltFrom(inp, b, quotes) && i < |Plan(inp).0|
    ensures var p := Plan(inp).0[i];
      && Priced(p, Mine(inp.view), quotes)
      && (p.side == Sell ==> p.quantity <= Held(b.lots, p.account, p.symbol))
  {
    SequenceMembers(Drafted(inp), i);
    var m :| m in Merge(Drafted(inp)) && Plan(inp).0[i] == m.(sequence := i);
    MergedTrade(inp, b, quotes, m);
  }

  /** The plan is executable from the tables it was built from, once every trade meets the minimum order. */
  lemma PlanIsExecutable(inp: Inputs, b: Book, quotes: map<string, real>)
    requires BuiltFrom(inp, b, quotes)
    requires forall p :: p in Plan(inp).0 ==> p.notional >= inp.cfg.minOrder
    ensures Executable(b, inp.cfg, Plan(inp).0, quotes, Mine(inp.view))
  {
    var ps := Plan(inp).0;
    SequencedSellsFirst(Drafted(inp));
    forall p | p in ps
      ensures p.account in Mine(inp.view) && Placeable(b, inp.cfg, p, quotes)
      ensures p.side == Sell ==> p.quantity <= Held(b.lots, p.account, p.symbol)
    {
      var i :| 0 <= i < |ps| && ps[i] == p;
      PlannedTrade(inp, b, quotes, i);
      PricedIsPositive(p, Mine(inp.view), quotes);
    }
    forall i, j | 0 <= i < j < |ps| && ps[i].side == Sell && ps[j].side == Sell
      ensures (ps[i].account, ps[i].symbol) != (ps[j].account, ps[j].symbol)
    {
      assert !SameTrade(ps[i], ps[j]);
    }
    forall a | a in Mine(inp.view) ensures FundedAt(b, inp.cfg, ps, a) {
      PlanIsFunded(inp, b, quotes, a);
    }
  }

  /** Planner and broker agree: carried out at unchanged prices, every proposal of the plan is accepted and
      filled, in sequence, and no account's spendable cash ends negative. */
  lemma PlanIsCarriedOut(inp: Inputs, b: Book, quotes: map<string, real>, at: int)
    requires BuiltFrom(inp, b, quotes)
    requires forall p :: p in Plan(inp).0 ==> p.notional >= inp.cfg.minOrder
    ensures var (c, filled) := ExecuteProposals(b, inp.cfg, Plan(inp).0, quotes, inp.policy.lotMethod, at);
      && filled == |Plan(inp).0|
      && Inv(c)
      && forall a :: a in Mine(inp.view) ==> a in c.accounts && Available(c.accounts[a]) >= 0.0
  {
    PlanIsExecutable(inp, b, quotes);
    SequencedSellsFirst(Drafted(inp));
    PlanExecutes(b, inp.cfg, Plan(inp).0, quotes, inp.policy.lotMethod, at, Mine(inp.view));
  }

  /** Carried out, the plan leaves each account at least what the planner held back from it. */
  lemma HeldBackSurvives(inp: Inputs, b: Book, quotes: map<string, real>, at: int, a: int)
    requires BuiltFrom(inp, b, quotes) && a in Mine(inp.view)
    requires forall p :: p in Plan(inp).0 ==> p.notional >= inp.cfg.minOrder
    ensures var c := ExecuteProposals(b, inp.cfg, Plan(inp).0, quotes, inp.policy.lotMethod, at).0;
            var sells := TrimAll(inp, OrderedBreaches(inp)).proposals;
      && a in c.accounts
      && Available(c.accounts[a]) >= Lookup(CashAfterSales(inp, sells), a) - Lookup(BuyingCash(inp, sells), a)
  {
    var trims := TrimAll(inp, OrderedBreaches(inp));
    PlanIsExecutable(inp, b, quotes);
    SequencedSellsFirst(Drafted(inp));
    PlanExecutes(b, inp.cfg, Plan(inp).0, quotes, inp.policy.lotMethod, at, Mine(inp.view));
    PurseHoldsCash(inp, b, quotes, a);
    BuyingCashIsBacked(inp, b, quotes, trims.proposals, a);
    BuysNeverOverdraw(inp, trims, a, 0.0);
    DraftColumns(inp, b, quotes, a);
    PlanColumns(inp, b, quotes, a);
    SpentWithin(inp, trims, a);
  }

  lemma SpentWithin(inp: Inputs, trims: Trims, a: int)
    requires a in Accounts(inp.view)
    ensures Lookup(CashAfterSales(inp, trims.proposals), a)
         == SumBy(inp.view.purses, SpendableIn(a)) + SumBy(trims.proposals, SaleNet(inp.cfg, a))
  {
    assert a in SpendableByAccount(inp.view);
  }

  /** So the richest account ends with at least what it could cover of the policy's cash floor: with all of the floor,
      exactly when `FloorIsHeldBackExactly` says it was all held back. */
  lemma FloorSurvives(inp: Inputs, b: Book, quotes: map<string, real>, at: int)
    requires BuiltFrom(inp, b, quotes) && Accounts(inp.view) != [] && 0.0 < CashFloor(inp)
    requires forall p :: p in Plan(inp).0 ==> p.notional >= inp.cfg.minOrder
    ensures var c := ExecuteProposals(b, inp.cfg, Plan(inp).0, quotes, inp.policy.lotMethod, at).0;
            var cash := CashAfterSales(inp, TrimAll(inp, OrderedBreaches(inp)).proposals);
            var richest := Richest(Accounts(inp.view), cash);
      richest in c.accounts && Available(c.accounts[richest]) >= Min(CashFloor(inp), Lookup(cash, richest))
  {
    var sells := TrimAll(inp, OrderedBreaches(inp)).proposals;
    var richest := Richest(Accounts(inp.view), CashAfterSales(inp, sells));
    PurseHoldsCash(inp, b, quotes, richest);
    SaleNetsNonnegative(inp.cfg, sells, richest);
    SpentWithin(inp, TrimAll(inp, OrderedBreaches(inp)), richest);
    FloorComesFromRichest(inp, sells, richest);
    HeldBackSurvives(inp, b, quotes, at, richest);
  }

  lemma BelowMinimumIsRefused(b: Book, cfg: Settings, p: Proposal, quotes: map<string, real>, how: LotMethod, at: int, mine: set<int>)
    requires Priced(p, mine, quotes) && p.notional < cfg.minOrder
    ensures !ExecuteOne(b, cfg, p, quotes, how, at).1
  {
  }

  lemma {:induction false} AtMostAll(b: Book, cfg: Settings, ps: seq<Proposal>, quotes: map<string, real>, how: LotMethod, at: int)
    ensures ExecuteInOrder(b, cfg, ps, quotes, how, at).1 <= |ps|
    decreases |ps|
  {
    if ps != [] {
      AtMostAll(ExecuteOne(b, cfg, ps[0], quotes, how, at).0, cfg, ps[1..], quotes, how, at);
    }
  }

  lemma {:induction false} OneRefusalIsMissing(b: Book, cfg: Settings, ps: seq<Proposal>, quotes: map<string, real>, how: LotMethod, at: int,
                                               mine: set<int>, i: nat)
    requires i < |ps| && Priced(ps[i], mine, quotes) && ps[i].notional < cfg.minOrder
    ensures ExecuteInOrder(b, cfg, ps, quotes, how, at).1 < |ps|
    decreases |ps|
  {
    var c := ExecuteOne(b, cfg, ps[0], quotes, how, at).0;
    if i == 0 {
      BelowMinimumIsRefused(b, cfg, ps[0], quotes, how, at, mine);
      AtMostAll(c, cfg, ps[1..], quotes, how, at);
    } else {
      OneRefusalIsMissing(c, cfg, ps[1..], quotes, how, at, mine, i - 1);
    }
  }

  /** The minimum order is the whole condition: a plan is filled in full exactly when each of its trades meets it. */
  lemma PlanFillsInFullExactly(inp: Inputs, b: Book, quotes: map<string, real>, at: int)
    requires BuiltFrom(inp, b, quotes)
    ensures ExecuteProposals(b, inp.cfg, Plan(inp).0, quotes, inp.policy.lotMethod, at).1 == |Plan(inp).0|
       <==> forall p :: p in Plan(inp).0 ==> p.notional >= inp.cfg.minOrder
  {
    var ps := Plan(inp).0;
    SequencedSellsFirst(Drafted(inp));
    if forall p :: p in ps ==> p.notional >= inp.cfg.minOrder {
      PlanIsCarriedOut(inp, b, quotes, at);
    } else {
      var i :| 0 <= i < |ps| && ps[i].notional < inp.cfg.minOrder;
      PlannedTrade(inp, b, quotes, i);
      OneRefusalIsMissing(b, inp.cfg, ps, quotes, inp.policy.lotMethod, at, Mine(inp.view), i);
    }
  }

  /** Nor is any account overdrawn on the way: after each of the plan's trades, all are still funded. */
  lemma NoAccountIsOverdrawnOnTheWay(inp: Inputs, b: Book, quotes: map<string, real>, at: int, k: nat, a: int)
    requires BuiltFrom(inp, b, quotes) && k <= |Plan(inp).0| && a in Mine(inp.view)
    requires forall p :: p in Plan(inp).0 ==> p.notional >= inp.cfg.minOrder
    ensures var (c, filled) := ExecuteInOrder(b, inp.cfg, Plan(inp).0[..k], quotes, inp.policy.lotMethod, at);
      filled == k && a in c.accounts && Available(c.accounts[a]) >= 0.0
  {
    PlanIsExecutable(inp, b, quotes);
    PrefixIsExecutable(b, inp.cfg, Plan(inp).0, quotes, Mine(inp.view), k);
    PlanExecutes(b, inp.cfg, Plan(inp).0[..k], quotes, inp.policy.lotMethod, at, Mine(inp.view));
  }
}
