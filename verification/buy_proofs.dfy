/** Purchases: no account is overdrawn, no symbol passes its cap, no sector passes its limit against the
    base the planner measures, and no asset class passes its target. */
module BuyProofs {
  import opened Wrappers
  import opened Sums
  import opened Ordering
  import opened TaxLots
  import opened Books
  import opened LotWrites
  import opened Broker
  import opened PlanExecution
  import opened Portfolio
  import opened Rebalance
  import opened TrimProofs

  // --- One purchase --------------------------------------------------------------------------

  /** The purchase one pick leads to, if any. */
  function PurchaseFor(inp: Inputs, planned: Planned, st: Buys, pick: Pick, share: real): Option<Proposal>
  {
    var account := AccountForBuy(inp, st.cash, share);
    if pick.price <= 0.0 || account.None? then None
    else
      var amount := BuyAmount(inp, planned, st, pick.ticker, share, st.cash[account.value]);
      var quantity := RoundQuantity(inp.cfg.fractional, amount, pick.price);
      if amount < inp.policy.minNotional || quantity.None? || quantity.value <= 0.0 then None
      else Some(Proposal(pick.ticker, Buy, account.value, Amount(quantity.value, pick.price), quantity.value, 0.0, 1))
  }

  /** A pick leads to one more proposal, paid for in full from its account, or to none. */
  lemma BuyOneIs(inp: Inputs, planned: Planned, st: Buys, pick: Pick, share: real)
    ensures var after := BuyOne(inp, planned, st, pick, share);
      match PurchaseFor(inp, planned, st, pick, share)
      case None => after.proposals == st.proposals && after.cash == st.cash && after.remaining == st.remaining
      case Some(p) =>
        && p.account in st.cash
        && after.proposals == st.proposals + [p]
        && after.cash == st.cash[p.account := st.cash[p.account] - GrossPurchaseCost(inp.cfg, p.notional)]
        && after.remaining == st.remaining - p.notional
  {
  }

  /** A purchase is at the pick's price, within every limit it is sized against but for the slack of rounding, and of whole
      shares where required; and each of those limits had something left. */
  predicate Fits(inp: Inputs, planned: Planned, st: Buys, pick: Pick, share: real, p: Proposal)
  {
    var slack := Slack(inp.cfg, pick.price);
    && p.side == Buy && p.symbol == pick.ticker && p.account in Accounts(inp.view) && p.account in st.cash
    && (!inp.cfg.fractional ==> IsWhole(p.quantity) && p.quantity >= 1.0) && pick.price > 0.0 && 0.0 <= slack
    && p.notional == Amount(p.quantity, pick.price) && 0.0 < p.notional
    && WithinRoom(p.notional, share, slack)
    && WithinRoom(p.notional, PositionHeadroom(inp, p.symbol, st.proposals), slack)
    && WithinRoom(p.notional, st.remaining, slack)
    && WithinRoom(p.notional, SpendableNow(inp.cfg, st.cash[p.account]), slack)
    && var room := SectorHeadroom(inp, SectorOf(inp, p.symbol), planned, st.proposals);
       room.Some? ==> WithinRoom(p.notional, room.value, slack)
  }

  predicate WithinRoom(x: real, room: real, slack: real)
  {
    0.0 < room && x <= room + slack
  }

  lemma PurchaseFits(inp: Inputs, planned: Planned, st: Buys, pick: Pick, share: real)
    requires PurchaseFor(inp, planned, st, pick, share).Some?
    ensures Fits(inp, planned, st, pick, share, PurchaseFor(inp, planned, st, pick, share).value)
  {
    var account := AccountForBuy(inp, st.cash, share).value;
    RoundingStaysNear(inp.cfg, BuyAmount(inp, planned, st, pick.ticker, share, st.cash[account]), pick.price);
  }

  // --- What every purchase keeps ---------------------------------------------------------------

  /** A property of the purchases so far, the cash left in each account, and the cash left overall. */
  type Property = (seq<Proposal>, CashMap, real) -> bool

  predicate Holds(keeps: Property, st: Buys)
  {
    keeps(st.proposals, st.cash, st.remaining)
  }

  predicate Offered(inp: Inputs, pick: Pick)
  {
    pick in inp.candidates || exists c :: c in inp.provider && pick in inp.provider[c]
  }

  /** In fractional shares, no instrument on offer costs more than `most`. */
  ghost predicate PricedAtMost(inp: Inputs, most: real)
  {
    inp.cfg.fractional ==> forall p :: Offered(inp, p) ==> p.price <= most
  }

  /** A purchase's slack is at most the slack of the dearest instrument on offer. */
  lemma SlackAtMost(inp: Inputs, most: real, pick: Pick)
    requires PricedAtMost(inp, most) && Offered(inp, pick)
    ensures Slack(inp.cfg, pick.price) <= Slack(inp.cfg, most)
  {
  }

  /** Kept by every purchase that fits. */
  ghost predicate Kept(inp: Inputs, planned: Planned, keeps: Property)
  {
    forall st: Buys, pick: Pick, share: real ::
      Holds(keeps, st) && Offered(inp, pick) && PurchaseFor(inp, planned, st, pick, share).Some?
      ==> Holds(keeps, BuyOne(inp, planned, st, pick, share))
  }

  lemma {:induction false} BuyEachKeeps(inp: Inputs, planned: Planned, st: Buys, picks: seq<Pick>, share: real, keeps: Property)
    requires Kept(inp, planned, keeps) && Holds(keeps, st)
    requires forall p :: p in picks ==> Offered(inp, p)
    ensures Holds(keeps, BuyEach(inp, planned, st, picks, share))
  {
    if picks != [] {
      var init, last := picks[..|picks| - 1], picks[|picks| - 1];
      assert last in picks;
      BuyEachKeeps(inp, planned, st, init, share, keeps);
      BuyOneIs(inp, planned, BuyEach(inp, planned, st, init, share), last, share);
    }
  }

  lemma {:induction false} PicksInMembers(inp: Inputs, ps: seq<Pick>, assetClass: string)
    ensures forall p :: p in PicksIn(inp, ps, assetClass) <==> p in ps && ClassOf(inp, p) == assetClass
  {
    if ps != [] {
      PicksInMembers(inp, ps[..|ps| - 1], assetClass);
      assert ps == ps[..|ps| - 1] + [ps[|ps| - 1]];
    }
  }

  lemma PicksAreOffered(inp: Inputs, assetClass: string)
    ensures forall p :: p in PicksFor(inp, assetClass) ==> Offered(inp, p)
  {
    PicksInMembers(inp, inp.candidates, assetClass);
  }

  lemma {:induction false} BuyClassesKeep(inp: Inputs, trims: Trims, st: Buys, ds: seq<Underweight>, keeps: Property)
    requires Kept(inp, trims.planned, keeps) && Holds(keeps, st)
    ensures Holds(keeps, BuyClasses(inp, trims, st, ds))
    decreases |ds|
  {
    if ds != [] && st.remaining >= inp.policy.minNotional {
      var (after, goOn) := BuyClass(inp, trims, st, ds[0]);
      var allocation := Min(ds[0].gap, st.remaining);
      var picks := PicksFor(inp, ds[0].assetClass);
      if allocation >= inp.policy.minNotional && picks != [] {
        PicksAreOffered(inp, ds[0].assetClass);
        var chosen := Chosen(inp, picks, allocation);
        BuyEachKeeps(inp, trims.planned, st, chosen, allocation / |chosen| as real, keeps);
      }
      if goOn {
        BuyClassesKeep(inp, trims, after, ds[1..], keeps);
      }
    }
  }

  /** The purse each account starts its purchases with. */
  function Opening(inp: Inputs, trims: Trims): Buys
  {
    var cash := BuyingCash(inp, trims.proposals);
    Buys([], cash, SumBy(Accounts(inp.view), CashIn(cash)), [])
  }

  lemma BuyAllKeeps(inp: Inputs, trims: Trims, keeps: Property)
    requires Kept(inp, trims.planned, keeps) && Holds(keeps, Opening(inp, trims))
    ensures Holds(keeps, BuyAll(inp, trims))
  {
    if TotalValue(inp.view) > 0.0 {
      BuyClassesKeep(inp, trims, Opening(inp, trims), ToFill(ProjectedDrift(inp, trims.planned)), keeps);
    }
  }

  // --- Cash ------------------------------------------------------------------------------------

  predicate NonnegativeCosts(cfg: Settings)
  {
    0.0 <= cfg.slippage && 0.0 <= cfg.commissionRate && 0.0 <= cfg.commissionMin
  }

  lemma CostGrows(cfg: Settings, x: real, y: real)
    requires NonnegativeCosts(cfg) && 0.0 < x <= y
    ensures EstimatedCost(cfg, x) <= EstimatedCost(cfg, y)
  {
    assert (y - x) * cfg.slippage >= 0.0;
    assert (y - x) * cfg.commissionRate >= 0.0;
  }

  /** What rounding can overdraw an account by: the slack of one purchase, and the cost of trading it. */
  function Overdraft(cfg: Settings, price: real): real
  {
    Amount(Slack(cfg, price), 1.0 + cfg.slippage + cfg.commissionRate)
  }

  lemma CostOfMore(cfg: Settings, x: real, more: real)
    requires NonnegativeCosts(cfg) && 0.0 < x && 0.0 <= more
    ensures GrossPurchaseCost(cfg, x + more) <= GrossPurchaseCost(cfg, x) + Amount(more, 1.0 + cfg.slippage + cfg.commissionRate)
  {
    AmountAdds(x, more, cfg.slippage);
    AmountAdds(x, more, cfg.commissionRate);
    assert more * (1.0 + cfg.slippage + cfg.commissionRate) == more + more * cfg.slippage + more * cfg.commissionRate;
    assert more * cfg.commissionRate >= 0.0;
  }

  lemma OverdraftGrows(cfg: Settings, less: real, more: real)
    requires NonnegativeCosts(cfg) && less <= more
    ensures Amount(less, 1.0 + cfg.slippage + cfg.commissionRate) <= Amount(more, 1.0 + cfg.slippage + cfg.commissionRate)
  {
    assert (more - less) * (1.0 + cfg.slippage + cfg.commissionRate) >= 0.0;
  }

  lemma OverdraftIsSmall(cfg: Settings, price: real)
    requires NonnegativeCosts(cfg) && (cfg.fractional ==> 0.0 <= price)
    ensures 0.0 <= Overdraft(cfg, price) && (!cfg.fractional ==> Overdraft(cfg, price) == 0.0)
  {
    var slack := Slack(cfg, price);
    assert slack >= 0.0;
    assert slack * (1.0 + cfg.slippage + cfg.commissionRate) >= 0.0;
  }

  /** Sizing against cash net of the cost of trading leaves enough to pay it, at any rates, but for the slack of rounding. */
  lemma SpendableCoversCost(cfg: Settings, cash: real, notional: real, slack: real)
    requires NonnegativeCosts(cfg) && 0.0 < notional && 0.0 <= slack && WithinRoom(notional, SpendableNow(cfg, cash), slack)
    ensures GrossPurchaseCost(cfg, notional) <= cash + Amount(slack, 1.0 + cfg.slippage + cfg.commissionRate)
  {
    var room := SpendableNow(cfg, cash);
    NoCheaperThanFree(cfg, cash);
    CostGrows(cfg, room, cash);
    if notional <= room {
      CostGrows(cfg, notional, room);
      OverdraftGrows(cfg, 0.0, slack);
    } else {
      CostOfMore(cfg, room, notional - room);
      OverdraftGrows(cfg, notional - room, slack);
    }
  }

  lemma NoCheaperThanFree(cfg: Settings, notional: real)
    requires NonnegativeCosts(cfg)
    ensures 0.0 <= EstimatedCost(cfg, notional)
  {
    if notional > 0.0 {
      assert Amount(notional, cfg.slippage) >= 0.0;
      assert Amount(notional, cfg.commissionRate) >= 0.0;
    }
  }

  /** The account is overdrawn by no more than `overdraft`, and what it has spent is what it started with less what is left. */
  function Solvent(cfg: Settings, account: int, opening: real, overdraft: real): Property
  {
    (ps: seq<Proposal>, cash: CashMap, left: real) =>
      account in cash && cash[account] >= -overdraft && cash[account] + SumBy(ps, BuyCost(cfg, account)) == opening
  }

  lemma CostIsCovered(cfg: Settings, cash: real, notional: real, slack: real, most: real)
    requires NonnegativeCosts(cfg) && 0.0 < notional && 0.0 <= slack <= Slack(cfg, most)
    requires WithinRoom(notional, SpendableNow(cfg, cash), slack)
    ensures GrossPurchaseCost(cfg, notional) <= cash + Overdraft(cfg, most)
  {
    SpendableCoversCost(cfg, cash, notional, slack);
    OverdraftGrows(cfg, slack, Slack(cfg, most));
  }

  lemma PurchaseIsPaid(inp: Inputs, planned: Planned, st: Buys, pick: Pick, share: real, most: real)
    requires NonnegativeCosts(inp.cfg) && PricedAtMost(inp, most) && Offered(inp, pick)
    requires PurchaseFor(inp, planned, st, pick, share).Some?
    ensures var p := PurchaseFor(inp, planned, st, pick, share).value;
      p.account in st.cash && GrossPurchaseCost(inp.cfg, p.notional) <= st.cash[p.account] + Overdraft(inp.cfg, most)
  {
    var p := PurchaseFor(inp, planned, st, pick, share).value;
    PurchaseFits(inp, planned, st, pick, share);
    SlackAtMost(inp, most, pick);
    CostIsCovered(inp.cfg, st.cash[p.account], p.notional, Slack(inp.cfg, pick.price), most);
  }

  lemma SolventIsKept(inp: Inputs, planned: Planned, account: int, opening: real, most: real)
    requires NonnegativeCosts(inp.cfg) && PricedAtMost(inp, most)
    ensures Kept(inp, planned, Solvent(inp.cfg, account, opening, Overdraft(inp.cfg, most)))
  {
    var keeps := Solvent(inp.cfg, account, opening, Overdraft(inp.cfg, most));
    forall st: Buys, pick: Pick, share: real
      | Holds(keeps, st) && Offered(inp, pick) && PurchaseFor(inp, planned, st, pick, share).Some?
      ensures Holds(keeps, BuyOne(inp, planned, st, pick, share))
    {
      var p := PurchaseFor(inp, planned, st, pick, share).value;
      BuyOneIs(inp, planned, st, pick, share);
      PurchaseIsPaid(inp, planned, st, pick, share, most);
      SumByAppend(st.proposals, p, BuyCost(inp.cfg, account));
    }
  }

  /** No purchase overdraws its account: each is left with the cash it started the purchases with less everything spent from
      it, trading costs included, and that is never negative; in fractional shares, never below the slack of one purchase. */
  lemma BuysNeverOverdraw(inp: Inputs, trims: Trims, account: int, most: real)
    requires NonnegativeCosts(inp.cfg) && PricedAtMost(inp, most) && (inp.cfg.fractional ==> 0.0 <= most)
    requires account in Accounts(inp.view)
    requires Lookup(BuyingCash(inp, trims.proposals), account) >= 0.0
    ensures var buys := BuyAll(inp, trims);
      && account in buys.cash && buys.cash[account] >= -Overdraft(inp.cfg, most)
      && (!inp.cfg.fractional ==> buys.cash[account] >= 0.0)
      && buys.cash[account] == Lookup(BuyingCash(inp, trims.proposals), account) - SumBy(buys.proposals, BuyCost(inp.cfg, account))
  {
    var opening := Lookup(BuyingCash(inp, trims.proposals), account);
    var keeps := Solvent(inp.cfg, account, opening, Overdraft(inp.cfg, most));
    OverdraftIsSmall(inp.cfg, most);
    SolventIsKept(inp, trims.planned, account, opening, most);
    BuyAllKeeps(inp, trims, keeps);
  }

  predicate Richer(inp: Inputs, cash: CashMap, r: int)
  {
    r in Accounts(inp.view) && r in cash && forall a :: a in Accounts(inp.view) && a in cash ==> cash[a] <= cash[r]
  }

  /** Preferring an account that can fund the whole purchase, and failing that the one with most cash, always comes to
      the account with the most cash; there is none exactly when no account has even a minimum trade or the purchase. */
  lemma FundingAccountIsRichest(inp: Inputs, cash: CashMap, amount: real)
    ensures var r := AccountForBuy(inp, cash, amount);
      && (r.Some? ==> Richer(inp, cash, r.value))
      && (r.None? <==> forall a :: a in Accounts(inp.view) && a in cash ==> cash[a] < amount && cash[a] < inp.policy.minNotional)
  {
    var accounts := Accounts(inp.view);
    var fundable, partial := WithAtLeast(accounts, cash, amount), WithAtLeast(accounts, cash, inp.policy.minNotional);
    var chosen := if fundable != [] then fundable else partial;
    if chosen != [] {
      var r := Richest(chosen, cash);
      forall a | a in accounts && a in cash ensures cash[a] <= cash[r] {
        if a in chosen {
          assert Lookup(cash, a) <= Lookup(cash, r);
        }
      }
    }
    if fundable != [] {
      assert fundable[0] in fundable;
    }
    if partial != [] {
      assert partial[0] in partial;
    }
  }

  /** The floor is held back from the richest account alone, as far as that account's cash goes. */
  lemma FloorComesFromRichest(inp: Inputs, sells: seq<Proposal>, a: int)
    requires a in Accounts(inp.view) && 0.0 < CashFloor(inp) && 0.0 <= Lookup(CashAfterSales(inp, sells), a)
    ensures var richest := Richest(Accounts(inp.view), CashAfterSales(inp, sells));
      Lookup(CashAfterSales(inp, sells), a) - Lookup(BuyingCash(inp, sells), a)
      == if a == richest then Min(CashFloor(inp), Lookup(CashAfterSales(inp, sells), a)) else 0.0
  {
  }

  /** What the planner keeps back of an account's cash. */
  function HeldBack(inp: Inputs, sells: seq<Proposal>): int -> real
  {
    (a: int) => Lookup(CashAfterSales(inp, sells), a) - Lookup(BuyingCash(inp, sells), a)
  }

  lemma HeldBackIs(inp: Inputs, sells: seq<Proposal>)
    requires DistinctPurses(inp.view.purses) && Accounts(inp.view) != [] && 0.0 < CashFloor(inp)
    requires forall a :: a in Accounts(inp.view) ==> 0.0 <= Lookup(CashAfterSales(inp, sells), a)
    ensures var cash := CashAfterSales(inp, sells);
      SumBy(Accounts(inp.view), HeldBack(inp, sells)) == Min(CashFloor(inp), Lookup(cash, Richest(Accounts(inp.view), cash)))
  {
    var cash := CashAfterSales(inp, sells);
    var richest := Richest(Accounts(inp.view), cash);
    var kept := Min(CashFloor(inp), Lookup(cash, richest));
    forall a | a in Accounts(inp.view) ensures HeldBack(inp, sells)(a) == OnlyFor(richest, kept)(a) {
      FloorComesFromRichest(inp, sells, a);
    }
    SumByEqual(Accounts(inp.view), HeldBack(inp, sells), OnlyFor(richest, kept));
    CountedOnce(Accounts(inp.view), richest, kept);
  }

  /** The client's whole floor is held back exactly when one account, the richest, has it all after sales. */
  lemma FloorIsHeldBackExactly(inp: Inputs, sells: seq<Proposal>)
    requires DistinctPurses(inp.view.purses) && Accounts(inp.view) != [] && 0.0 < CashFloor(inp)
    requires forall a :: a in Accounts(inp.view) ==> 0.0 <= Lookup(CashAfterSales(inp, sells), a)
    ensures SumBy(Accounts(inp.view), HeldBack(inp, sells)) == CashFloor(inp)
       <==> exists a :: a in Accounts(inp.view) && Lookup(CashAfterSales(inp, sells), a) >= CashFloor(inp)
  {
    HeldBackIs(inp, sells);
    assert Richest(Accounts(inp.view), CashAfterSales(inp, sells)) in Accounts(inp.view);
  }

  /** Two accounts with 50 each and a floor of 60 per cent: only 50 of the 60 is held back, out of 100. */
  lemma FloorIsCutShort(inp: Inputs, first: Purse, second: Purse)
    requires inp.view == View([], [first, second]) && first.account != second.account && inp.policy.minCash == 0.6
    requires first.cash == second.cash == 50.0 && first.held == second.held == 0.0
    ensures CashFloor(inp) == 60.0 && SumBy(Accounts(inp.view), HeldBack(inp, [])) == 50.0
    ensures SumBy(Accounts(inp.view), CashIn(CashAfterSales(inp, []))) == 100.0
  {
    var purses, accounts := inp.view.purses, Accounts(inp.view);
    SumByPair(first, second, CashOf);
    assert InvestedValue(inp.view) == 0.0 && Cash(inp.view) == 100.0;
    assert purses[..1] == [first] && [first][..0] == [];
    assert accounts == [first.account, second.account];
    var cash := CashAfterSales(inp, []);
    OwnPurse(purses, 0);
    OwnPurse(purses, 1);
    assert Lookup(cash, first.account) == 50.0 && Lookup(cash, second.account) == 50.0;
    SumByPair(first.account, second.account, CashIn(cash));
    HeldBackIs(inp, []);
  }

  // --- The position cap --------------------------------------------------------------------------

  function UnderCap(inp: Inputs, symbol: string, slack: real): Property
  {
    (ps: seq<Proposal>, cash: CashMap, left: real) =>
      var bought := SumBy(ps, BoughtOf(symbol));
      0.0 <= bought && (bought > 0.0 ==>
        SymbolValue(inp.view, symbol) + bought <= Amount(inp.policy.maxPosition, TotalValue(inp.view)) + slack)
  }

  lemma UnderCapIsKept(inp: Inputs, planned: Planned, symbol: string, most: real)
    requires PricedAtMost(inp, most)
    ensures Kept(inp, planned, UnderCap(inp, symbol, Slack(inp.cfg, most)))
  {
    var keeps := UnderCap(inp, symbol, Slack(inp.cfg, most));
    forall st: Buys, pick: Pick, share: real
      | Holds(keeps, st) && Offered(inp, pick) && PurchaseFor(inp, planned, st, pick, share).Some?
      ensures Holds(keeps, BuyOne(inp, planned, st, pick, share))
    {
      var p := PurchaseFor(inp, planned, st, pick, share).value;
      BuyOneIs(inp, planned, st, pick, share);
      PurchaseFits(inp, planned, st, pick, share);
      SlackAtMost(inp, most, pick);
      SumByAppend(st.proposals, p, BoughtOf(symbol));
    }
  }

  /** However many picks and classes buy a symbol, what is held of it and bought stays within its cap; in fractional shares,
      but for the slack of one purchase. */
  lemma BuysRespectPositionCap(inp: Inputs, trims: Trims, symbol: string, most: real)
    requires PricedAtMost(inp, most)
    ensures var bought := SumBy(BuyAll(inp, trims).proposals, BoughtOf(symbol));
      && 0.0 <= bought
      && (bought > 0.0 ==>
            SymbolValue(inp.view, symbol) + bought <= Amount(inp.policy.maxPosition, TotalValue(inp.view)) + Slack(inp.cfg, most))
  {
    UnderCapIsKept(inp, trims.planned, symbol, most);
    BuyAllKeeps(inp, trims, UnderCap(inp, symbol, Slack(inp.cfg, most)));
  }

  // --- The sector limit --------------------------------------------------------------------------

  /** A sector's dollars after the plan, and the invested base the planner measures them against. */
  function SectorExposure(inp: Inputs, planned: Planned, sector: string, ps: seq<Proposal>): real
  {
    SumBy(inp.view.holdings, LeftInSector(planned, sector)) + SumBy(ps, BoughtInSector(inp, sector))
  }

  function MeasuredBase(inp: Inputs, planned: Planned, sector: string, ps: seq<Proposal>): real
  {
    InvestedValue(inp.view) - SumBy(inp.view.holdings, SoldInSector(planned, sector)) + SumBy(ps, NotionalOf)
  }

  function UnderSectorLimit(inp: Inputs, planned: Planned, sector: string, slack: real): Property
  {
    (ps: seq<Proposal>, cash: CashMap, left: real) =>
      var bought := SumBy(ps, BoughtInSector(inp, sector));
      0.0 <= bought && (bought > 0.0 ==>
        SectorExposure(inp, planned, sector, ps) <= Amount(inp.policy.maxSector, MeasuredBase(inp, planned, sector, ps)) + slack)
  }

  /** Adding `x` to a sector raises both its dollars and the base, which is what the headroom solves for. */
  lemma HeadroomSolves(cap: real, base: real, exposure: real, x: real)
    requires 0.0 <= cap < 1.0
    ensures x <= (Amount(cap, base) - exposure) / (1.0 - cap) <==> exposure + x <= Amount(cap, base + x)
  {
    var room := (Amount(cap, base) - exposure) / (1.0 - cap);
    assert room * (1.0 - cap) == Amount(cap, base) - exposure;
    WithinQuotient(room, 1.0 - cap, x);
    assert x * (1.0 - cap) == x - cap * x;
    assert Amount(cap, base + x) == Amount(cap, base) + cap * x;
  }

  lemma WiderBase(cap: real, base: real, x: real)
    requires 0.0 <= cap && 0.0 <= x
    ensures Amount(cap, base) <= Amount(cap, base + x)
  {
    assert cap * x >= 0.0;
  }

  lemma GrownBase(cap: real, before: real, after: real)
    requires 0.0 <= cap && before <= after
    ensures Amount(cap, before) <= Amount(cap, after)
  {
    WiderBase(cap, before, after - before);
  }

  /** A purchase in the sector that fits its headroom leaves the sector within its limit of the grown base. */
  lemma FitsGrownBase(inp: Inputs, planned: Planned, ps: seq<Proposal>, sector: string, x: real, base: real, slack: real)
    requires 0.0 <= inp.policy.maxSector < 1.0 && x > 0.0 && 0.0 <= slack
    requires var room := SectorHeadroom(inp, Some(sector), planned, ps); room.Some? && WithinRoom(x, room.value, slack)
    requires base == MeasuredBase(inp, planned, sector, ps) + x
    ensures SectorExposure(inp, planned, sector, ps) + x <= Amount(inp.policy.maxSector, base) + slack
  {
    var cap, room := inp.policy.maxSector, SectorHeadroom(inp, Some(sector), planned, ps).value;
    var fits := Min(x, room);
    var before := MeasuredBase(inp, planned, sector, ps);
    HeadroomSolves(cap, before, SectorExposure(inp, planned, sector, ps), fits);
    GrownBase(cap, before + fits, base);
  }

  lemma OnePurchaseInSector(inp: Inputs, planned: Planned, st: Buys, sector: string, p: Proposal, slack: real, most: real)
    requires 0.0 <= inp.policy.maxSector < 1.0 && p.notional > 0.0 && 0.0 <= slack <= most
    requires Holds(UnderSectorLimit(inp, planned, sector, most), st)
    requires var room := SectorHeadroom(inp, SectorOf(inp, p.symbol), planned, st.proposals);
             room.Some? ==> WithinRoom(p.notional, room.value, slack)
    ensures UnderSectorLimit(inp, planned, sector, most)(st.proposals + [p], st.cash, st.remaining)
  {
    var after := st.proposals + [p];
    SumByAppend(st.proposals, p, BoughtInSector(inp, sector));
    SumByAppend(st.proposals, p, NotionalOf);
    if SectorOf(inp, p.symbol) == Some(sector) {
      FitsGrownBase(inp, planned, st.proposals, sector, p.notional, MeasuredBase(inp, planned, sector, after), slack);
    } else {
      GrownBase(inp.policy.maxSector, MeasuredBase(inp, planned, sector, st.proposals), MeasuredBase(inp, planned, sector, after));
    }
  }

  lemma SectorLimitIsKept(inp: Inputs, planned: Planned, sector: string, most: real)
    requires PricedAtMost(inp, most) && 0.0 <= inp.policy.maxSector < 1.0
    ensures Kept(inp, planned, UnderSectorLimit(inp, planned, sector, Slack(inp.cfg, most)))
  {
    var keeps := UnderSectorLimit(inp, planned, sector, Slack(inp.cfg, most));
    forall st: Buys, pick: Pick, share: real
      | Holds(keeps, st) && Offered(inp, pick) && PurchaseFor(inp, planned, st, pick, share).Some?
      ensures Holds(keeps, BuyOne(inp, planned, st, pick, share))
    {
      var p := PurchaseFor(inp, planned, st, pick, share).value;
      BuyOneIs(inp, planned, st, pick, share);
      PurchaseFits(inp, planned, st, pick, share);
      SlackAtMost(inp, most, pick);
      OnePurchaseInSector(inp, planned, st, sector, p, Slack(inp.cfg, pick.price), Slack(inp.cfg, most));
    }
  }

  function SoldElsewhere(planned: Planned, sector: string): Holding -> real
  {
    (h: Holding) => if InSector(h, sector) then 0.0 else PlannedFor(planned, h)
  }

  /** Everything invested once the plan is carried out. */
  function InvestedAfter(inp: Inputs, planned: Planned, ps: seq<Proposal>): real
  {
    InvestedValue(inp.view) - SumBy(inp.view.holdings, PlannedIn(planned)) + SumBy(ps, NotionalOf)
  }

  lemma {:induction false} SalesSplitBySector(hs: seq<Holding>, planned: Planned, sector: string)
    ensures SumBy(hs, PlannedIn(planned)) == SumBy(hs, SoldInSector(planned, sector)) + SumBy(hs, SoldElsewhere(planned, sector))
  {
    if hs != [] {
      SalesSplitBySector(hs[..|hs| - 1], planned, sector);
    }
  }

  /** The sector's dollars are within its limit of everything invested plus what is sold in other sectors. */
  predicate WithinSectorLimit(inp: Inputs, planned: Planned, sector: string, ps: seq<Proposal>, slack: real)
  {
    SectorExposure(inp, planned, sector, ps)
      <= Amount(inp.policy.maxSector, InvestedAfter(inp, planned, ps) + SumBy(inp.view.holdings, SoldElsewhere(planned, sector))) + slack
  }

  /** A sector that is bought into ends within its limit of the portfolio after the plan, but for the sales made in other
      sectors, which the planner leaves in its base, and in fractional shares the slack of one purchase. */
  lemma BuysRespectSectorLimit(inp: Inputs, trims: Trims, sector: string, most: real)
    requires PricedAtMost(inp, most) && 0.0 <= inp.policy.maxSector < 1.0
    requires SumBy(BuyAll(inp, trims).proposals, BoughtInSector(inp, sector)) > 0.0
    ensures WithinSectorLimit(inp, trims.planned, sector, BuyAll(inp, trims).proposals, Slack(inp.cfg, most))
  {
    SectorLimitHolds(inp, trims, sector, most);
    WithinMeasuredBase(inp, trims.planned, sector, BuyAll(inp, trims), Slack(inp.cfg, most));
  }

  lemma SectorLimitHolds(inp: Inputs, trims: Trims, sector: string, most: real)
    requires PricedAtMost(inp, most) && 0.0 <= inp.policy.maxSector < 1.0
    ensures Holds(UnderSectorLimit(inp, trims.planned, sector, Slack(inp.cfg, most)), BuyAll(inp, trims))
  {
    SectorLimitIsKept(inp, trims.planned, sector, most);
    NothingBought(inp, trims.planned, sector, Opening(inp, trims), Slack(inp.cfg, most));
    BuyAllKeeps(inp, trims, UnderSectorLimit(inp, trims.planned, sector, Slack(inp.cfg, most)));
  }

  lemma NothingBought(inp: Inputs, planned: Planned, sector: string, st: Buys, slack: real)
    requires st.proposals == []
    ensures Holds(UnderSectorLimit(inp, planned, sector, slack), st)
  {
  }

  lemma WithinMeasuredBase(inp: Inputs, planned: Planned, sector: string, st: Buys, slack: real)
    requires Holds(UnderSectorLimit(inp, planned, sector, slack), st) && SumBy(st.proposals, BoughtInSector(inp, sector)) > 0.0
    ensures WithinSectorLimit(inp, planned, sector, st.proposals, slack)
  {
    SalesSplitBySector(inp.view.holdings, planned, sector);
    var base := MeasuredBase(inp, planned, sector, st.proposals);
    assert base == InvestedAfter(inp, planned, st.proposals) + SumBy(inp.view.holdings, SoldElsewhere(planned, sector));
  }

  /** Spending the whole headroom keeps a sector within its limit of what will be invested exactly when
      nothing is sold in any other sector. */
  lemma SectorHeadroomIsExact(inp: Inputs, planned: Planned, sector: string, ps: seq<Proposal>)
    requires 0.0 < inp.policy.maxSector < 1.0
    requires 0.0 <= SumBy(inp.view.holdings, SoldElsewhere(planned, sector))
    requires var room := SectorHeadroom(inp, Some(sector), planned, ps); room.Some? && room.value > 0.0
    ensures var room := SectorHeadroom(inp, Some(sector), planned, ps).value;
      SectorExposure(inp, planned, sector, ps) + room <= Amount(inp.policy.maxSector, InvestedAfter(inp, planned, ps) + room)
      <==> SumBy(inp.view.holdings, SoldElsewhere(planned, sector)) == 0.0
  {
    var cap, base, exposure := inp.policy.maxSector, MeasuredBase(inp, planned, sector, ps), SectorExposure(inp, planned, sector, ps);
    var elsewhere := SumBy(inp.view.holdings, SoldElsewhere(planned, sector));
    var room := SectorHeadroom(inp, Some(sector), planned, ps).value;
    SalesSplitBySector(inp.view.holdings, planned, sector);
    assert room * (1.0 - cap) == Amount(cap, base) - exposure;
    assert exposure + room == Amount(cap, base + room);
    AmountAdds(base + room - elsewhere, elsewhere, cap);
    Commutes(cap, base + room - elsewhere);
    Commutes(cap, base + room);
    assert elsewhere > 0.0 ==> elsewhere * cap > 0.0;
  }

  lemma Commutes(a: real, b: real)
    ensures Amount(a, b) == Amount(b, a)
  {
  }
}
