/** Section 1091 bookkeeping: whose loss a repurchase replaces, what it defers, and what many repurchases defer together. */
module WashSales {
  import opened Wrappers
  import opened Sums
  import opened TaxLots
  import opened Books
  import opened LotWrites
  import opened LedgerInvariants

  /** A taxable repurchase inside the window defers part of the replaced loss into the new lot's basis: more than none,
      never more than all of it, and all of it exactly when as many shares are bought as the replaced lot ever held.
      Any other purchase defers nothing. */
  lemma DeferralIsPartOfTheLoss(b: Book, account: int, symbol: string, quantity: real, at: int)
    requires LotTable(b) && account in b.accounts && quantity > 0.0
    ensures var buyer := b.accounts[account];
            var replaced := Replaced(b, account, symbol, quantity, at);
            var deferred := Deferral(b, account, symbol, quantity, at);
      && (deferred > 0.0 <==> replaced.Some?)
      && (replaced.Some? <==> buyer.taxable && exists l :: l in b.lots && Blocks(l, TaxableAccounts(b, buyer.client), symbol, at))
      && (replaced.Some? ==>
            var lost := b.lots[replaced.value];
            RecentLoss(lost, symbol, WindowStart(at)) && deferred <= -lost.realizedGain
            && (deferred == -lost.realizedGain <==> quantity >= lost.quantity))
      && (replaced.None? ==> deferred == 0.0)
  {
    var buyer := b.accounts[account];
    var replaced := Replaced(b, account, symbol, quantity, at);
    if replaced.Some? {
      var lost := b.lots[replaced.value];
      assert lost in b.lots;
      PartOfLoss(lost.realizedGain, quantity, lost.quantity);
    }
    if buyer.taxable && exists l :: l in b.lots && Blocks(l, TaxableAccounts(b, buyer.client), symbol, at) {
      var l :| l in b.lots && Blocks(l, TaxableAccounts(b, buyer.client), symbol, at);
      assert RecentLoss(l, symbol, WindowStart(at));
    }
  }

  lemma PartOfLoss(gain: real, quantity: real, sold: real)
    requires gain < 0.0 && 0.0 < quantity && 0.0 < sold
    ensures 0.0 < DeferredLoss(gain, sold, quantity) <= -gain
    ensures DeferredLoss(gain, sold, quantity) == -gain <==> quantity >= sold
  {
    MatchedFraction(quantity, sold);
    FractionOf(Matched(quantity, sold), -gain);
  }

  lemma MatchedFraction(quantity: real, sold: real)
    requires 0.0 < quantity && 0.0 < sold
    ensures 0.0 < Matched(quantity, sold) <= 1.0
    ensures Matched(quantity, sold) == 1.0 <==> quantity >= sold
    ensures Matched(quantity, sold) * sold == Min(quantity, sold)
  {
  }

  lemma FractionOf(fraction: real, whole: real)
    requires 0.0 < fraction && 0.0 < whole
    ensures 0.0 < Amount(fraction, whole)
    ensures Amount(fraction, whole) <= whole <==> fraction <= 1.0
    ensures Amount(fraction, whole) == whole <==> fraction == 1.0
  {
    assert Amount(fraction, whole) - whole == (fraction - 1.0) * whole;
  }

  /** The basis of the lot a purchase opens is what was paid plus what was deferred. */
  lemma DeferralLandsInBasis(b: Book, account: int, symbol: string, quantity: real, price: real, at: int)
    requires LotTable(b) && account in b.accounts && quantity > 0.0
    ensures var c := Purchase(b, account, symbol, quantity, price, at);
            var newest := c.lots[|c.lots| - 1];
      && |c.lots| == |b.lots| + 1
      && newest.account == account && newest.symbol == symbol && newest.remaining == quantity
      && Amount(newest.quantity, newest.cost) == Amount(quantity, price) + Deferral(b, account, symbol, quantity, at)
  {
    var marked, lot := PurchaseRows(b, account, symbol, quantity, price, at);
  }

  /** The loss is measured against the lot's original size, not the shares sold from it: buying back everything that was
      sold defers the whole loss exactly when the lot was sold out, or as many shares are bought as it ever held. */
  lemma BuyingBackAllSoldDefersExactly(b: Book, account: int, symbol: string, quantity: real, at: int)
    requires LotTable(b) && account in b.accounts && quantity > 0.0
    requires Replaced(b, account, symbol, quantity, at).Some?
    requires var lost := b.lots[Replaced(b, account, symbol, quantity, at).value]; quantity >= lost.quantity - lost.remaining
    ensures var lost := b.lots[Replaced(b, account, symbol, quantity, at).value];
      Deferral(b, account, symbol, quantity, at) == -lost.realizedGain <==> lost.remaining == 0.0 || quantity >= lost.quantity
  {
    var lost := b.lots[Replaced(b, account, symbol, quantity, at).value];
    assert lost in b.lots && LotOk(lost);
    DeferralIsPartOfTheLoss(b, account, symbol, quantity, at);
  }

  /** Ten of a hundred shares bought at 20 are sold at 10, a loss of 100, and ten are bought back: a tenth of the loss is
      deferred. */
  lemma TenthIsDeferred() returns (b: Book, l: Lot)
    ensures LotTable(b) && b.lots == [l] && l.account in b.accounts
    ensures var sold := Sale(b, l.account, l.symbol, 10.0, 10.0, Hifo, DAY);
      && sold.Some? && |sold.value.lots| == 1 && sold.value.accounts == b.accounts
      && sold.value.lots[0].quantity - sold.value.lots[0].remaining == 10.0
      && sold.value.lots[0].realizedGain == -100.0
      && Deferral(sold.value, l.account, l.symbol, 10.0, 2 * DAY) == 10.0
  {
    l := UnsoldLot();
    b := OneLotTable(l);
    assert OpenRows(b.lots, l.account, l.symbol) == [l] by {
      assert b.lots[..0] == [];
    }
    OnlyOpenLotIsSold(b, l, 10.0, 10.0, Hifo, DAY);
    var s := Take(l, 10.0, 10.0, DAY);
    assert s.gain == -100.0;
    var sold := Sale(b, l.account, l.symbol, 10.0, 10.0, Hifo, DAY).value;
    assert sold.lots == [Dispose(l, s, DAY)];
    PartOfLossDefers(sold, Dispose(l, s, DAY), 10.0, 2 * DAY);
  }

  /** In a table of one lot, sold in part at a loss inside the window. */
  lemma PartOfLossDefers(b: Book, lost: Lot, quantity: real, at: int)
    requires b.lots == [lost] && lost.account in b.accounts && b.accounts[lost.account].taxable
    requires RecentLoss(lost, lost.symbol, WindowStart(at)) && lost.disposedAt.value <= at
    requires lost.quantity == 100.0 && quantity == 10.0 && lost.realizedGain == -100.0
    ensures Deferral(b, lost.account, lost.symbol, quantity, at) == 10.0
  {
    OwnLossReplaces(b, lost.account, lost.symbol, quantity, at, b.accounts[lost.account].client, 0);
    DeferralOf(b, lost.account, lost.symbol, quantity, at, lost);
    assert Matched(10.0, 100.0) == 0.1 && Amount(0.1, 100.0) == 10.0;
  }

  // --- Which loss is replaced -------------------------------------------------------

  predicate LossAt(lots: seq<Lot>, i: nat, symbol: string, since: int)
  {
    i < |lots| && RecentLoss(lots[i], symbol, since)
  }

  /** Disposed later, or at the same instant in no later row. */
  predicate Ahead(lots: seq<Lot>, i: nat, j: nat)
  {
    && i < |lots| && j < |lots| && lots[i].disposedAt.Some? && lots[j].disposedAt.Some?
    && (lots[i].disposedAt.value > lots[j].disposedAt.value || (lots[i].disposedAt == lots[j].disposedAt && i <= j))
  }

  /** The replaced lot is ahead of every loss in the window. */
  lemma {:induction false} ReplacedLotIsAhead(lots: seq<Lot>, symbol: string, since: int)
    ensures var r := ReplacedLot(lots, symbol, since);
      r.Some? ==> forall i :: LossAt(lots, i, symbol, since) ==> Ahead(lots, r.value, i)
  {
    if lots != [] {
      var init := lots[..|lots| - 1];
      ReplacedLotIsAhead(init, symbol, since);
      var r := ReplacedLot(lots, symbol, since);
      forall i: nat | r.Some? && LossAt(lots, i, symbol, since) ensures Ahead(lots, r.value, i) {
        if i < |init| {
          assert LossAt(init, i, symbol, since);
          assert init[i] in init;
        }
      }
    }
  }

  /** A loss ahead of every other is the replaced one. */
  lemma AheadIsReplaced(lots: seq<Lot>, symbol: string, since: int, r: nat)
    requires LossAt(lots, r, symbol, since) && forall i :: LossAt(lots, i, symbol, since) ==> Ahead(lots, r, i)
    ensures ReplacedLot(lots, symbol, since) == Some(r)
  {
    ReplacedLotIsAhead(lots, symbol, since);
    assert lots[r] in lots;
    var found := ReplacedLot(lots, symbol, since).value;
    assert LossAt(lots, found, symbol, since);
    assert Ahead(lots, r, found) && Ahead(lots, found, r);
  }

  predicate OwnLoss(b: Book, client: int, i: nat, symbol: string, since: int)
  {
    LossAt(b.lots, i, symbol, since) && b.lots[i].account in TaxableAccounts(b, client)
  }

  predicate OthersLoss(b: Book, client: int, j: nat, symbol: string, since: int)
  {
    LossAt(b.lots, j, symbol, since) && b.lots[j].account !in TaxableAccounts(b, client)
  }

  /** The query for the replaced lot has no account filter. It finds one of the client's own taxable losses exactly when
      every loss of the symbol elsewhere in the window has one of the client's ahead of it. */
  lemma ReplacedLossIsOwnExactly(b: Book, account: int, symbol: string, quantity: real, at: int)
    requires account in b.accounts && Replaced(b, account, symbol, quantity, at).Some?
    ensures var client, since := b.accounts[account].client, WindowStart(at);
      b.lots[Replaced(b, account, symbol, quantity, at).value].account in TaxableAccounts(b, client)
      <==> forall j :: OthersLoss(b, client, j, symbol, since)
             ==> exists i :: OwnLoss(b, client, i, symbol, since) && Ahead(b.lots, i, j)
  {
    var client, since := b.accounts[account].client, WindowStart(at);
    var r := Replaced(b, account, symbol, quantity, at).value;
    ReplacedLotIsAhead(b.lots, symbol, since);
    assert LossAt(b.lots, r, symbol, since);
    if OwnLoss(b, client, r, symbol, since) {
      forall j: nat | OthersLoss(b, client, j, symbol, since)
        ensures exists i :: OwnLoss(b, client, i, symbol, since) && Ahead(b.lots, i, j)
      {
        assert Ahead(b.lots, r, j);
      }
    } else {
      assert OthersLoss(b, client, r, symbol, since);
      forall i: nat | OwnLoss(b, client, i, symbol, since) ensures !Ahead(b.lots, i, r) {
        assert Ahead(b.lots, r, i);
      }
    }
  }

  lemma SoldOutLot(id: nat, account: int, at: int) returns (l: Lot)
    ensures l.id == id && l.account == account && l.symbol == "A" && l.disposedAt == Some(at) && LotOk(l)
    ensures l.quantity == 1.0 && l.remaining == 0.0 && l.realizedGain == -10.0
  {
    l := Lot(id, account, "A", 1.0, 0.0, 20.0, 0, Some(at), 10.0, -10.0, Some(ShortTerm), 0.0, None);
    assert Amount(1.0, l.cost) == l.cost;
  }

  lemma TwoClients(own: Lot, theirs: Lot) returns (b: Book)
    requires own.id == 0 && theirs.id == 1 && own.account == 1 && theirs.account == 2 && LotOk(own) && LotOk(theirs)
    ensures LotTable(b) && b.lots == [own, theirs]
    ensures b.accounts == map[1 := Account(1, 1, true, 0.0, 0.0), 2 := Account(1, 2, true, 0.0, 0.0)]
  {
    b := Book(map[1 := Account(1, 1, true, 0.0, 0.0), 2 := Account(1, 2, true, 0.0, 0.0)], [], [own, theirs], map[], []);
  }

  /** Two clients, each with one share sold at a loss of 10, the second client's later: the first client's repurchase
      defers the second client's loss. */
  lemma StrangersLossIsDeferred() returns (b: Book)
    ensures LotTable(b) && 1 in b.accounts && |b.lots| == 2
    ensures b.lots[0].account == 1 && b.lots[0].realizedGain == -10.0
    ensures Replaced(b, 1, "A", 1.0, 100) == Some(1) && b.lots[1].account !in TaxableAccounts(b, b.accounts[1].client)
    ensures Deferral(b, 1, "A", 1.0, 100) == 10.0
  {
    var own := SoldOutLot(0, 1, 50);
    var theirs := SoldOutLot(1, 2, 90);
    b := TwoClients(own, theirs);
    LaterLossReplaces(b, 1, 1.0, 100);
    DeferralOf(b, 1, "A", 1.0, 100, theirs);
    assert Amount(1.0, 10.0) == 10.0;
  }

  lemma LaterLossReplaces(b: Book, account: int, quantity: real, at: int)
    requires account in b.accounts && quantity > 0.0 && |b.lots| == 2
    requires Blocks(b.lots[0], TaxableAccounts(b, b.accounts[account].client), b.lots[0].symbol, at) && b.accounts[account].taxable
    requires RecentLoss(b.lots[1], b.lots[0].symbol, WindowStart(at)) && b.lots[0].disposedAt.value < b.lots[1].disposedAt.value
    ensures Replaced(b, account, b.lots[0].symbol, quantity, at) == Some(1)
  {
    OwnLossReplaces(b, account, b.lots[0].symbol, quantity, at, b.accounts[account].client, 0);
    AheadIsReplaced(b.lots, b.lots[0].symbol, WindowStart(at), 1);
  }

  // --- Repeated repurchases ---------------------------------------------------------

  predicate SameDisposal(l: Lot, m: Lot)
  {
    l.account == m.account && l.symbol == m.symbol && l.disposedAt == m.disposedAt && l.realizedGain == m.realizedGain
    && l.quantity == m.quantity
  }

  /** More lots, not yet disposed, after the same disposals. */
  predicate Extends(lots: seq<Lot>, longer: seq<Lot>)
  {
    && |longer| >= |lots|
    && (forall i :: 0 <= i < |lots| ==> SameDisposal(lots[i], longer[i]))
    && (forall i :: |lots| <= i < |longer| ==> longer[i].disposedAt.None?)
  }

  lemma PurchaseExtends(b: Book, account: int, symbol: string, quantity: real, price: real, at: int)
    requires LotTable(b) && account in b.accounts && quantity > 0.0
    ensures var c := Purchase(b, account, symbol, quantity, price, at); c.accounts == b.accounts && Extends(b.lots, c.lots)
  {
    var marked, lot := PurchaseRows(b, account, symbol, quantity, price, at);
    var c := Purchase(b, account, symbol, quantity, price, at);
    forall i | 0 <= i < |b.lots| ensures SameDisposal(b.lots[i], c.lots[i]) {
      assert c.lots[i] == marked[i];
    }
  }

  lemma ExtendsTwice(first: seq<Lot>, second: seq<Lot>, third: seq<Lot>)
    requires Extends(first, second) && Extends(second, third)
    ensures Extends(first, third)
  {
    forall i | 0 <= i < |first| ensures SameDisposal(first[i], third[i]) {
      assert SameDisposal(first[i], second[i]) && SameDisposal(second[i], third[i]);
    }
    forall i | |first| <= i < |third| ensures third[i].disposedAt.None? {
      if i < |second| {
        assert SameDisposal(second[i], third[i]);
      }
    }
  }

  /** Lots opened since do not change which loss is replaced. */
  lemma ExtendsReplacesSame(lots: seq<Lot>, longer: seq<Lot>, symbol: string, since: int)
    requires Extends(lots, longer)
    ensures ReplacedLot(longer, symbol, since) == ReplacedLot(lots, symbol, since)
  {
    forall i: nat ensures LossAt(longer, i, symbol, since) <==> LossAt(lots, i, symbol, since) {
      if i < |lots| {
        assert SameDisposal(lots[i], longer[i]);
      }
    }
    ReplacedLotIsAhead(lots, symbol, since);
    var r := ReplacedLot(lots, symbol, since);
    if r.Some? {
      assert LossAt(lots, r.value, symbol, since);
      forall i: nat | LossAt(longer, i, symbol, since) ensures Ahead(longer, r.value, i) {
        assert Ahead(lots, r.value, i);
        assert SameDisposal(lots[i], longer[i]) && SameDisposal(lots[r.value], longer[r.value]);
      }
      AheadIsReplaced(longer, symbol, since, r.value);
    } else if l :| l in longer && RecentLoss(l, symbol, since) {
      var i :| 0 <= i < |longer| && longer[i] == l;
      assert LossAt(longer, i, symbol, since);
      assert lots[i] in lots;
    }
  }

  /** While one loss stays in the window, moving the window does not change which loss is replaced. */
  lemma WindowReplacesSame(lots: seq<Lot>, symbol: string, w: nat, since: int, later: int)
    requires LossAt(lots, w, symbol, since) && LossAt(lots, w, symbol, later)
    ensures ReplacedLot(lots, symbol, since) == ReplacedLot(lots, symbol, later)
  {
    assert lots[w] in lots;
    ReplacedLotIsAhead(lots, symbol, since);
    var r := ReplacedLot(lots, symbol, since).value;
    assert Ahead(lots, r, w);
    forall i: nat | LossAt(lots, i, symbol, later) ensures Ahead(lots, r, i) {
      if LossAt(lots, i, symbol, since) {
        assert Ahead(lots, r, i);
      }
    }
    AheadIsReplaced(lots, symbol, later, r);
  }

  datatype Buyback = Buyback(account: int, quantity: real, price: real, at: int)

  /** A purchase by a taxable account of the client, with the loss in row `w`, the client's own, in its window. */
  predicate BuysBack(b: Book, symbol: string, client: int, w: nat, x: Buyback)
  {
    && x.account in TaxableAccounts(b, client) && x.quantity > 0.0
    && w < |b.lots| && Blocks(b.lots[w], TaxableAccounts(b, client), symbol, x.at)
  }

  predicate AllBuyBack(b: Book, symbol: string, client: int, w: nat, buys: seq<Buyback>)
  {
    forall x :: x in buys ==> BuysBack(b, symbol, client, w, x)
  }

  function AfterBuys(b: Book, symbol: string, buys: seq<Buyback>): (c: Book)
    requires forall x :: x in buys ==> x.account in b.accounts
    ensures c.accounts == b.accounts
  {
    if buys == [] then b
    else
      var x := buys[|buys| - 1];
      Purchase(AfterBuys(b, symbol, buys[..|buys| - 1]), x.account, symbol, x.quantity, x.price, x.at)
  }

  /** What the purchases defer, one after another. */
  function TotalDeferred(b: Book, symbol: string, buys: seq<Buyback>): real
    requires forall x :: x in buys ==> x.account in b.accounts
  {
    if buys == [] then 0.0
    else
      var x := buys[|buys| - 1];
      TotalDeferred(b, symbol, buys[..|buys| - 1])
        + Deferral(AfterBuys(b, symbol, buys[..|buys| - 1]), x.account, symbol, x.quantity, x.at)
  }

  function MatchedShares(sold: real): Buyback -> real
  {
    (x: Buyback) => Min(x.quantity, sold)
  }

  function MatchedFractions(sold: real): Buyback -> real
  {
    (x: Buyback) => if sold > 0.0 then Matched(x.quantity, sold) else 0.0
  }

  function ShareOfLoss(quantity: real, lost: Lot): real
  {
    if lost.quantity > 0.0 then Amount(Matched(quantity, lost.quantity), -lost.realizedGain) else 0.0
  }

  function DeferredBy(lost: Lot): Buyback -> real
  {
    (x: Buyback) => ShareOfLoss(x.quantity, lost)
  }

  lemma {:induction false} BuysExtend(b: Book, symbol: string, buys: seq<Buyback>)
    requires LotTable(b) && forall x :: x in buys ==> x.account in b.accounts && x.quantity > 0.0
    ensures LotTable(AfterBuys(b, symbol, buys)) && Extends(b.lots, AfterBuys(b, symbol, buys).lots)
  {
    if buys != [] {
      var init, x := buys[..|buys| - 1], buys[|buys| - 1];
      BuysExtend(b, symbol, init);
      var c := AfterBuys(b, symbol, init);
      PurchaseKeepsTable(c, x.account, symbol, x.quantity, x.price, x.at);
      PurchaseExtends(c, x.account, symbol, x.quantity, x.price, x.at);
      ExtendsTwice(b.lots, c.lots, AfterBuys(b, symbol, buys).lots);
    }
  }

  /** A client's taxable account that sees one of the client's losses in its window replaces the one ahead of all. */
  lemma OwnLossReplaces(b: Book, account: int, symbol: string, quantity: real, at: int, client: int, w: nat)
    requires account in TaxableAccounts(b, client) && quantity > 0.0
    requires w < |b.lots| && Blocks(b.lots[w], TaxableAccounts(b, client), symbol, at)
    ensures LossAt(b.lots, w, symbol, WindowStart(at))
    ensures Replaced(b, account, symbol, quantity, at) == ReplacedLot(b.lots, symbol, WindowStart(at)) != None
  {
    assert b.lots[w] in b.lots;
  }

  /** After any lots opened since, in whichever of the client's taxable accounts and while the same own loss is in the
      window, a purchase replaces the lot the first one replaced. */
  lemma EveryPurchaseReplacesSameLot(b: Book, c: Book, symbol: string, client: int, w: nat, first: Buyback, x: Buyback)
    requires BuysBack(b, symbol, client, w, first) && BuysBack(b, symbol, client, w, x) && c.accounts == b.accounts && Extends(b.lots, c.lots)
    ensures Replaced(b, first.account, symbol, first.quantity, first.at).Some?
    ensures Replaced(c, x.account, symbol, x.quantity, x.at) == Replaced(b, first.account, symbol, first.quantity, first.at)
  {
    assert SameDisposal(b.lots[w], c.lots[w]);
    OwnLossReplaces(b, first.account, symbol, first.quantity, first.at, client, w);
    OwnLossReplaces(b, x.account, symbol, x.quantity, x.at, client, w);
    assert TaxableAccounts(c, client) == TaxableAccounts(b, client);
    OwnLossReplaces(c, x.account, symbol, x.quantity, x.at, client, w);
    ExtendsReplacesSame(b.lots, c.lots, symbol, WindowStart(x.at));
    WindowReplacesSame(b.lots, symbol, w, WindowStart(first.at), WindowStart(x.at));
  }

  lemma DeferralOf(b: Book, account: int, symbol: string, quantity: real, at: int, lost: Lot)
    requires account in b.accounts && quantity > 0.0 && lost.quantity > 0.0
    requires var r := Replaced(b, account, symbol, quantity, at); r.Some? && SameDisposal(lost, b.lots[r.value])
    ensures Deferral(b, account, symbol, quantity, at) == ShareOfLoss(quantity, lost)
  {
    assert Min(quantity, lost.quantity) > 0.0;
  }

  /** Each purchase defers its share of the one replaced loss. */
  lemma {:induction false} BuybacksDefer(b: Book, symbol: string, client: int, w: nat, first: Buyback, buys: seq<Buyback>, r: nat, lost: Lot)
    requires LotTable(b) && BuysBack(b, symbol, client, w, first) && AllBuyBack(b, symbol, client, w, buys)
    requires Replaced(b, first.account, symbol, first.quantity, first.at) == Some(r) && b.lots[r] == lost
    requires lost.quantity > 0.0
    ensures TotalDeferred(b, symbol, buys) == SumBy(buys, DeferredBy(lost))
  {
    if buys != [] {
      var init, x := buys[..|buys| - 1], buys[|buys| - 1];
      BuybacksDefer(b, symbol, client, w, first, init, r, lost);
      BuysExtend(b, symbol, init);
      NextDefers(b, AfterBuys(b, symbol, init), symbol, client, w, first, x, r, lost);
    }
  }

  lemma NextDefers(b: Book, c: Book, symbol: string, client: int, w: nat, first: Buyback, x: Buyback, r: nat, lost: Lot)
    requires BuysBack(b, symbol, client, w, first) && BuysBack(b, symbol, client, w, x) && c.accounts == b.accounts && Extends(b.lots, c.lots)
    requires Replaced(b, first.account, symbol, first.quantity, first.at) == Some(r) && b.lots[r] == lost
    requires lost.quantity > 0.0
    ensures Deferral(c, x.account, symbol, x.quantity, x.at) == ShareOfLoss(x.quantity, lost)
  {
    EveryPurchaseReplacesSameLot(b, c, symbol, client, w, first, x);
    assert SameDisposal(b.lots[r], c.lots[r]);
    DeferralOf(c, x.account, symbol, x.quantity, x.at, lost);
  }

  /** The shares of a loss add up to no more than the loss exactly when the matched shares add up to no more than the lot. */
  lemma SharesOfLoss(buys: seq<Buyback>, lost: Lot)
    requires buys != [] && lost.quantity > 0.0 && lost.realizedGain < 0.0 && forall x :: x in buys ==> x.quantity > 0.0
    ensures SumBy(buys, DeferredBy(lost)) <= -lost.realizedGain <==> SumBy(buys, MatchedShares(lost.quantity)) <= lost.quantity
  {
    var fractions, loss := MatchedFractions(lost.quantity), -lost.realizedGain;
    forall x | x in buys
      ensures MatchedShares(lost.quantity)(x) == Amount(fractions(x), lost.quantity) && 0.0 < fractions(x)
      ensures DeferredBy(lost)(x) == Amount(fractions(x), loss)
    {
      MatchedFraction(x.quantity, lost.quantity);
    }
    SumByScaled(buys, MatchedShares(lost.quantity), fractions, lost.quantity);
    SumByScaled(buys, DeferredBy(lost), fractions, loss);
    SumByNonnegative(buys, fractions);
    assert buys[0] in buys;
    FractionOf(SumBy(buys, fractions), loss);
    FractionOf(SumBy(buys, fractions), lost.quantity);
  }

  /** Deferral is conserved per purchase, not per loss: repurchases, however many, by any of the client's taxable accounts
      while one own loss stays in their windows, together defer no more than the replaced loss exactly when together they
      match no more shares than the replaced lot ever held. */
  lemma RepurchasesDeferExactly(b: Book, symbol: string, client: int, w: nat, buys: seq<Buyback>)
    requires LotTable(b) && buys != [] && AllBuyBack(b, symbol, client, w, buys)
    ensures buys[0].account in b.accounts
    ensures var r := Replaced(b, buys[0].account, symbol, buys[0].quantity, buys[0].at);
      && r.Some?
      && var lost := b.lots[r.value];
         (TotalDeferred(b, symbol, buys) <= -lost.realizedGain <==> SumBy(buys, MatchedShares(lost.quantity)) <= lost.quantity)
  {
    var first := buys[0];
    assert first in buys;
    OwnLossReplaces(b, first.account, symbol, first.quantity, first.at, client, w);
    var r := Replaced(b, first.account, symbol, first.quantity, first.at).value;
    var lost := b.lots[r];
    assert lost in b.lots && LotOk(lost);
    assert RecentLoss(lost, symbol, WindowStart(first.at));
    BuybacksDefer(b, symbol, client, w, first, buys, r, lost);
    SharesOfLoss(buys, lost);
  }
}
