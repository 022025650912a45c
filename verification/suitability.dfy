/** Sizing approved candidates: investable cash is poured over them in proportion to confidence, under a
    position cap, a cash floor and a sector budget, whatever order the names are visited in.

    The loop's tolerances are a parameter: the source's own, or none at all. */
module Suitability {
  import opened Wrappers
  import opened Sums
  import opened TaxLots
  import opened Books
  import opened Portfolio
  import opened BuyProofs

  const PASSES: nat := 6

  /** An approved candidate. A fund carries no sector. */
  datatype Candidate = Candidate(ticker: string, confidence: real, sector: Option<string>)

  datatype Sizing = Sizing(
    tickers: seq<string>, weight: string -> real, headroom: string -> real, sectorOf: string -> Option<string>,
    sectorBase: map<string, real>, invested: real, sectorCap: real, investable: real)

  /** Cash left that counts as none, and dollars short of a cap that count as at it. */
  datatype Tolerance = Tolerance(cash: real, cap: real)

  const CODE_TOLERANCE := Tolerance(0.000001, 0.000000001)
  const NO_TOLERANCE := Tolerance(0.0, 0.0)

  type Dollars = map<string, real>

  function Of(m: Dollars, t: string): real
  {
    if t in m then m[t] else 0.0
  }

  function In(m: Dollars): string -> real
  {
    (t: string) => Of(m, t)
  }

  function Total(s: Sizing, m: Dollars): real
  {
    SumBy(s.tickers, In(m))
  }

  // --- One pass --------------------------------------------------------------------------------

  datatype Basket = Basket(allocation: Dollars, sectorValue: Dollars, given: real, capped: set<string>)

  /** What a name can still take: its position headroom, and its sector's. */
  function Room(s: Sizing, b: Basket, t: string): real
  {
    var own := s.headroom(t) - Of(b.allocation, t);
    if s.sectorOf(t).None? || s.sectorCap >= 1.0 then own
    else
      var base := s.invested + Total(s, b.allocation);
      Min(own, Max(0.0, (Amount(s.sectorCap, base) - Of(b.sectorValue, s.sectorOf(t).value)) / (1.0 - s.sectorCap)))
  }

  function Given(s: Sizing, b: Basket, t: string, share: real): real
  {
    Max(0.0, Min(share, Room(s, b, t)))
  }

  function GiveOne(s: Sizing, tol: Tolerance, b: Basket, t: string, share: real): Basket
  {
    var room := Room(s, b, t);
    var give := Given(s, b, t, share);
    var after := Of(b.allocation, t) + give;
    Basket(b.allocation[t := after],
           if s.sectorOf(t).Some? && give > 0.0
             then b.sectorValue[s.sectorOf(t).value := Of(b.sectorValue, s.sectorOf(t).value) + give] else b.sectorValue,
           b.given + give,
           if after >= s.headroom(t) - tol.cap || room <= tol.cap then b.capped + {t} else b.capped)
  }

  function Share(s: Sizing, remaining: real, openWeight: real, t: string): real
    requires openWeight > 0.0
  {
    remaining * (s.weight(t) / openWeight)
  }

  /** A pass over the open names, in the order visited. */
  function Pour(s: Sizing, tol: Tolerance, b: Basket, order: seq<string>, remaining: real, openWeight: real): Basket
    requires openWeight > 0.0
  {
    if order == [] then b
    else
      var t := order[|order| - 1];
      GiveOne(s, tol, Pour(s, tol, b, order[..|order| - 1], remaining, openWeight), t, Share(s, remaining, openWeight, t))
  }

  method PourOne(s: Sizing, tol: Tolerance, b: Basket, t: string, share: real) returns (after: Basket)
    ensures after == GiveOne(s, tol, b, t, share)
  {
    var allocation, sectorValue, capped := b.allocation, b.sectorValue, b.capped;
    var sector := s.sectorOf(t);
    var room := Room(s, b, t);
    var give := Max(0.0, Min(share, room));
    allocation := allocation[t := Of(allocation, t) + give];
    if sector.Some? && give > 0.0 {
      sectorValue := sectorValue[sector.value := Of(sectorValue, sector.value) + give];
    }
    if Of(allocation, t) >= s.headroom(t) - tol.cap || room <= tol.cap {
      capped := capped + {t};
    }
    after := Basket(allocation, sectorValue, b.given + give, capped);
  }

  method PourPass(s: Sizing, tol: Tolerance, start: Basket, order: seq<string>, remaining: real, openWeight: real) returns (b: Basket)
    requires openWeight > 0.0
    ensures b == Pour(s, tol, start, order, remaining, openWeight)
  {
    b := start;
    for i := 0 to |order|
      invariant b == Pour(s, tol, start, order[..i], remaining, openWeight)
    {
      assert order[..i + 1][..i] == order[..i];
      b := PourOne(s, tol, b, order[i], Share(s, remaining, openWeight, order[i]));
    }
    assert order[..|order|] == order;
  }

  // --- Feasibility ---------------------------------------------------------------------------------

  predicate Proper(s: Sizing)
  {
    && Distinct(s.tickers)
    && (forall t :: t in s.tickers ==> 0.0 <= s.headroom(t) && 0.0 <= s.weight(t))
    && SumBy(s.tickers, s.weight) <= 1.0
    && 0.0 <= s.sectorCap && 0.0 <= s.investable
  }

  predicate WithinHeadroom(s: Sizing, m: Dollars, t: string)
  {
    0.0 <= Of(m, t) <= s.headroom(t)
  }

  function InSectorOf(s: Sizing, m: Dollars, sector: string): string -> real
  {
    (t: string) => if s.sectorOf(t) == Some(sector) then Of(m, t) else 0.0
  }

  /** Dollars poured into a sector. */
  function Poured(s: Sizing, m: Dollars, sector: string): real
  {
    SumBy(s.tickers, InSectorOf(s, m, sector))
  }

  /** A sector that received money is within its limit of everything invested once the basket is bought. */
  predicate WithinSector(s: Sizing, m: Dollars, sector: string)
  {
    Poured(s, m, sector) > 0.0 && s.sectorCap < 1.0 ==>
      Of(s.sectorBase, sector) + Poured(s, m, sector) <= Amount(s.sectorCap, s.invested + Total(s, m))
  }

  predicate Tracked(s: Sizing, b: Basket, sector: string)
  {
    && Of(b.sectorValue, sector) == Of(s.sectorBase, sector) + Poured(s, b.allocation, sector)
    && 0.0 <= Poured(s, b.allocation, sector)
    && WithinSector(s, b.allocation, sector)
  }

  /** Raising one name's dollars raises a total by as much as the total counts that name. */
  lemma OneNameMore(tickers: seq<string>, f: string -> real, g: string -> real, t: string, x: real)
    requires Distinct(tickers) && t in tickers
    requires forall u :: g(u) == f(u) + if u == t then x else 0.0
    ensures SumBy(tickers, g) == SumBy(tickers, f) + x
  {
    CountedOnce(tickers, t, x);
    SumByAdds(tickers, g, f, OnlyFor(t, x));
  }

  lemma GiveOneTotals(s: Sizing, tol: Tolerance, b: Basket, t: string, share: real, sector: string)
    requires Proper(s) && t in s.tickers
    ensures var c := GiveOne(s, tol, b, t, share);
            var give := Given(s, b, t, share);
      && Total(s, c.allocation) == Total(s, b.allocation) + give
      && Poured(s, c.allocation, sector) == Poured(s, b.allocation, sector) + (if s.sectorOf(t) == Some(sector) then give else 0.0)
      && c.given == b.given + give
  {
    var c := GiveOne(s, tol, b, t, share);
    var give := Given(s, b, t, share);
    OneNameMore(s.tickers, In(b.allocation), In(c.allocation), t, give);
    OneNameMore(s.tickers, InSectorOf(s, b.allocation, sector), InSectorOf(s, c.allocation, sector), t,
                if s.sectorOf(t) == Some(sector) then give else 0.0);
  }

  /** What a name is given fits in its sector's room, once the base has grown by it. */
  lemma GiveFitsSector(s: Sizing, b: Basket, t: string, share: real, base: real)
    requires Proper(s) && s.sectorOf(t).Some? && s.sectorCap < 1.0 && Given(s, b, t, share) > 0.0
    requires base == s.invested + Total(s, b.allocation) + Given(s, b, t, share)
    ensures Of(b.sectorValue, s.sectorOf(t).value) + Given(s, b, t, share) <= Amount(s.sectorCap, base)
  {
    HeadroomSolves(s.sectorCap, s.invested + Total(s, b.allocation), Of(b.sectorValue, s.sectorOf(t).value), Given(s, b, t, share));
  }

  function Invested(s: Sizing, b: Basket): real
  {
    s.invested + Total(s, b.allocation)
  }

  lemma GiveOneKeepsSector(s: Sizing, tol: Tolerance, b: Basket, t: string, share: real, sector: string)
    requires Proper(s) && t in s.tickers && Tracked(s, b, sector)
    ensures Tracked(s, GiveOne(s, tol, b, t, share), sector)
  {
    var give := Given(s, b, t, share);
    var c := GiveOne(s, tol, b, t, share);
    GiveOneTotals(s, tol, b, t, share, sector);
    GrownBase(s.sectorCap, Invested(s, b), Invested(s, c));
    if s.sectorCap < 1.0 && s.sectorOf(t) == Some(sector) && give > 0.0 {
      GiveFitsSector(s, b, t, share, Invested(s, c));
    }
    StillTracked(s, b, c, sector, give, s.sectorOf(t) == Some(sector));
  }

  lemma StillTracked(s: Sizing, b: Basket, c: Basket, sector: string, give: real, mine: bool)
    requires Tracked(s, b, sector) && give >= 0.0
    requires Poured(s, c.allocation, sector) == Poured(s, b.allocation, sector) + if mine then give else 0.0
    requires Of(c.sectorValue, sector) == Of(b.sectorValue, sector) + if mine then give else 0.0
    requires Amount(s.sectorCap, Invested(s, b)) <= Amount(s.sectorCap, Invested(s, c))
    requires mine && give > 0.0 && s.sectorCap < 1.0 ==> Of(b.sectorValue, sector) + give <= Amount(s.sectorCap, Invested(s, c))
    ensures Tracked(s, c, sector)
  {
  }

  /** A pass keeps every limit, spends what it reports, and never gives a name more than its share. */
  lemma {:induction false} PourKeepsSector(s: Sizing, tol: Tolerance, b: Basket, order: seq<string>, remaining: real, openWeight: real,
                                           sector: string)
    requires openWeight > 0.0 && Proper(s) && Tracked(s, b, sector) && forall t :: t in order ==> t in s.tickers
    ensures Tracked(s, Pour(s, tol, b, order, remaining, openWeight), sector)
  {
    if order != [] {
      var n := |order| - 1;
      assert order[n] in order;
      PourKeepsSector(s, tol, b, order[..n], remaining, openWeight, sector);
      GiveOneKeepsSector(s, tol, Pour(s, tol, b, order[..n], remaining, openWeight), order[n],
                         Share(s, remaining, openWeight, order[n]), sector);
    }
  }

  lemma {:induction false} PourKeepsHeadroom(s: Sizing, tol: Tolerance, b: Basket, order: seq<string>, remaining: real, openWeight: real,
                                             t: string)
    requires openWeight > 0.0 && WithinHeadroom(s, b.allocation, t)
    ensures WithinHeadroom(s, Pour(s, tol, b, order, remaining, openWeight).allocation, t)
    ensures Of(Pour(s, tol, b, order, remaining, openWeight).allocation, t) >= Of(b.allocation, t)
    ensures t !in order ==> Of(Pour(s, tol, b, order, remaining, openWeight).allocation, t) == Of(b.allocation, t)
  {
    if order != [] {
      var n := |order| - 1;
      PourKeepsHeadroom(s, tol, b, order[..n], remaining, openWeight, t);
      assert order == order[..n] + [order[n]];
    }
  }

  function ShareOf(s: Sizing, remaining: real, openWeight: real): string -> real
    requires openWeight > 0.0
  {
    (t: string) => Share(s, remaining, openWeight, t)
  }

  lemma ShareIsRate(s: Sizing, remaining: real, openWeight: real, t: string)
    requires openWeight > 0.0
    ensures Share(s, remaining, openWeight, t) == Amount(s.weight(t), remaining / openWeight)
  {
    assert remaining * (s.weight(t) / openWeight) == s.weight(t) * (remaining / openWeight);
  }

  lemma ProductNotNegative(a: real, b: real)
    requires 0.0 <= a && 0.0 <= b
    ensures 0.0 <= Amount(a, b)
  {
  }

  lemma SharesSumToRemaining(s: Sizing, order: seq<string>, remaining: real)
    requires SumBy(order, s.weight) > 0.0
    ensures SumBy(order, ShareOf(s, remaining, SumBy(order, s.weight))) == remaining
  {
    var openWeight := SumBy(order, s.weight);
    var rate := remaining / openWeight;
    forall t | t in order ensures ShareOf(s, remaining, openWeight)(t) == Amount(s.weight(t), rate) {
      ShareIsRate(s, remaining, openWeight, t);
    }
    SumByScaled(order, ShareOf(s, remaining, openWeight), s.weight, rate);
    assert openWeight * rate == remaining;
  }

  lemma GivenWithinShare(s: Sizing, b: Basket, t: string, remaining: real, openWeight: real)
    requires openWeight > 0.0 && remaining >= 0.0 && 0.0 <= s.weight(t)
    ensures 0.0 <= Given(s, b, t, Share(s, remaining, openWeight, t)) <= Share(s, remaining, openWeight, t)
  {
    ShareIsRate(s, remaining, openWeight, t);
    ProductNotNegative(s.weight(t), remaining / openWeight);
  }

  lemma {:induction false} PourTotals(s: Sizing, tol: Tolerance, b: Basket, order: seq<string>, remaining: real, openWeight: real)
    requires openWeight > 0.0 && remaining >= 0.0 && Proper(s) && forall t :: t in order ==> t in s.tickers
    ensures var c := Pour(s, tol, b, order, remaining, openWeight);
      && Total(s, c.allocation) - Total(s, b.allocation) == c.given - b.given
      && 0.0 <= c.given - b.given <= SumBy(order, ShareOf(s, remaining, openWeight))
  {
    if order != [] {
      var n := |order| - 1;
      var t := order[n];
      assert t in order;
      var mid := Pour(s, tol, b, order[..n], remaining, openWeight);
      PourTotals(s, tol, b, order[..n], remaining, openWeight);
      GiveOneTotals(s, tol, mid, t, Share(s, remaining, openWeight, t), "");
      GivenWithinShare(s, mid, t, remaining, openWeight);
    }
  }

  // --- The water level -------------------------------------------------------------------------------

  predicate NoSectors(s: Sizing)
  {
    forall t :: t in s.tickers ==> s.sectorOf(t).None?
  }

  /** Where the water stands for one name: an open name holds its weight's worth of the level; a closed one is
      at its cap, within the tolerance, and the level has passed it. */
  predicate AtLevel(s: Sizing, tol: Tolerance, m: Dollars, open: set<string>, level: real, t: string)
  {
    if t in open then Of(m, t) == Amount(s.weight(t), level) <= s.headroom(t)
    else s.headroom(t) - tol.cap <= Of(m, t) <= s.headroom(t) && Of(m, t) <= Amount(s.weight(t), level)
  }

  /** With no sector, a name in the pass gets its share or its headroom, and is closed exactly at its cap. */
  lemma {:induction false} PourGives(s: Sizing, tol: Tolerance, b: Basket, order: seq<string>, remaining: real, openWeight: real, t: string)
    requires openWeight > 0.0 && Distinct(order) && t in order && s.sectorOf(t).None?
    requires Of(b.allocation, t) <= s.headroom(t) && 0.0 <= Share(s, remaining, openWeight, t)
    requires t !in b.capped
    ensures var c := Pour(s, tol, b, order, remaining, openWeight);
            var share := Share(s, remaining, openWeight, t);
      && Of(c.allocation, t) == Min(Of(b.allocation, t) + share, s.headroom(t))
      && (t in c.capped <==> Of(c.allocation, t) >= s.headroom(t) - tol.cap || s.headroom(t) - Of(b.allocation, t) <= tol.cap)
  {
    var n := |order| - 1;
    if order[n] == t {
      NotVisited(s, tol, b, order[..n], remaining, openWeight, t);
    } else {
      assert order == order[..n] + [order[n]];
      PourGives(s, tol, b, order[..n], remaining, openWeight, t);
    }
  }

  lemma {:induction false} NotVisited(s: Sizing, tol: Tolerance, b: Basket, order: seq<string>, remaining: real, openWeight: real, t: string)
    requires openWeight > 0.0 && t !in order
    ensures var c := Pour(s, tol, b, order, remaining, openWeight);
      Of(c.allocation, t) == Of(b.allocation, t) && (t in c.capped <==> t in b.capped)
  {
    if order != [] {
      var n := |order| - 1;
      assert order == order[..n] + [order[n]];
      NotVisited(s, tol, b, order[..n], remaining, openWeight, t);
    }
  }

  lemma RateSplits(s: Sizing, t: string, level: real, rate: real)
    requires 0.0 <= rate && 0.0 <= s.weight(t)
    ensures Amount(s.weight(t), level + rate) == Amount(s.weight(t), level) + Amount(s.weight(t), rate)
    ensures 0.0 <= Amount(s.weight(t), rate)
  {
  }

  /** A pass raises the level by what was left per unit of open weight. */
  lemma PassRaisesLevel(s: Sizing, tol: Tolerance, b: Basket, order: seq<string>, open: set<string>, remaining: real, level: real, t: string)
    requires NoSectors(s) && Proper(s) && 0.0 <= tol.cap && 0.0 <= remaining && t in s.tickers
    requires Distinct(order) && (forall u :: u in order <==> u in open) && SumBy(order, s.weight) > 0.0
    requires b.capped == {} && AtLevel(s, tol, b.allocation, open, level, t)
    ensures var c := Pour(s, tol, b, order, remaining, SumBy(order, s.weight));
      AtLevel(s, tol, c.allocation, open - c.capped, level + remaining / SumBy(order, s.weight), t)
  {
    var openWeight := SumBy(order, s.weight);
    RateSplits(s, t, level, remaining / openWeight);
    ShareIsRate(s, remaining, openWeight, t);
    if t in open {
      PourGives(s, tol, b, order, remaining, openWeight, t);
    } else {
      NotVisited(s, tol, b, order, remaining, openWeight, t);
    }
  }

  lemma {:induction false} CappedGrows(s: Sizing, tol: Tolerance, b: Basket, order: seq<string>, remaining: real, openWeight: real)
    requires openWeight > 0.0
    ensures b.capped <= Pour(s, tol, b, order, remaining, openWeight).capped
  {
    if order != [] {
      CappedGrows(s, tol, b, order[..|order| - 1], remaining, openWeight);
    }
  }

  /** A name a pass leaves open was given its whole share. */
  lemma OpenNameGetsShare(s: Sizing, tol: Tolerance, b: Basket, t: string, share: real)
    requires 0.0 <= tol.cap && 0.0 <= share && s.sectorOf(t).None? && t !in GiveOne(s, tol, b, t, share).capped
    ensures Given(s, b, t, share) == share
  {
  }

  /** A pass that closes no name spends everything that was left. */
  lemma {:induction false} PassSpendsAll(s: Sizing, tol: Tolerance, b: Basket, order: seq<string>, remaining: real, openWeight: real)
    requires openWeight > 0.0 && 0.0 <= remaining && 0.0 <= tol.cap && NoSectors(s) && Proper(s)
    requires forall t :: t in order ==> t in s.tickers && t !in Pour(s, tol, b, order, remaining, openWeight).capped
    ensures Pour(s, tol, b, order, remaining, openWeight).given == b.given + SumBy(order, ShareOf(s, remaining, openWeight))
  {
    if order != [] {
      var n := |order| - 1;
      var t := order[n];
      assert t in order;
      var mid := Pour(s, tol, b, order[..n], remaining, openWeight);
      PassSpendsAll(s, tol, b, order[..n], remaining, openWeight);
      GivenWithinShare(s, mid, t, remaining, openWeight);
      OpenNameGetsShare(s, tol, mid, t, Share(s, remaining, openWeight, t));
    }
  }

  /** A pass spends at least the share of any name it leaves open. */
  lemma {:induction false} PassSpendsShare(s: Sizing, tol: Tolerance, b: Basket, order: seq<string>, remaining: real, openWeight: real, t: string)
    requires openWeight > 0.0 && 0.0 <= remaining && 0.0 <= tol.cap && NoSectors(s) && Proper(s)
    requires t in order && t !in Pour(s, tol, b, order, remaining, openWeight).capped
    requires forall u :: u in order ==> u in s.tickers
    ensures Pour(s, tol, b, order, remaining, openWeight).given >= b.given + Share(s, remaining, openWeight, t)
  {
    var n := |order| - 1;
    assert order[n] in order;
    var mid := Pour(s, tol, b, order[..n], remaining, openWeight);
    GivenWithinShare(s, mid, order[n], remaining, openWeight);
    if order[n] == t {
      PourTotals(s, tol, b, order[..n], remaining, openWeight);
      OpenNameGetsShare(s, tol, mid, t, Share(s, remaining, openWeight, t));
    } else {
      assert order == order[..n] + [order[n]];
      PassSpendsShare(s, tol, b, order[..n], remaining, openWeight, t);
    }
  }

  // --- The whole loop --------------------------------------------------------------------------------

  method Listed(open: set<string>) returns (order: seq<string>)
    ensures Distinct(order) && forall t :: t in order <==> t in open
  {
    order := [];
    var left := open;
    while left != {}
      invariant left <= open && Distinct(order)
      invariant forall t :: t in order <==> t in open && t !in left
      decreases |left|
    {
      var t :| t in left;
      order := order + [t];
      left := left - {t};
    }
  }

  method WeightOf(s: Sizing, order: seq<string>) returns (w: real)
    ensures w == SumBy(order, s.weight)
  {
    w := 0.0;
    for i := 0 to |order|
      invariant w == SumBy(order[..i], s.weight)
    {
      assert order[..i + 1][..i] == order[..i];
      w := w + s.weight(order[i]);
    }
    assert order[..|order|] == order;
  }

  /** Each name's headroom and the portfolio's: nothing is oversized, nothing over the cash, no sector over its limit. */
  ghost predicate Feasible(s: Sizing, m: Dollars)
  {
    && (forall t :: t in s.tickers ==> WithinHeadroom(s, m, t))
    && Total(s, m) <= s.investable
    && (forall sector :: WithinSector(s, m, sector))
  }

  function Target(s: Sizing, level: real, t: string): real
  {
    Min(s.headroom(t), Amount(s.weight(t), level))
  }

  /** Every name stands at the same level or at its own cap. */
  predicate WaterFilled(s: Sizing, tol: Tolerance, m: Dollars, level: real)
  {
    forall t :: t in s.tickers ==> Target(s, level, t) - tol.cap <= Of(m, t) <= Target(s, level, t)
  }

  function WeightedHeadroom(s: Sizing): string -> real
  {
    (t: string) => if s.weight(t) > 0.0 then s.headroom(t) else 0.0
  }

  /** As much is deployed as there is cash or room for, within the tolerances. */
  predicate Deployed(s: Sizing, tol: Tolerance, m: Dollars)
  {
    var most := Min(s.investable, SumBy(s.tickers, WeightedHeadroom(s)));
    most - tol.cash - Amount(|s.tickers| as real, tol.cap) <= Total(s, m) <= most
  }

  /** No positive weight is so small that its share of the cash the loop still counts looks like nothing. */
  predicate Discernible(s: Sizing, tol: Tolerance)
  {
    forall t :: t in s.tickers && s.weight(t) > 0.0 ==> tol.cap <= Amount(s.weight(t), tol.cash)
  }

  /** The state between passes. */
  ghost predicate Between(s: Sizing, b: Basket, remaining: real, open: set<string>)
  {
    && (forall t :: t in s.tickers ==> WithinHeadroom(s, b.allocation, t))
    && (forall sector :: Tracked(s, b, sector))
    && Total(s, b.allocation) + remaining == s.investable && 0.0 <= remaining
    && (forall t :: t in open ==> t in s.tickers)
    && b.given == 0.0 && b.capped == {}
  }

  ghost predicate Level(s: Sizing, tol: Tolerance, m: Dollars, open: set<string>, level: real)
  {
    forall t :: t in s.tickers ==> AtLevel(s, tol, m, open, level, t)
  }

  lemma PassKeepsState(s: Sizing, tol: Tolerance, b: Basket, order: seq<string>, open: set<string>, remaining: real)
    requires Proper(s) && Between(s, b, remaining, open) && (forall t :: t in order <==> t in open)
    requires SumBy(order, s.weight) > 0.0
    ensures var c := Pour(s, tol, b, order, remaining, SumBy(order, s.weight));
      Between(s, Basket(c.allocation, c.sectorValue, 0.0, {}), remaining - c.given, open - c.capped)
  {
    var openWeight := SumBy(order, s.weight);
    var c := Pour(s, tol, b, order, remaining, openWeight);
    PourTotals(s, tol, b, order, remaining, openWeight);
    SharesSumToRemaining(s, order, remaining);
    forall t | t in s.tickers ensures WithinHeadroom(s, c.allocation, t) {
      PourKeepsHeadroom(s, tol, b, order, remaining, openWeight, t);
    }
    forall sector ensures Tracked(s, Basket(c.allocation, c.sectorValue, 0.0, {}), sector) {
      PourKeepsSector(s, tol, b, order, remaining, openWeight, sector);
      assert Tracked(s, c, sector);
    }
  }

  /** Either some open name is closed, or nothing is left. */
  lemma PassMakesProgress(s: Sizing, tol: Tolerance, b: Basket, order: seq<string>, open: set<string>, remaining: real)
    requires Proper(s) && NoSectors(s) && 0.0 <= tol.cap && Between(s, b, remaining, open) && (forall t :: t in order <==> t in open)
    requires SumBy(order, s.weight) > 0.0
    ensures var c := Pour(s, tol, b, order, remaining, SumBy(order, s.weight));
      |open - c.capped| < |open| || remaining - c.given == 0.0
  {
    var openWeight := SumBy(order, s.weight);
    var c := Pour(s, tol, b, order, remaining, openWeight);
    if exists t :: t in open && t in c.capped {
      var t :| t in open && t in c.capped;
      assert t in open * c.capped;
    } else {
      PassSpendsAll(s, tol, b, order, remaining, openWeight);
      SharesSumToRemaining(s, order, remaining);
    }
  }

  /** Distinct names other than the i-th are among the rest. */
  lemma AmongTheRest(all: seq<string>, i: nat, t: string)
    requires i < |all| && t in all && t != all[i]
    ensures t in all[..i] + all[i + 1..]
  {
    var j :| 0 <= j < |all| && all[j] == t;
    assert (all[..i] + all[i + 1..])[if j < i then j else j - 1] == t;
  }

  lemma {:induction false} PartAtMostWhole(order: seq<string>, all: seq<string>, f: string -> real)
    requires Distinct(order) && forall t :: t in order ==> t in all
    requires forall t :: t in all ==> 0.0 <= f(t)
    ensures SumBy(order, f) <= SumBy(all, f)
  {
    if order == [] {
      SumByNonnegative(all, f);
    } else {
      var init, last := order[..|order| - 1], order[|order| - 1];
      assert last in order;
      var i :| 0 <= i < |all| && all[i] == last;
      Without(all, i, f);
      forall t | t in init ensures t in all[..i] + all[i + 1..] {
        assert t in order;
        AmongTheRest(all, i, t);
      }
      forall t | t in all[..i] + all[i + 1..] ensures t in all {
      }
      PartAtMostWhole(init, all[..i] + all[i + 1..], f);
    }
  }

  lemma Without(all: seq<string>, i: nat, f: string -> real)
    requires i < |all|
    ensures SumBy(all[..i] + all[i + 1..], f) == SumBy(all, f) - f(all[i])
  {
    var before, after := all[..i], all[i + 1..];
    assert all[i..][1..] == after && all == before + all[i..];
    SumByConcat(before, all[i..], f);
    SumByHead(all[i..], f);
    SumByConcat(before, after, f);
  }

  /** A pass that spends nothing to speak of has closed every name that has weight. */
  lemma NothingSpentMeansClosed(s: Sizing, tol: Tolerance, b: Basket, order: seq<string>, open: set<string>, remaining: real, t: string)
    requires Proper(s) && NoSectors(s) && 0.0 <= tol.cap && 0.0 <= tol.cash && Discernible(s, tol)
    requires Between(s, b, remaining, open) && Distinct(order) && (forall u :: u in order <==> u in open)
    requires SumBy(order, s.weight) > 0.0 && remaining > tol.cash
    requires Pour(s, tol, b, order, remaining, SumBy(order, s.weight)).given <= tol.cap
    requires t in open && s.weight(t) > 0.0
    ensures t in Pour(s, tol, b, order, remaining, SumBy(order, s.weight)).capped
  {
    var openWeight := SumBy(order, s.weight);
    PartAtMostWhole(order, s.tickers, s.weight);
    if t !in Pour(s, tol, b, order, remaining, openWeight).capped {
      PassSpendsShare(s, tol, b, order, remaining, openWeight, t);
      ShareIsRate(s, remaining, openWeight, t);
      MoreThanTolerance(s.weight(t), remaining, openWeight, tol.cash);
    }
  }

  lemma MoreThanTolerance(weight: real, remaining: real, openWeight: real, cash: real)
    requires 0.0 < weight && 0.0 < openWeight <= 1.0 && 0.0 <= cash < remaining
    ensures Amount(weight, remaining / openWeight) > Amount(weight, cash)
  {
    var rate := remaining / openWeight;
    assert rate * openWeight == remaining;
    assert rate >= remaining by {
      assert rate >= 0.0;
      assert rate * (1.0 - openWeight) >= 0.0;
    }
    assert (rate - cash) * weight > 0.0;
  }

  lemma {:induction false} NamesAtMost(tickers: seq<string>)
    ensures |set t | t in tickers| <= |tickers|
  {
    if tickers != [] {
      var init, last := tickers[..|tickers| - 1], tickers[|tickers| - 1];
      NamesAtMost(init);
      assert tickers == init + [last];
      assert (set t | t in tickers) == (set t | t in init) + {last};
    }
  }

  lemma NothingPouredYet(s: Sizing, tol: Tolerance, m: Dollars)
    requires Proper(s) && 0.0 <= tol.cap && forall t :: Of(m, t) == 0.0
    ensures Between(s, Basket(m, s.sectorBase, 0.0, {}), s.investable, set t | t in s.tickers)
    ensures Level(s, tol, m, set t | t in s.tickers, 0.0)
  {
    SumByZero(s.tickers, In(m));
    forall sector ensures Tracked(s, Basket(m, s.sectorBase, 0.0, {}), sector) {
      SumByZero(s.tickers, InSectorOf(s, m, sector));
    }
    forall t | t in s.tickers ensures AtLevel(s, tol, m, set u | u in s.tickers, 0.0, t) {
      assert Amount(s.weight(t), 0.0) == 0.0;
    }
  }

  lemma PassKeepsLevel(s: Sizing, tol: Tolerance, b: Basket, order: seq<string>, open: set<string>, remaining: real, level: real)
    returns (raised: real)
    requires NoSectors(s) && Proper(s) && 0.0 <= tol.cap && Between(s, b, remaining, open)
    requires Distinct(order) && (forall u :: u in order <==> u in open) && SumBy(order, s.weight) > 0.0
    requires Level(s, tol, b.allocation, open, level)
    ensures var c := Pour(s, tol, b, order, remaining, SumBy(order, s.weight));
      Level(s, tol, c.allocation, open - c.capped, raised)
  {
    raised := level + remaining / SumBy(order, s.weight);
    var c := Pour(s, tol, b, order, remaining, SumBy(order, s.weight));
    forall t | t in s.tickers ensures AtLevel(s, tol, c.allocation, open - c.capped, raised, t) {
      PassRaisesLevel(s, tol, b, order, open, remaining, level, t);
    }
  }

  /** Nothing more can be done: no cash left to speak of, or no open name has weight. */
  predicate Settled(s: Sizing, tol: Tolerance, remaining: real, open: set<string>)
  {
    remaining <= tol.cash || forall t :: t in s.tickers && t in open ==> s.weight(t) == 0.0
  }

  lemma WeightlessOpenNames(s: Sizing, order: seq<string>, open: set<string>)
    requires Proper(s) && (forall u :: u in order <==> u in open) && SumBy(order, s.weight) <= 0.0
    requires forall t :: t in open ==> t in s.tickers
    ensures forall t :: t in s.tickers && t in open ==> s.weight(t) == 0.0
  {
    SumByNonnegative(order, s.weight);
  }

  /** With no sector in play: the water stands level, each pass so far has closed a name unless all is spent, and
      when the loop stops early nothing more can be done. */
  ghost predicate Filling(s: Sizing, tol: Tolerance, m: Dollars, open: set<string>, level: real, remaining: real, passes: nat, done: bool)
  {
    && Level(s, tol, m, open, level)
    && (!done ==> |open| + passes <= |s.tickers| || remaining == 0.0)
    && (done && Discernible(s, tol) ==> Settled(s, tol, remaining, open))
  }

  lemma PassKeepsFilling(s: Sizing, tol: Tolerance, b: Basket, order: seq<string>, open: set<string>, remaining: real, level: real, passes: nat)
    returns (raised: real)
    requires Proper(s) && NoSectors(s) && 0.0 <= tol.cap && 0.0 <= tol.cash && remaining > tol.cash
    requires Between(s, b, remaining, open) && Distinct(order) && (forall u :: u in order <==> u in open)
    requires SumBy(order, s.weight) > 0.0 && Filling(s, tol, b.allocation, open, level, remaining, passes, false)
    ensures var c := Pour(s, tol, b, order, remaining, SumBy(order, s.weight));
      Filling(s, tol, c.allocation, open - c.capped, raised, remaining - c.given, passes + 1, c.given <= tol.cap)
  {
    raised := PassWithoutSectors(s, tol, b, order, open, remaining, level);
  }

  lemma PassWithoutSectors(s: Sizing, tol: Tolerance, b: Basket, order: seq<string>, open: set<string>, remaining: real, level: real)
    returns (raised: real)
    requires Proper(s) && NoSectors(s) && 0.0 <= tol.cap && 0.0 <= tol.cash && remaining > tol.cash
    requires Between(s, b, remaining, open) && Distinct(order) && (forall u :: u in order <==> u in open)
    requires SumBy(order, s.weight) > 0.0
    ensures var c := Pour(s, tol, b, order, remaining, SumBy(order, s.weight));
      && (Level(s, tol, b.allocation, open, level) ==> Level(s, tol, c.allocation, open - c.capped, raised))
      && (|open - c.capped| < |open| || remaining - c.given == 0.0)
      && (Discernible(s, tol) && c.given <= tol.cap ==> Settled(s, tol, remaining - c.given, open - c.capped))
  {
    raised := level;
    PassMakesProgress(s, tol, b, order, open, remaining);
    if Level(s, tol, b.allocation, open, level) {
      raised := PassKeepsLevel(s, tol, b, order, open, remaining, level);
    }
    if Discernible(s, tol) && Pour(s, tol, b, order, remaining, SumBy(order, s.weight)).given <= tol.cap {
      StoppedIsSettled(s, tol, b, order, open, remaining);
    }
  }

  lemma StoppedIsSettled(s: Sizing, tol: Tolerance, b: Basket, order: seq<string>, open: set<string>, remaining: real)
    requires Proper(s) && NoSectors(s) && 0.0 <= tol.cap && 0.0 <= tol.cash && Discernible(s, tol)
    requires Between(s, b, remaining, open) && Distinct(order) && (forall u :: u in order <==> u in open)
    requires SumBy(order, s.weight) > 0.0 && remaining > tol.cash
    requires Pour(s, tol, b, order, remaining, SumBy(order, s.weight)).given <= tol.cap
    ensures var c := Pour(s, tol, b, order, remaining, SumBy(order, s.weight));
      Settled(s, tol, remaining - c.given, open - c.capped)
  {
    var c := Pour(s, tol, b, order, remaining, SumBy(order, s.weight));
    forall t | t in s.tickers && t in open - c.capped ensures s.weight(t) == 0.0 {
      if s.weight(t) > 0.0 {
        NothingSpentMeansClosed(s, tol, b, order, open, remaining, t);
      }
    }
  }

  /** What holds before and after every pass. */
  ghost predicate Pouring(s: Sizing, tol: Tolerance, b: Basket, remaining: real, open: set<string>, level: real, passes: nat, done: bool)
  {
    Between(s, b, remaining, open) && (NoSectors(s) ==> Filling(s, tol, b.allocation, open, level, remaining, passes, done))
  }

  lemma PassKeepsPouring(s: Sizing, tol: Tolerance, b: Basket, order: seq<string>, open: set<string>, remaining: real, level: real, passes: nat)
    returns (raised: real)
    requires Proper(s) && 0.0 <= tol.cap && 0.0 <= tol.cash && remaining > tol.cash
    requires Distinct(order) && (forall u :: u in order <==> u in open) && SumBy(order, s.weight) > 0.0
    requires Pouring(s, tol, b, remaining, open, level, passes, false)
    ensures var c := Pour(s, tol, b, order, remaining, SumBy(order, s.weight));
      Pouring(s, tol, Basket(c.allocation, c.sectorValue, 0.0, {}), remaining - c.given, open - c.capped,
              raised, passes + 1, c.given <= tol.cap)
  {
    raised := level;
    PassKeepsState(s, tol, b, order, open, remaining);
    if NoSectors(s) {
      raised := PassKeepsFilling(s, tol, b, order, open, remaining, level, passes);
    }
  }

  lemma NoWeightIsSettled(s: Sizing, tol: Tolerance, b: Basket, order: seq<string>, open: set<string>, remaining: real, level: real, passes: nat)
    requires Proper(s) && (forall u :: u in order <==> u in open) && SumBy(order, s.weight) <= 0.0
    requires Pouring(s, tol, b, remaining, open, level, passes, false)
    ensures Pouring(s, tol, b, remaining, open, level, passes + 1, true)
  {
    WeightlessOpenNames(s, order, open);
  }

  lemma StartsPouring(s: Sizing, tol: Tolerance, start: Dollars)
    requires Proper(s) && 0.0 <= tol.cap && forall t :: Of(start, t) == 0.0
    ensures Pouring(s, tol, Basket(start, s.sectorBase, 0.0, {}), s.investable, set t | t in s.tickers, 0.0, 0, false)
  {
    NothingPouredYet(s, tol, start);
    NamesAtMost(s.tickers);
  }

  /** The state after this many passes, at some level. */
  ghost predicate Stands(s: Sizing, tol: Tolerance, b: Basket, remaining: real, open: set<string>, passes: nat, done: bool)
  {
    exists level :: Pouring(s, tol, b, remaining, open, level, passes, done)
  }

  /** One pass over whatever is open, in whatever order the set is listed. */
  method Pass(s: Sizing, tol: Tolerance, b: Basket, remaining: real, open: set<string>, passes: nat)
    returns (after: Basket, left: real, still: set<string>, done: bool)
    requires Proper(s) && 0.0 <= tol.cap && 0.0 <= tol.cash && remaining > tol.cash
    requires Stands(s, tol, b, remaining, open, passes, false)
    ensures Stands(s, tol, after, left, still, passes + 1, done)
  {
    ghost var level :| Pouring(s, tol, b, remaining, open, level, passes, false);
    var order := Listed(open);
    var openWeight := WeightOf(s, order);
    if openWeight <= 0.0 {
      NoWeightIsSettled(s, tol, b, order, open, remaining, level, passes);
      return b, remaining, open, true;
    }
    var poured := PourPass(s, tol, b, order, remaining, openWeight);
    ghost var raised := PassKeepsPouring(s, tol, b, order, open, remaining, level, passes);
    after, left, still := Basket(poured.allocation, poured.sectorValue, 0.0, {}), remaining - poured.given, open - poured.capped;
    done := poured.given <= tol.cap;
    assert Pouring(s, tol, after, left, still, raised, passes + 1, done);
  }

  /** The loop: at most six passes, stopping early when no cash, no open name or no progress is left. */
  method PourAll(s: Sizing, tol: Tolerance, start: Dollars) returns (b: Basket, remaining: real, open: set<string>, passes: nat, done: bool)
    requires Proper(s) && 0.0 <= tol.cap && 0.0 <= tol.cash && forall t :: Of(start, t) == 0.0
    ensures Stands(s, tol, b, remaining, open, passes, done)
    ensures done || remaining <= tol.cash || open == {} || passes == PASSES
  {
    StartsPouring(s, tol, start);
    b, remaining, open, done := Basket(start, s.sectorBase, 0.0, {}), s.investable, set t | t in s.tickers, false;
    passes := 0;
    assert Pouring(s, tol, b, remaining, open, 0.0, passes, done);
    while passes < PASSES && remaining > tol.cash && open != {} && !done
      invariant passes <= PASSES
      invariant Stands(s, tol, b, remaining, open, passes, done)
      decreases PASSES - passes
    {
      b, remaining, open, done := Pass(s, tol, b, remaining, open, passes);
      passes := passes + 1;
    }
  }

  lemma BetweenIsFeasible(s: Sizing, b: Basket, remaining: real, open: set<string>)
    requires Between(s, b, remaining, open)
    ensures Feasible(s, b.allocation)
  {
    forall sector ensures WithinSector(s, b.allocation, sector) {
      assert Tracked(s, b, sector);
    }
  }

  /** Pour the cash. Whatever order names are visited in, every limit is kept; with no sector in play every name
      stands at one level or at its cap; and six passes deploy all there is cash or room for among six names. */
  method Distribute(s: Sizing, tol: Tolerance) returns (allocation: Dollars)
    requires Proper(s) && 0.0 <= tol.cap && 0.0 <= tol.cash
    ensures Feasible(s, allocation)
    ensures NoSectors(s) ==> exists level :: WaterFilled(s, tol, allocation, level)
    ensures NoSectors(s) && Discernible(s, tol) && |s.tickers| <= PASSES ==> Deployed(s, tol, allocation)
  {
    var b, remaining, open, passes, done := PourAll(s, tol, map t | t in s.tickers :: 0.0);
    ghost var level :| Pouring(s, tol, b, remaining, open, level, passes, done);
    allocation := b.allocation;
    BetweenIsFeasible(s, b, remaining, open);
    if NoSectors(s) {
      LevelMeansFilled(s, tol, allocation, open, level);
      if Discernible(s, tol) && |s.tickers| <= PASSES {
        SettledMeansDeployed(s, tol, b, remaining, open, level);
      }
    }
  }

  lemma LevelMeansFilled(s: Sizing, tol: Tolerance, m: Dollars, open: set<string>, level: real)
    requires Level(s, tol, m, open, level) && 0.0 <= tol.cap
    ensures WaterFilled(s, tol, m, level)
  {
    forall t | t in s.tickers ensures Target(s, level, t) - tol.cap <= Of(m, t) <= Target(s, level, t) {
      assert AtLevel(s, tol, m, open, level, t);
    }
  }

  function WithSlack(s: Sizing, m: Dollars, slack: real): string -> real
  {
    (t: string) => Of(m, t) + slack
  }

  lemma {:induction false} SlackAddsUp(s: Sizing, tickers: seq<string>, m: Dollars, slack: real)
    ensures SumBy(tickers, WithSlack(s, m, slack)) == SumBy(tickers, In(m)) + Amount(|tickers| as real, slack)
  {
    if tickers != [] {
      var n := |tickers| - 1;
      SlackAddsUp(s, tickers[..n], m, slack);
      AmountAdds(n as real, 1.0, slack);
    } else {
      assert Amount(0.0, slack) == 0.0;
    }
  }

  lemma SettledMeansDeployed(s: Sizing, tol: Tolerance, b: Basket, remaining: real, open: set<string>, level: real)
    requires Proper(s) && 0.0 <= tol.cap && 0.0 <= tol.cash
    requires Between(s, b, remaining, open) && Level(s, tol, b.allocation, open, level) && Settled(s, tol, remaining, open)
    ensures Deployed(s, tol, b.allocation)
  {
    var m := b.allocation;
    forall t | t in s.tickers ensures Of(m, t) <= WeightedHeadroom(s)(t) {
      assert WithinHeadroom(s, m, t) && AtLevel(s, tol, m, open, level, t);
      assert s.weight(t) == 0.0 ==> Amount(s.weight(t), level) == 0.0;
    }
    SumByAtMost(s.tickers, In(m), WeightedHeadroom(s));
    ProductNotNegative(|s.tickers| as real, tol.cap);
    if remaining > tol.cash {
      forall t | t in s.tickers ensures WeightedHeadroom(s)(t) <= WithSlack(s, m, tol.cap)(t) {
        assert WithinHeadroom(s, m, t) && AtLevel(s, tol, m, open, level, t);
      }
      SumByAtMost(s.tickers, WeightedHeadroom(s), WithSlack(s, m, tol.cap));
      SlackAddsUp(s, s.tickers, m, tol.cap);
    }
  }

  /** Exactly filled allocations that deploy the same cash are the same: the outcome does not depend on the
      order in which a set happens to be listed. */
  lemma OrderDoesNotMatter(s: Sizing, m: Dollars, n: Dollars, lower: real, upper: real)
    requires Proper(s) && lower <= upper
    requires WaterFilled(s, NO_TOLERANCE, m, lower) && WaterFilled(s, NO_TOLERANCE, n, upper)
    requires Total(s, m) == Total(s, n)
    ensures forall t :: t in s.tickers ==> Of(m, t) == Of(n, t)
  {
    var gap := (t: string) => Of(n, t) - Of(m, t);
    forall t | t in s.tickers ensures 0.0 <= gap(t) {
      RateSplits(s, t, lower, upper - lower);
      assert Amount(s.weight(t), lower + (upper - lower)) == Amount(s.weight(t), upper);
    }
    SumByDifference(s.tickers, gap, In(n), In(m));
    SumByNonnegative(s.tickers, gap);
  }

  /** With no tolerance, filled means each name has the lesser of its headroom and its weight's worth, and
      deployed means all of the cash, or all of the room. */
  lemma ExactlyFilled(s: Sizing, m: Dollars, level: real)
    requires WaterFilled(s, NO_TOLERANCE, m, level) && Deployed(s, NO_TOLERANCE, m)
    ensures forall t :: t in s.tickers ==> Of(m, t) == Min(s.headroom(t), Amount(s.weight(t), level))
    ensures Total(s, m) == Min(s.investable, SumBy(s.tickers, WeightedHeadroom(s)))
  {
    assert Amount(|s.tickers| as real, 0.0) == 0.0;
  }

  // --- From the portfolio ------------------------------------------------------------------------------

  function ConfidenceOf(cs: seq<Candidate>, t: string): real
  {
    if cs == [] then 0.0
    else if cs[|cs| - 1].ticker == t then Max(cs[|cs| - 1].confidence, 0.0)
    else ConfidenceOf(cs[..|cs| - 1], t)
  }

  function SectorIn(cs: seq<Candidate>, t: string): Option<string>
  {
    if cs == [] then None
    else if cs[|cs| - 1].ticker == t then cs[|cs| - 1].sector
    else SectorIn(cs[..|cs| - 1], t)
  }

  function Tickers(cs: seq<Candidate>): seq<string>
  {
    if cs == [] then [] else Tickers(cs[..|cs| - 1]) + [cs[|cs| - 1].ticker]
  }

  function Confidence(cs: seq<Candidate>): string -> real
  {
    (t: string) => ConfidenceOf(cs, t)
  }

  /** Share of the confidence, or an equal share when nothing has any. */
  function Weights(cs: seq<Candidate>): string -> real
    requires cs != []
  {
    var total := SumBy(Tickers(cs), Confidence(cs));
    if total > 0.0 then (t: string) => ConfidenceOf(cs, t) / total
    else (t: string) => 1.0 / |cs| as real
  }

  function Investable(v: View, p: Policy): real
  {
    Max(0.0, Min(Cash(v) - Amount(p.minCash, TotalValue(v)), SpendableCash(v)))
  }

  function SectorsHeld(v: View): Dollars
  {
    map sector | sector in FirstSeen(SectorKeys(v.holdings)) :: SectorValue(v, sector)
  }

  function SizingFor(cs: seq<Candidate>, v: View, p: Policy): Sizing
    requires cs != []
  {
    Sizing(Tickers(cs), Weights(cs),
           (t: string) => Max(0.0, Amount(p.maxPosition, TotalValue(v)) - SymbolValue(v, t)),
           (t: string) => SectorIn(cs, t),
           SectorsHeld(v), InvestedValue(v), p.maxSector, Investable(v, p))
  }

  lemma {:induction false} TickersCount(cs: seq<Candidate>)
    ensures |Tickers(cs)| == |cs|
  {
    if cs != [] {
      TickersCount(cs[..|cs| - 1]);
    }
  }

  lemma {:induction false} ConfidenceNonnegative(cs: seq<Candidate>, t: string)
    ensures 0.0 <= ConfidenceOf(cs, t)
  {
    if cs != [] {
      ConfidenceNonnegative(cs[..|cs| - 1], t);
    }
  }

  lemma DividesByTotal(cs: seq<Candidate>, total: real, t: string)
    requires total > 0.0
    ensures ConfidenceOf(cs, t) / total == Amount(ConfidenceOf(cs, t), 1.0 / total)
    ensures 0.0 <= ConfidenceOf(cs, t) / total
  {
    ConfidenceNonnegative(cs, t);
    assert ConfidenceOf(cs, t) / total == ConfidenceOf(cs, t) * (1.0 / total);
    ProductNotNegative(ConfidenceOf(cs, t), 1.0 / total);
  }

  lemma {:induction false} EqualShares(tickers: seq<string>, f: string -> real, x: real)
    requires forall t :: f(t) == x
    ensures SumBy(tickers, f) == Amount(|tickers| as real, x)
  {
    if tickers != [] {
      EqualShares(tickers[..|tickers| - 1], f, x);
      AmountAdds((|tickers| - 1) as real, 1.0, x);
    } else {
      assert Amount(0.0, x) == 0.0;
    }
  }

  lemma ConfidenceShares(cs: seq<Candidate>)
    requires cs != [] && SumBy(Tickers(cs), Confidence(cs)) > 0.0
    ensures SumBy(Tickers(cs), Weights(cs)) == 1.0
    ensures forall t :: 0.0 <= Weights(cs)(t)
  {
    var total := SumBy(Tickers(cs), Confidence(cs));
    forall t ensures Weights(cs)(t) == Amount(Confidence(cs)(t), 1.0 / total) && 0.0 <= Weights(cs)(t) {
      DividesByTotal(cs, total, t);
    }
    SumByScaled(Tickers(cs), Weights(cs), Confidence(cs), 1.0 / total);
    PartsOfOne(total);
  }

  lemma PartsOfOne(total: real)
    requires total > 0.0
    ensures Amount(total, 1.0 / total) == 1.0
  {
  }

  /** Weights are shares of one. */
  lemma WeightsSumToOne(cs: seq<Candidate>)
    requires cs != []
    ensures SumBy(Tickers(cs), Weights(cs)) == 1.0
    ensures forall t :: 0.0 <= Weights(cs)(t)
  {
    if SumBy(Tickers(cs), Confidence(cs)) > 0.0 {
      ConfidenceShares(cs);
    } else {
      TickersCount(cs);
      EqualShares(Tickers(cs), Weights(cs), 1.0 / |cs| as real);
      PartsOfOne(|cs| as real);
    }
  }

  lemma SizingIsProper(cs: seq<Candidate>, v: View, p: Policy)
    requires cs != [] && Distinct(Tickers(cs)) && 0.0 <= p.maxSector
    ensures Proper(SizingFor(cs, v, p)) && |SizingFor(cs, v, p).tickers| == |cs|
  {
    WeightsSumToOne(cs);
    TickersCount(cs);
    var s := SizingFor(cs, v, p);
    assert s.weight == Weights(cs) && s.tickers == Tickers(cs);
    forall t | t in s.tickers ensures 0.0 <= s.headroom(t) && 0.0 <= s.weight(t) {
      assert 0.0 <= Weights(cs)(t);
    }
  }

  lemma NothingIsFeasible(s: Sizing, tol: Tolerance, m: Dollars)
    requires Proper(s) && 0.0 <= tol.cap && forall t :: Of(m, t) == 0.0
    ensures Feasible(s, m) && Total(s, m) == 0.0
  {
    NothingPouredYet(s, tol, m);
    forall sector ensures WithinSector(s, m, sector) {
      assert Tracked(s, Basket(m, s.sectorBase, 0.0, {}), sector);
    }
  }

  /** What is spent leaves the cash floor in place and comes out of spendable cash. */
  predicate KeepsFloor(v: View, p: Policy, spent: real)
  {
    0.0 <= spent && (spent > 0.0 ==> Cash(v) - spent >= Amount(p.minCash, TotalValue(v)) && spent <= SpendableCash(v))
  }

  lemma FeasibleKeepsFloor(cs: seq<Candidate>, v: View, p: Policy, m: Dollars)
    requires cs != [] && Feasible(SizingFor(cs, v, p), m)
    ensures KeepsFloor(v, p, Total(SizingFor(cs, v, p), m))
  {
    var s := SizingFor(cs, v, p);
    forall t | t in s.tickers ensures 0.0 <= In(m)(t) {
      assert WithinHeadroom(s, m, t);
    }
    SumByNonnegative(s.tickers, In(m));
  }

  /** Enough to invest for the loop to run. */
  predicate WorthSizing(v: View, p: Policy)
  {
    TotalValue(v) > 0.0 && Investable(v, p) >= p.minNotional
  }

  /** Size the approved candidates. Nothing is allocated when there is too little to invest; otherwise no name
      passes its headroom, the policy's cash floor is kept, and no sector that receives money passes its limit. */
  method ComputeAllocations(cs: seq<Candidate>, v: View, p: Policy, tol: Tolerance) returns (allocation: Dollars)
    requires Distinct(Tickers(cs)) && 0.0 <= p.maxSector && 0.0 <= tol.cap && 0.0 <= tol.cash
    ensures cs != [] ==> Feasible(SizingFor(cs, v, p), allocation)
    ensures cs != [] ==> KeepsFloor(v, p, Total(SizingFor(cs, v, p), allocation))
    ensures cs != [] && WorthSizing(v, p) && NoSectors(SizingFor(cs, v, p)) ==>
      exists level :: WaterFilled(SizingFor(cs, v, p), tol, allocation, level)
    ensures cs != [] && WorthSizing(v, p) && NoSectors(SizingFor(cs, v, p)) && Discernible(SizingFor(cs, v, p), tol) && |cs| <= PASSES ==>
      Deployed(SizingFor(cs, v, p), tol, allocation)
  {
    allocation := map t | t in Tickers(cs) :: 0.0;
    if cs == [] {
      return;
    }
    var s := SizingFor(cs, v, p);
    SizingIsProper(cs, v, p);
    if !WorthSizing(v, p) {
      NothingIsFeasible(s, tol, allocation);
      return;
    }
    allocation := Distribute(s, tol);
    FeasibleKeepsFloor(cs, v, p, allocation);
  }
}
