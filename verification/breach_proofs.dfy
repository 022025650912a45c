/** What counts as a breach, and what a trim does and does not cure. */
module BreachProofs {
  import opened Wrappers
  import opened Sums
  import opened Ordering
  import opened TaxLots
  import opened Books
  import opened Portfolio
  import BuyProofs

  /** Over its limit, by this much to the cent. */
  predicate OverPosition(v: View, p: Policy, s: string, x: real)
    requires TotalValue(v) > 0.0
  {
    var weight := Weight(SymbolValue(v, s), TotalValue(v));
    weight > p.maxPosition && x == ExcessDollars(weight, p.maxPosition, TotalValue(v))
  }

  predicate OverSector(v: View, p: Policy, s: string, x: real)
    requires InvestedValue(v) > 0.0
  {
    var weight := Weight(SectorValue(v, s), InvestedValue(v));
    s != UNCLASSIFIED && weight > p.maxSector && x == ExcessDollars(weight, p.maxSector, InvestedValue(v))
  }

  lemma {:induction false} PositionBreachesAre(v: View, p: Policy, symbols: seq<string>, s: string, x: real)
    requires TotalValue(v) > 0.0
    ensures PositionBreach(s, x) in PositionBreaches(v, p, symbols) <==> s in symbols && OverPosition(v, p, s, x)
    ensures SectorBreach(s, x) !in PositionBreaches(v, p, symbols)
  {
    if symbols != [] {
      PositionBreachesAre(v, p, symbols[..|symbols| - 1], s, x);
      assert symbols == symbols[..|symbols| - 1] + [symbols[|symbols| - 1]];
    }
  }

  lemma {:induction false} SectorBreachesAre(v: View, p: Policy, sectors: seq<string>, s: string, x: real)
    requires InvestedValue(v) > 0.0
    ensures SectorBreach(s, x) in SectorBreaches(v, p, sectors) <==> s in sectors && OverSector(v, p, s, x)
    ensures PositionBreach(s, x) !in SectorBreaches(v, p, sectors)
  {
    if sectors != [] {
      SectorBreachesAre(v, p, sectors[..|sectors| - 1], s, x);
      assert sectors == sectors[..|sectors| - 1] + [sectors[|sectors| - 1]];
    }
  }

  /** Dollars of a value above a fraction of a total. */
  function Over(value: real, limit: real, total: real): real
  {
    value - Amount(limit, total)
  }

  lemma WeightAbove(value: real, total: real, limit: real)
    requires total > 0.0
    ensures Weight(value, total) > limit <==> Over(value, limit, total) > 0.0
    ensures ExcessDollars(Weight(value, total), limit, total) == Cents(Over(value, limit, total))
  {
    WithinQuotient(limit, total, Weight(value, total));
    SameExcess(Weight(value, total), value, total, limit);
  }

  lemma SameExcess(weight: real, value: real, total: real, limit: real)
    requires weight * total == value
    ensures ExcessDollars(weight, limit, total) == Cents(Over(value, limit, total))
  {
    SameCents((weight - limit) * total, Over(value, limit, total));
  }

  lemma SameCents(x: real, y: real)
    requires x == y
    ensures Cents(x) == Cents(y)
  {
  }

  lemma {:induction false} SymbolsAre(hs: seq<Holding>, s: string)
    ensures s in Symbols(hs) <==> exists h :: h in hs && h.symbol == s
  {
    if hs != [] {
      var init, last := hs[..|hs| - 1], hs[|hs| - 1];
      SymbolsAre(init, s);
      assert hs == init + [last];
      if exists h :: h in init && h.symbol == s {
        var h :| h in init && h.symbol == s;
        assert h in hs;
      }
      assert last in hs;
    }
  }

  lemma {:induction false} SectorKeysAre(hs: seq<Holding>, s: string)
    ensures s in SectorKeys(hs) <==> exists h :: h in hs && InSector(h, s)
  {
    if hs != [] {
      var init, last := hs[..|hs| - 1], hs[|hs| - 1];
      SectorKeysAre(init, s);
      assert hs == init + [last];
      if exists h :: h in init && InSector(h, s) {
        var h :| h in init && InSector(h, s);
        assert h in hs;
      }
      assert last in hs;
    }
  }

  /** A symbol is reported exactly when it is held and worth more than its limit of the whole portfolio, and the
      excess reported is what is over the limit, to the cent. */
  lemma PositionBreachExactly(v: View, p: Policy, s: string, x: real)
    requires TotalValue(v) > 0.0
    ensures PositionBreach(s, x) in ConcentrationBreaches(v, p)
       <==> (exists h :: h in v.holdings && h.symbol == s)
            && Over(SymbolValue(v, s), p.maxPosition, TotalValue(v)) > 0.0
            && x == Cents(Over(SymbolValue(v, s), p.maxPosition, TotalValue(v)))
  {
    BreachMembers(v, p, PositionBreach(s, x));
    PositionBreachesAre(v, p, FirstSeen(Symbols(v.holdings)), s, x);
    SymbolsAre(v.holdings, s);
    WeightAbove(SymbolValue(v, s), TotalValue(v), p.maxPosition);
    if InvestedValue(v) > 0.0 {
      SectorBreachesAre(v, p, FirstSeen(SectorKeys(v.holdings)), s, x);
    }
  }

  /** A sector is reported exactly when some holding is in it, it is known, and it is worth more than its limit of what
      is invested; broad funds are in no sector. */
  lemma SectorBreachExactly(v: View, p: Policy, s: string, x: real)
    requires TotalValue(v) > 0.0 && InvestedValue(v) > 0.0
    ensures SectorBreach(s, x) in ConcentrationBreaches(v, p)
       <==> (exists h :: h in v.holdings && InSector(h, s)) && s != UNCLASSIFIED
            && Over(SectorValue(v, s), p.maxSector, InvestedValue(v)) > 0.0
            && x == Cents(Over(SectorValue(v, s), p.maxSector, InvestedValue(v)))
  {
    BreachMembers(v, p, SectorBreach(s, x));
    PositionBreachesAre(v, p, FirstSeen(Symbols(v.holdings)), s, x);
    SectorBreachesAre(v, p, FirstSeen(SectorKeys(v.holdings)), s, x);
    SectorKeysAre(v.holdings, s);
    WeightAbove(SectorValue(v, s), InvestedValue(v), p.maxSector);
  }

  lemma BreachMembers(v: View, p: Policy, b: Breach)
    requires TotalValue(v) > 0.0
    ensures b in ConcentrationBreaches(v, p)
       <==> b in PositionBreaches(v, p, FirstSeen(Symbols(v.holdings)))
            || (InvestedValue(v) > 0.0 && b in SectorBreaches(v, p, FirstSeen(SectorKeys(v.holdings))))
  {
    var positions := PositionBreaches(v, p, FirstSeen(Symbols(v.holdings)));
    var sectors := if InvestedValue(v) <= 0.0 then [] else SectorBreaches(v, p, FirstSeen(SectorKeys(v.holdings)));
    StableSortSpec(positions + sectors, LargestFirst);
  }

  /** Selling from a position leaves the portfolio's value as it was, so a trim cures a position breach exactly when it
      sells at least what is over the limit. */
  lemma TrimCuresPositionExactly(value: real, total: real, limit: real, sold: real)
    requires total > 0.0
    ensures Weight(value - sold, total) <= limit <==> sold >= Over(value, limit, total)
  {
    WeightAbove(value - sold, total, limit);
  }

  /** Selling from a sector shrinks what is invested as well, so a trim cures a sector breach exactly when it sells the
      excess grossed up by the rest of the portfolio's share. */
  lemma TrimCuresSectorExactly(value: real, invested: real, limit: real, sold: real)
    requires 0.0 <= limit < 1.0 && sold < invested
    ensures Weight(value - sold, invested - sold) <= limit <==> Amount(sold, 1.0 - limit) >= Over(value, limit, invested)
  {
    WeightAbove(value - sold, invested - sold, limit);
    AmountAdds(invested, sold, limit);
    BuyProofs.Commutes(limit, invested - sold);
    BuyProofs.Commutes(limit, invested);
    assert Amount(sold, 1.0 - limit) == sold - Amount(sold, limit);
  }

  /** The same holdings after sales from one sector, worth `x` dollars in all; what is sold becomes cash. */
  predicate TrimmedBy(v: View, after: View, sector: string, x: real)
  {
    && |after.holdings| == |v.holdings|
    && (forall i :: 0 <= i < |v.holdings| ==> SoldFrom(v.holdings[i], after.holdings[i], sector))
    && SectorValue(after, sector) == SectorValue(v, sector) - x
    && TotalValue(after) == TotalValue(v)
  }

  predicate SoldFrom(before: Holding, after: Holding, sector: string)
  {
    && after.symbol == before.symbol && after.sector == before.sector && after.fund == before.fund
    && (!InSector(before, sector) ==> after.marketValue == before.marketValue)
  }

  lemma {:induction false} InvestedFalls(hs: seq<Holding>, after: seq<Holding>, sector: string)
    requires |after| == |hs| && forall i :: 0 <= i < |hs| ==> SoldFrom(hs[i], after[i], sector)
    ensures SumBy(hs, MarketValue) - SumBy(after, MarketValue) == SumBy(hs, ValueOfSector(sector)) - SumBy(after, ValueOfSector(sector))
    ensures (exists h :: h in hs && InSector(h, sector)) <==> (exists h :: h in after && InSector(h, sector))
  {
    if hs != [] {
      var n := |hs| - 1;
      InvestedFalls(hs[..n], after[..n], sector);
      assert SoldFrom(hs[n], after[n], sector);
      assert hs == hs[..n] + [hs[n]] && after == after[..n] + [after[n]];
    }
  }

  /** A reported sector is still over its limit after sales of `sold` dollars from it exactly when the part of the sale its
      own limit claims back is more than what was sold beyond the excess. */
  lemma StillOver(value: real, invested: real, limit: real, sold: real, valueLeft: real, investedLeft: real)
    requires valueLeft == value - sold && investedLeft == invested - sold
    ensures Over(valueLeft, limit, investedLeft) > 0.0 <==> sold - Over(value, limit, invested) < Amount(sold, limit)
  {
    assert limit * investedLeft == limit * invested - sold * limit;
  }

  /** Selling just the excess that is reported for a sector cures its breach exactly when everything is sold, or rounding
      the excess to cents added at least what the sale itself takes off the limit. */
  lemma ReportedTrimCuresExactly(v: View, after: View, p: Policy, sector: string, x: real)
    requires TotalValue(v) > 0.0 && InvestedValue(v) > 0.0
    requires SectorBreach(sector, x) in ConcentrationBreaches(v, p) && TrimmedBy(v, after, sector, x)
    ensures (forall y :: SectorBreach(sector, y) !in ConcentrationBreaches(after, p))
       <==> x >= InvestedValue(v)
            || x - Over(SectorValue(v, sector), p.maxSector, InvestedValue(v)) >= Amount(x, p.maxSector)
  {
    InvestedFalls(v.holdings, after.holdings, sector);
    SectorBreachExactly(v, p, sector, x);
    if x < InvestedValue(v) {
      StillOver(SectorValue(v, sector), InvestedValue(v), p.maxSector, x, SectorValue(after, sector), InvestedValue(after));
      SectorIsReported(after, p, sector);
    } else {
      NothingInvested(after, p, sector);
    }
  }

  lemma SectorIsReported(v: View, p: Policy, sector: string)
    requires TotalValue(v) > 0.0 && InvestedValue(v) > 0.0
    ensures (exists y :: SectorBreach(sector, y) in ConcentrationBreaches(v, p))
       <==> (exists h :: h in v.holdings && InSector(h, sector)) && sector != UNCLASSIFIED
            && Over(SectorValue(v, sector), p.maxSector, InvestedValue(v)) > 0.0
  {
    var y := Cents(Over(SectorValue(v, sector), p.maxSector, InvestedValue(v)));
    SectorBreachExactly(v, p, sector, y);
    forall z | SectorBreach(sector, z) in ConcentrationBreaches(v, p) ensures z == y {
      SectorBreachExactly(v, p, sector, z);
    }
  }

  lemma NothingInvested(v: View, p: Policy, sector: string)
    requires TotalValue(v) > 0.0 && InvestedValue(v) <= 0.0
    ensures forall y :: SectorBreach(sector, y) !in ConcentrationBreaches(v, p)
  {
    forall y ensures SectorBreach(sector, y) !in ConcentrationBreaches(v, p) {
      BreachMembers(v, p, SectorBreach(sector, y));
      PositionBreachesAre(v, p, FirstSeen(Symbols(v.holdings)), sector, y);
    }
  }

  lemma CentsAreNear(x: real)
    ensures -0.005 < Cents(x) - x <= 0.005
  {
  }

  /** So selling the reported excess leaves the breach standing whenever the sector's limit of the sale is more than half a
      cent: always, but for excesses of a few cents. */
  lemma ReportedExcessFallsShort(v: View, after: View, p: Policy, sector: string, x: real)
    requires TotalValue(v) > 0.0 && InvestedValue(v) > 0.0 && x < InvestedValue(v)
    requires SectorBreach(sector, x) in ConcentrationBreaches(v, p) && TrimmedBy(v, after, sector, x)
    requires Amount(x, p.maxSector) > 0.005
    ensures exists y :: SectorBreach(sector, y) in ConcentrationBreaches(after, p)
  {
    SectorBreachExactly(v, p, sector, x);
    CentsAreNear(Over(SectorValue(v, sector), p.maxSector, InvestedValue(v)));
    ReportedTrimCuresExactly(v, after, p, sector, x);
  }

  /** A few cents can be cured: six tenths of a cent over one per cent of 50 are reported as a cent, and selling a cent is enough. */
  lemma RoundedCentCures(v: View, p: Policy, sector: string)
    requires TotalValue(v) > 0.0 && InvestedValue(v) == 50.0 && p.maxSector == 0.01 && sector != UNCLASSIFIED
    requires SectorValue(v, sector) == 0.506 && exists h :: h in v.holdings && InSector(h, sector)
    ensures SectorBreach(sector, 0.01) in ConcentrationBreaches(v, p)
    ensures forall after, y :: TrimmedBy(v, after, sector, 0.01) ==> SectorBreach(sector, y) !in ConcentrationBreaches(after, p)
  {
    assert Over(0.506, 0.01, 50.0) == 0.006 && Cents(0.006) == 0.01;
    SectorBreachExactly(v, p, sector, 0.01);
    forall after, y | TrimmedBy(v, after, sector, 0.01) ensures SectorBreach(sector, y) !in ConcentrationBreaches(after, p) {
      ReportedTrimCuresExactly(v, after, p, sector, 0.01);
    }
  }
}
