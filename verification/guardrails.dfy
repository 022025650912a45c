/** The guardrail gate and its retry loop: what is rejected once is never proposed again, and never bought.

    Tickers and messages are ASCII strings. */
module Guardrails {
  import opened Wrappers
  import opened Sums
  import opened Ordering
  import opened TaxLots
  import opened Books
  import opened PlanExecution
  import opened Portfolio
  import opened Rebalance
  import opened TrimProofs
  import opened BuyProofs
  import opened MergeProofs
  import opened PlanProofs

  const MAX_RESEARCH_ATTEMPTS: nat := 3
  const LONGEST_TICKER: nat := 12

  // --- Reading the leading ticker of a rejection ------------------------------------------------

  function UpTo(s: string, stop: char): string
  {
    if s == [] || s[0] == stop then [] else [s[0]] + UpTo(s[1..], stop)
  }

  predicate Blank(c: char)
  {
    c == ' ' || c == '\t' || c == '\n' || c == '\r'
  }

  function TrimLeft(s: string): string
  {
    if s != [] && Blank(s[0]) then TrimLeft(s[1..]) else s
  }

  function TrimRight(s: string): string
  {
    if s != [] && Blank(s[|s| - 1]) then TrimRight(s[..|s| - 1]) else s
  }

  function Head(message: string): string
  {
    TrimRight(TrimLeft(UpTo(message, ':')))
  }

  predicate Alphanumeric(c: char)
  {
    ('a' <= c <= 'z') || ('A' <= c <= 'Z') || ('0' <= c <= '9')
  }

  function UpperChar(c: char): char
  {
    if 'a' <= c <= 'z' then ((c as int) - 32) as char else c
  }

  function Upper(s: string): (r: string)
    ensures |r| == |s| && forall i :: 0 <= i < |s| ==> r[i] == UpperChar(s[i])
  {
    if s == [] then [] else [UpperChar(s[0])] + Upper(s[1..])
  }

  /** Letters and digits once dots and dashes are set aside, with at least one of them. */
  predicate TickerChars(s: string)
  {
    && (forall i :: 0 <= i < |s| ==> Alphanumeric(s[i]) || s[i] == '-' || s[i] == '.')
    && (exists i :: 0 <= i < |s| && Alphanumeric(s[i]))
  }

  predicate LooksLikeTicker(head: string)
  {
    && head != []
    && ' ' !in head
    && 1 <= |head| <= LONGEST_TICKER
    && TickerChars(head)
    && Upper(head) == head
  }

  /** The shape every rejection has. */
  function Rejection(ticker: string, why: string): string
  {
    ticker + ": rejected -- " + why
  }

  lemma {:induction false} UpToStops(t: string, rest: string, stop: char)
    requires stop !in t
    ensures UpTo(t + [stop] + rest, stop) == t
  {
    if t == [] {
      assert (t + [stop] + rest)[0] == stop;
    } else {
      assert (t + [stop] + rest)[1..] == t[1..] + [stop] + rest;
      UpToStops(t[1..], rest, stop);
    }
  }

  /** The parse recovers a well-formed ticker from its rejection, whatever the reason says. */
  lemma RejectionNamesItsTicker(ticker: string, why: string)
    requires LooksLikeTicker(ticker)
    ensures Head(Rejection(ticker, why)) == ticker
  {
    forall i | 0 <= i < |ticker| ensures ticker[i] != ':' && !Blank(ticker[i]) {
    }
    assert Rejection(ticker, why) == ticker + [':'] + (" rejected -- " + why);
    UpToStops(ticker, " rejected -- " + why, ':');
  }

  /** A rejection excludes its ticker exactly when the ticker is well formed: a lower-case or overlong one is
      rejected and proposed again. */
  lemma RejectionExcludesExactly(ticker: string, why: string)
    requires ticker != [] && forall i :: 0 <= i < |ticker| ==> ticker[i] != ':' && !Blank(ticker[i])
    ensures ticker in AddHeads([], [Rejection(ticker, why)]) <==> LooksLikeTicker(ticker)
  {
    assert Rejection(ticker, why) == ticker + [':'] + (" rejected -- " + why);
    UpToStops(ticker, " rejected -- " + why, ':');
    assert AddHeads([], [Rejection(ticker, why)][..0]) == [];
  }

  // --- One pass through the gate --------------------------------------------------------------------

  /** The tax assessment: it could not be made, or it flags these tickers. */
  datatype Tax = Unverified | Verified(flags: set<string>)

  predicate TaxBlocks(tax: Tax, ticker: string)
  {
    tax.Unverified? || Upper(ticker) in tax.flags
  }

  function Surviving(approved: seq<string>, tax: Tax): seq<string>
  {
    if approved == [] then []
    else
      var last := approved[|approved| - 1];
      Surviving(approved[..|approved| - 1], tax) + if TaxBlocks(tax, last) then [] else [last]
  }

  function Blocked(approved: seq<string>, tax: Tax): seq<string>
  {
    if approved == [] then []
    else
      var last := approved[|approved| - 1];
      Blocked(approved[..|approved| - 1], tax) + if TaxBlocks(tax, last) then [Upper(last)] else []
  }

  function Add(excluded: seq<string>, ticker: string): seq<string>
  {
    if ticker == [] || ticker in excluded then excluded else excluded + [ticker]
  }

  function AddAll(excluded: seq<string>, tickers: seq<string>): seq<string>
  {
    if tickers == [] then excluded else Add(AddAll(excluded, tickers[..|tickers| - 1]), tickers[|tickers| - 1])
  }

  /** The heads of the messages that look like tickers join the exclusions. */
  function AddHeads(excluded: seq<string>, violations: seq<string>): seq<string>
  {
    if violations == [] then excluded
    else
      var before := AddHeads(excluded, violations[..|violations| - 1]);
      var head := Head(violations[|violations| - 1]);
      if LooksLikeTicker(head) then Add(before, head) else before
  }

  datatype Gate = Gate(surviving: seq<string>, blocked: seq<string>, excluded: seq<string>, attempts: nat, retry: bool)

  function GateOf(excluded: seq<string>, attempts: nat, approved: seq<string>, violations: seq<string>, tax: Tax): Gate
  {
    var surviving := Surviving(approved, tax);
    var retry := surviving == [] && attempts < MAX_RESEARCH_ATTEMPTS;
    Gate(surviving, Blocked(approved, tax), AddHeads(AddAll(excluded, Blocked(approved, tax)), violations),
         if retry then attempts + 1 else attempts, retry)
  }

  method EnforceTax(approved: seq<string>, tax: Tax) returns (surviving: seq<string>, blocked: seq<string>)
    ensures surviving == Surviving(approved, tax) && blocked == Blocked(approved, tax)
  {
    surviving, blocked := [], [];
    for i := 0 to |approved|
      invariant surviving == Surviving(approved[..i], tax) && blocked == Blocked(approved[..i], tax)
    {
      assert approved[..i + 1][..i] == approved[..i];
      if tax.Unverified? || Upper(approved[i]) in tax.flags {
        blocked := blocked + [Upper(approved[i])];
      } else {
        surviving := surviving + [approved[i]];
      }
    }
    assert approved[..|approved|] == approved;
  }

  method Accumulate(before: seq<string>, blocked: seq<string>, violations: seq<string>) returns (excluded: seq<string>)
    ensures excluded == AddHeads(AddAll(before, blocked), violations)
  {
    excluded := before;
    for i := 0 to |blocked|
      invariant excluded == AddAll(before, blocked[..i])
    {
      assert blocked[..i + 1][..i] == blocked[..i];
      if blocked[i] != [] && blocked[i] !in excluded {
        excluded := excluded + [blocked[i]];
      }
    }
    assert blocked[..|blocked|] == blocked;
    for i := 0 to |violations|
      invariant excluded == AddHeads(AddAll(before, blocked), violations[..i])
    {
      assert violations[..i + 1][..i] == violations[..i];
      var head := Head(violations[i]);
      if LooksLikeTicker(head) && head !in excluded {
        excluded := excluded + [head];
      }
    }
    assert violations[..|violations|] == violations;
  }

  /** Reconcile the two guardrails, accumulate exclusions, and route. */
  method GuardrailGate(excluded: seq<string>, attempts: nat, approved: seq<string>, violations: seq<string>, tax: Tax)
    returns (gate: Gate)
    ensures gate == GateOf(excluded, attempts, approved, violations, tax)
  {
    var surviving, blocked := EnforceTax(approved, tax);
    var now := Accumulate(excluded, blocked, violations);
    if surviving != [] || attempts >= MAX_RESEARCH_ATTEMPTS {
      return Gate(surviving, blocked, now, attempts, false);
    }
    gate := Gate(surviving, blocked, now, attempts + 1, true);
  }

  // --- What a pass guarantees -------------------------------------------------------------------------

  lemma {:induction false} SurvivingMembers(approved: seq<string>, tax: Tax)
    ensures forall t :: t in Surviving(approved, tax) <==> t in approved && !TaxBlocks(tax, t)
    ensures forall t :: t in approved && TaxBlocks(tax, t) ==> Upper(t) in Blocked(approved, tax)
  {
    if approved != [] {
      SurvivingMembers(approved[..|approved| - 1], tax);
      assert approved == approved[..|approved| - 1] + [approved[|approved| - 1]];
    }
  }

  lemma {:induction false} AddAllMembers(excluded: seq<string>, tickers: seq<string>)
    ensures forall t :: t in AddAll(excluded, tickers) <==> t in excluded || (t in tickers && t != [])
    ensures excluded <= AddAll(excluded, tickers)
  {
    if tickers != [] {
      AddAllMembers(excluded, tickers[..|tickers| - 1]);
      assert tickers == tickers[..|tickers| - 1] + [tickers[|tickers| - 1]];
    }
  }

  predicate Heads(violations: seq<string>, t: string)
  {
    LooksLikeTicker(t) && exists v :: v in violations && Head(v) == t
  }

  lemma {:induction false} AddHeadsMembers(excluded: seq<string>, violations: seq<string>, t: string)
    ensures t in AddHeads(excluded, violations) <==> t in excluded || Heads(violations, t)
    ensures excluded <= AddHeads(excluded, violations)
  {
    if violations != [] {
      var init, last := violations[..|violations| - 1], violations[|violations| - 1];
      AddHeadsMembers(excluded, init, t);
      assert violations == init + [last];
      HeadsSplit(init, last, t);
    }
  }

  lemma HeadsSplit(init: seq<string>, last: string, t: string)
    ensures Heads(init + [last], t) <==> Heads(init, t) || (LooksLikeTicker(t) && Head(last) == t)
  {
    if Heads(init, t) {
      var v :| v in init && Head(v) == t;
      assert v in init + [last];
    }
    assert last in init + [last];
  }

  /** Exclusions are exactly what was there, what the tax check blocked, and the tickers the messages lead with. */
  lemma ExclusionsAreExact(excluded: seq<string>, attempts: nat, approved: seq<string>, violations: seq<string>, tax: Tax, t: string)
    ensures var gate := GateOf(excluded, attempts, approved, violations, tax);
      && excluded <= gate.excluded
      && (t in gate.excluded <==> t in excluded || (t in gate.blocked && t != []) || Heads(violations, t))
  {
    var blocked := Blocked(approved, tax);
    AddAllMembers(excluded, blocked);
    AddHeadsMembers(AddAll(excluded, blocked), violations, t);
  }

  // --- The retry loop -----------------------------------------------------------------------------------

  /** One pass: what research surfaced, what suitability approved of it and said of the rest, and the tax check. */
  datatype Pass = Pass(raw: seq<string>, approved: seq<string>, violations: seq<string>, tax: Tax)

  /** Research never emits an excluded ticker, whatever surfaced it. */
  function Candidates(raw: seq<string>, excluded: seq<string>): seq<string>
  {
    if raw == [] then []
    else
      var last := raw[|raw| - 1];
      Candidates(raw[..|raw| - 1], excluded) + if Upper(last) in excluded then [] else [last]
  }

  /** Where the loop stands: exclusions, attempts, the candidates of each pass so far, and the last gate's survivors. */
  datatype Loop = Loop(excluded: seq<string>, attempts: nat, passes: seq<seq<string>>, surviving: seq<string>, done: bool)

  const START := Loop([], 0, [], [], false)

  function AfterPass(l: Loop, p: Pass): Loop
  {
    var gate := GateOf(l.excluded, l.attempts, p.approved, p.violations, p.tax);
    Loop(gate.excluded, gate.attempts, l.passes + [Candidates(p.raw, l.excluded)], gate.surviving, !gate.retry)
  }

  /** Suitability ran: every candidate was either approved or rejected by name. */
  predicate Evaluated(candidates: seq<string>, p: Pass)
  {
    && (forall t :: t in p.approved ==> t in candidates)
    && (forall t :: t in candidates && t !in p.approved ==> RejectedIn(p.violations, t))
  }

  predicate RejectedIn(violations: seq<string>, t: string)
  {
    exists v :: v in violations && Head(v) == t
  }

  predicate WellFormed(tickers: seq<string>)
  {
    forall t :: t in tickers ==> LooksLikeTicker(t)
  }

  predicate LegalPasses(l: Loop, ps: seq<Pass>)
    decreases |ps|
  {
    ps == [] || (!l.done && LegalPasses(AfterPass(l, ps[0]), ps[1..]))
  }

  /** Suitability completes in every pass, on well-formed tickers. */
  predicate Sound(l: Loop, ps: seq<Pass>)
    decreases |ps|
  {
    ps == [] || (WellFormed(ps[0].raw) && Evaluated(Candidates(ps[0].raw, l.excluded), ps[0]) && Sound(AfterPass(l, ps[0]), ps[1..]))
  }

  function RunPasses(l: Loop, ps: seq<Pass>): Loop
    decreases |ps|
  {
    if ps == [] then l else RunPasses(AfterPass(l, ps[0]), ps[1..])
  }

  predicate Bounded(l: Loop)
  {
    if l.done then |l.passes| <= MAX_RESEARCH_ATTEMPTS + 1 else |l.passes| == l.attempts <= MAX_RESEARCH_ATTEMPTS
  }

  /** However the model answers, research runs at most four times. */
  lemma {:induction false} AtMostFourPasses(l: Loop, ps: seq<Pass>)
    requires Bounded(l) && LegalPasses(l, ps)
    ensures Bounded(RunPasses(l, ps))
    ensures |RunPasses(l, ps).passes| <= MAX_RESEARCH_ATTEMPTS + 1
    decreases |ps|
  {
    if ps != [] {
      AtMostFourPasses(AfterPass(l, ps[0]), ps[1..]);
    }
  }

  lemma {:induction false} CandidatesMembers(raw: seq<string>, excluded: seq<string>)
    ensures forall t :: t in Candidates(raw, excluded) <==> t in raw && Upper(t) !in excluded
  {
    if raw != [] {
      CandidatesMembers(raw[..|raw| - 1], excluded);
      assert raw == raw[..|raw| - 1] + [raw[|raw| - 1]];
    }
  }

  predicate DisjointFrom(earlier: seq<string>, later: seq<string>)
  {
    forall t :: t in later ==> t !in earlier
  }

  /** Passes share no candidate, and until the loop ends every candidate seen is excluded. */
  predicate Fresh(l: Loop)
  {
    && (forall i, j :: 0 <= i < j < |l.passes| ==> DisjointFrom(l.passes[i], l.passes[j]))
    && (!l.done ==> forall i :: 0 <= i < |l.passes| ==> AllExcluded(l.passes[i], l.excluded))
  }

  predicate AllExcluded(tickers: seq<string>, excluded: seq<string>)
  {
    forall t :: t in tickers ==> t in excluded
  }

  /** When nothing survives, every candidate of the pass is excluded. */
  lemma FailedPassExcludesAll(l: Loop, p: Pass)
    requires WellFormed(p.raw) && Evaluated(Candidates(p.raw, l.excluded), p)
    requires AfterPass(l, p).surviving == []
    ensures AllExcluded(Candidates(p.raw, l.excluded), AfterPass(l, p).excluded)
  {
    CandidatesMembers(p.raw, l.excluded);
    SurvivingMembers(p.approved, p.tax);
    forall t | t in Candidates(p.raw, l.excluded) ensures t in AfterPass(l, p).excluded {
      ExclusionsAreExact(l.excluded, l.attempts, p.approved, p.violations, p.tax, t);
      assert LooksLikeTicker(t);
      if t in p.approved {
        assert t !in Surviving(p.approved, p.tax);
      } else {
        assert RejectedIn(p.violations, t);
        assert Heads(p.violations, t);
      }
    }
  }

  lemma PassKeepsFresh(l: Loop, p: Pass)
    requires !l.done && Fresh(l) && WellFormed(p.raw) && Evaluated(Candidates(p.raw, l.excluded), p)
    ensures Fresh(AfterPass(l, p))
  {
    var m := AfterPass(l, p);
    var now := Candidates(p.raw, l.excluded);
    CandidatesMembers(p.raw, l.excluded);
    ExclusionsAreExact(l.excluded, l.attempts, p.approved, p.violations, p.tax, "");
    forall i | 0 <= i < |l.passes| ensures DisjointFrom(l.passes[i], now) && AllExcluded(l.passes[i], m.excluded) {
      assert AllExcluded(l.passes[i], l.excluded);
      forall t | t in now ensures t !in l.passes[i] {
        assert LooksLikeTicker(t);
      }
    }
    if !m.done {
      FailedPassExcludesAll(l, p);
    }
  }

  /** What was rejected or tax-blocked is never proposed again: no two passes share a candidate. */
  lemma {:induction false} PassesAreDisjoint(l: Loop, ps: seq<Pass>)
    requires Fresh(l) && LegalPasses(l, ps) && Sound(l, ps)
    ensures Fresh(RunPasses(l, ps))
    decreases |ps|
  {
    if ps != [] {
      PassKeepsFresh(l, ps[0]);
      PassesAreDisjoint(AfterPass(l, ps[0]), ps[1..]);
    }
  }

  /** Exclusions only grow. */
  lemma {:induction false} ExclusionsOnlyGrow(l: Loop, ps: seq<Pass>)
    ensures l.excluded <= RunPasses(l, ps).excluded
    decreases |ps|
  {
    if ps != [] {
      ExclusionsAreExact(l.excluded, l.attempts, ps[0].approved, ps[0].violations, ps[0].tax, "");
      ExclusionsOnlyGrow(AfterPass(l, ps[0]), ps[1..]);
    }
  }

  /** No survivor carries a wash-sale flag, and an unverified assessment lets nothing through. */
  lemma SurvivorsAreClear(l: Loop, p: Pass)
    ensures forall t :: t in AfterPass(l, p).surviving ==> p.tax.Verified? && Upper(t) !in p.tax.flags && t in p.approved
  {
    SurvivingMembers(p.approved, p.tax);
  }

  // --- From the gate to the plan ---------------------------------------------------------------------------

  /** Approved tickers are not also rejected. */
  predicate Decided(p: Pass)
  {
    forall t :: t in p.approved ==> !RejectedIn(p.violations, t)
  }

  /** A survivor of the last pass is in nobody's exclusions. */
  lemma SurvivorsAreNotExcluded(l: Loop, p: Pass, t: string)
    requires WellFormed(p.raw) && Evaluated(Candidates(p.raw, l.excluded), p) && Decided(p)
    requires t in AfterPass(l, p).surviving
    ensures t !in AfterPass(l, p).excluded
  {
    SurvivingMembers(p.approved, p.tax);
    CandidatesMembers(p.raw, l.excluded);
    ExclusionsAreExact(l.excluded, l.attempts, p.approved, p.violations, p.tax, t);
    assert LooksLikeTicker(t) && Upper(t) == t;
    BlockedAreBlocked(p.approved, p.tax);
  }

  lemma {:induction false} BlockedAreBlocked(approved: seq<string>, tax: Tax)
    requires forall a :: a in approved ==> Upper(a) == a
    ensures forall t :: t in Blocked(approved, tax) ==> t in approved && TaxBlocks(tax, t)
  {
    if approved != [] {
      var init, last := approved[..|approved| - 1], approved[|approved| - 1];
      assert approved == init + [last];
      assert last in approved;
      BlockedAreBlocked(init, tax);
    }
  }

  /** Buys only name tickers outside this list. */
  function NoneOf(excluded: seq<string>): Property
  {
    (ps: seq<Proposal>, cash: CashMap, left: real) => forall p :: p in ps ==> p.side == Buy && p.symbol !in excluded
  }

  lemma BuysAreOffered(inp: Inputs, trims: Trims, excluded: seq<string>)
    requires forall p :: Offered(inp, p) ==> p.ticker !in excluded
    ensures forall p :: p in BuyAll(inp, trims).proposals ==> p.side == Buy && p.symbol !in excluded
  {
    var keeps := NoneOf(excluded);
    forall st: Buys, pick: Pick, share: real
      | Holds(keeps, st) && Offered(inp, pick) && PurchaseFor(inp, trims.planned, st, pick, share).Some?
      ensures Holds(keeps, BuyOne(inp, trims.planned, st, pick, share))
    {
      BuyOneIs(inp, trims.planned, st, pick, share);
    }
    BuyAllKeeps(inp, trims, keeps);
  }

  predicate AvoidsBuying(excluded: seq<string>, p: Proposal)
  {
    p.side == Buy ==> p.symbol !in excluded
  }

  lemma {:induction false} TrimEachSells(inp: Inputs, st: Trims, ts: seq<Allotment>)
    requires forall p :: p in st.proposals ==> p.side == Sell
    ensures forall p :: p in TrimEach(inp, st, ts).proposals ==> p.side == Sell
  {
    if ts != [] {
      TrimEachSells(inp, st, ts[..|ts| - 1]);
    }
  }

  lemma {:induction false} TrimsSell(inp: Inputs, bs: seq<Breach>)
    ensures forall p :: p in TrimAll(inp, bs).proposals ==> p.side == Sell
  {
    if bs != [] {
      var st := TrimAll(inp, bs[..|bs| - 1]);
      var b := bs[|bs| - 1];
      TrimsSell(inp, bs[..|bs| - 1]);
      TrimEachSells(inp, st, TrimTargets(inp.view, b, Uncovered(inp.view, b, st.planned), st.planned));
    }
  }

  lemma DraftAvoids(inp: Inputs, excluded: seq<string>)
    requires forall p :: Offered(inp, p) ==> p.ticker !in excluded
    ensures forall p :: p in Merge(Drafted(inp)) ==> AvoidsBuying(excluded, p)
  {
    var trims := TrimAll(inp, OrderedBreaches(inp));
    TrimsSell(inp, OrderedBreaches(inp));
    BuysAreOffered(inp, trims, excluded);
    var good := (p: Proposal) => AvoidsBuying(excluded, p);
    forall p | p in Drafted(inp) ensures good(p) {
    }
    MergeKeepsProperty(Drafted(inp), good);
  }

  lemma PlanAvoids(inp: Inputs, excluded: seq<string>, i: nat)
    requires i < |Plan(inp).0| && forall p :: Offered(inp, p) ==> p.ticker !in excluded
    ensures AvoidsBuying(excluded, Plan(inp).0[i])
  {
    DraftAvoids(inp, excluded);
    SequenceMembers(Drafted(inp), i);
  }

  // --- Where the planner's instruments come from -----------------------------------------------------

  /** An instrument as the screener ranks it; `standards` stands for every test but those spelled out in `Passes`. */
  datatype Security = Security(ticker: string, assetClass: string, standards: bool)

  /** What one asset class is screened with: the instruments best first, and the names to leave out. */
  datatype Screen = Screen(ranked: seq<Security>, assetClass: string, excluded: seq<string>, held: seq<string>)

  predicate Names(tickers: seq<string>, ticker: string)
  {
    exists t :: t in tickers && Upper(t) == Upper(ticker)
  }

  predicate Passes(s: Screen, x: Security)
  {
    x.standards && !Names(s.excluded, x.ticker) && !Names(s.held, x.ticker) && x.assetClass == s.assetClass
  }

  lemma MembersAreNamed(first: seq<string>, second: seq<string>, ticker: string)
    ensures ticker in second ==> Names(first + second, ticker)
  {
    if ticker in second {
      assert ticker in first + second;
    }
  }

  function Screened(s: Screen, ranked: seq<Security>): seq<Security>
  {
    if ranked == [] then []
    else Screened(s, ranked[..|ranked| - 1]) + if Passes(s, ranked[|ranked| - 1]) then [ranked[|ranked| - 1]] else []
  }

  function Quoted(found: seq<Security>, quotes: map<string, real>): seq<Pick>
  {
    if found == [] then []
    else
      var x := found[|found| - 1];
      Quoted(found[..|found| - 1], quotes) + if x.ticker in quotes then [Pick(x.ticker, quotes[x.ticker], Some(x.assetClass))] else []
  }

  /** The best three that pass the screen, as far as they have a quote. */
  function Provided(s: Screen, quotes: map<string, real>): seq<Pick>
  {
    var found := Screened(s, s.ranked);
    Quoted(if |found| <= 3 then found else found[..3], quotes)
  }

  lemma {:induction false} ScreenedPass(s: Screen, ranked: seq<Security>)
    ensures forall x :: x in Screened(s, ranked) ==> x in ranked && Passes(s, x)
  {
    if ranked != [] {
      ScreenedPass(s, ranked[..|ranked| - 1]);
    }
  }

  lemma {:induction false} QuotedAreFound(found: seq<Security>, quotes: map<string, real>)
    ensures forall p :: p in Quoted(found, quotes) ==> exists x :: x in found && x.ticker == p.ticker && Some(x.assetClass) == p.assetClass
    ensures forall p :: p in Quoted(found, quotes) ==> p.ticker in quotes && p.price == quotes[p.ticker]
    ensures |Quoted(found, quotes)| <= |found|
  {
    if found != [] {
      var init, last := found[..|found| - 1], found[|found| - 1];
      QuotedAreFound(init, quotes);
      assert found == init + [last];
      forall p | p in Quoted(init, quotes) ensures exists x :: x in found && x.ticker == p.ticker && Some(x.assetClass) == p.assetClass {
        var x :| x in init && x.ticker == p.ticker && Some(x.assetClass) == p.assetClass;
        assert x in found;
      }
    }
  }

  /** At most three instruments are offered for a class, all of that class, quoted, new to the client and outside the
      exclusions, in whatever case these are written. */
  lemma ProviderAvoidsExclusions(s: Screen, quotes: map<string, real>)
    ensures |Provided(s, quotes)| <= 3
    ensures forall p :: p in Provided(s, quotes) ==>
      && p.assetClass == Some(s.assetClass) && p.ticker in quotes && p.price == quotes[p.ticker]
      && !Names(s.excluded, p.ticker) && !Names(s.held, p.ticker)
  {
    var found := Screened(s, s.ranked);
    var best := if |found| <= 3 then found else found[..3];
    ScreenedPass(s, s.ranked);
    QuotedAreFound(best, quotes);
    forall p | p in Provided(s, quotes)
      ensures p.assetClass == Some(s.assetClass) && !Names(s.excluded, p.ticker) && !Names(s.held, p.ticker)
    {
      var x :| x in best && x.ticker == p.ticker && Some(x.assetClass) == p.assetClass;
      assert x in found;
    }
  }

  /** The planner is offered the survivors of the last pass, and for each class what a screen finds that leaves out the
      policy's exclusions and the run's. */
  ghost predicate OfferedFrom(inp: Inputs, l: Loop, screens: map<string, Screen>, policyExcluded: seq<string>, quotes: map<string, real>)
  {
    && (forall p :: p in inp.candidates ==> p.ticker in l.surviving)
    && (forall c :: c in inp.provider ==>
          c in screens && screens[c].excluded == policyExcluded + l.excluded && inp.provider[c] == Provided(screens[c], quotes))
  }

  /** No planned purchase names a ticker that any pass rejected or tax-blocked. */
  lemma NoRejectedTickerIsBought(l: Loop, last: Pass, inp: Inputs, screens: map<string, Screen>, policyExcluded: seq<string>,
                                 quotes: map<string, real>, i: nat)
    requires WellFormed(last.raw) && Evaluated(Candidates(last.raw, l.excluded), last) && Decided(last)
    requires OfferedFrom(inp, AfterPass(l, last), screens, policyExcluded, quotes)
    requires i < |Plan(inp).0| && Plan(inp).0[i].side == Buy
    ensures Plan(inp).0[i].symbol !in AfterPass(l, last).excluded
  {
    var m := AfterPass(l, last);
    forall p | Offered(inp, p) ensures p.ticker !in m.excluded {
      if p in inp.candidates {
        SurvivorsAreNotExcluded(l, last, p.ticker);
      } else {
        var c :| c in inp.provider && p in inp.provider[c];
        ProviderAvoidsExclusions(screens[c], quotes);
        MembersAreNamed(policyExcluded, m.excluded, p.ticker);
      }
    }
    PlanAvoids(inp, m.excluded, i);
  }
}
