# The money path, verified

This project models the deterministic core of a portfolio-management service and proves what it promises: which
tax lots a sale consumes, what an order may do to cash and shares, how a breach of policy becomes a plan of
trades, and why a plan the planner builds is one the broker can carry out. Beside it stand the durable
protocols: the job-queue lease, the guardrail retry loop, the rate limiters, the circuit breaker, the
performance loops and the audit hash chain.

Run `dafny verify dfyconfig.toml` to check everything.

## How it is laid out

| files | what they hold |
|---|---|
| `sums`, `tax_lots`, `lot_selection`, `lot_methods` | totals and a stable sort; lots and the selection loop; accounting, priority and HIFO optimality |
| `books`, `broker`, `lot_writes`, `ledger_invariants`, `ledger_runs`, `wash_sales`, `realized_gains` | the tables and what each write does to them; the order lifecycle; invariants, double entry and reservations over every run; section 1091 and yearly figures |
| `portfolio`, `breach_proofs`, `rebalance`, `trim_proofs`, `buy_proofs`, `class_targets`, `merge_proofs` | valuation and breaches; the planner's loops and their specification; what trims, purchases, merging and sequencing keep |
| `execution`, `plan_proofs`, `ledger` | executing a plan; planner and broker agree; the ledger as a class changed in place |
| `suitability` | the capped water-filling allocator, in any visiting order |
| `jobs`, `job_protocol` | the queue as a class; any interleaving of workers over it |
| `guardrails`, `resilience`, `sliding_window`, `performance`, `audit` | the remaining protocols and loops |

Each operation that changes state is given twice: a function from one state of the tables to the next, about which
the laws are proved, and a method that works in place with the source's loops and is proved to be that function.
The public methods of `Ledger` also keep the ledger's invariant, but for submitting a failed order again, and
`Ledger.RebalanceClient` goes from stored
accounts to an executed plan in one call.

## How the source is read

- Money, prices and share quantities are exact reals. Stored quantities are multiples of 1e-8 shares, so the
  source's 1e-9 share tolerances become tests against zero; the 1e-6 shortage and cash tolerances and the 1%
  reservation margin are kept. The allocator's tolerances are a parameter (`CODE_TOLERANCE` or none).
- Prices, quotes, time, the hash, the outcome of handlers and what a language model proposes are parameters.
- Each function up to its commit is one step, except claiming a job, which is split between its query and its
  conditional update. A set that the source iterates is listed in an arbitrary order.
- A plan is held in the order its sequence numbers give.

## Where the code and its descriptions differ

The model follows the code; a lemma pins down each of these, with the exact condition where one separates the cases.

- Taxable holdings are trimmed largest gain first, not least (services/rebalance.py:684-687): `LargestGainIsTrimmedFirst`.
- Fractional quantities round to nearest, not down (services/rebalance.py:172): `FractionsRoundToNearest`, `RoundingStaysNear`.
- Trimming a sector by the reported excess cures the breach only when rounding to cents makes up the difference
  (services/portfolio.py:412-432): `ReportedTrimCuresExactly`, `ReportedExcessFallsShort`.
- Sector headroom leaves sales in other sectors in its base (services/rebalance.py:750-760): `SectorHeadroomIsExact`.
- The cash floor is held back from one account only (services/rebalance.py:384-389): `FloorIsHeldBackExactly`, `FloorIsCutShort`.
- The planner charges commission on the quoted value and the simulator on the slipped one (services/broker.py:106-178): `EstimateIsExact`,
  `SaleEstimateIsExact`.
- A trade below the minimum order is planned and then refused (services/broker.py:265-269): `PlanFillsInFullExactly`.
- A replaced loss is not reduced by a repurchase (services/tax_lots.py:443-460): `RepurchasesDeferExactly`; it may be another
  client's: `ReplacedLossIsOwnExactly`, `StrangersLossIsDeferred`; and it is measured against the lot's original size, not the
  shares sold: `BuyingBackAllSoldDefersExactly`, `TenthIsDeferred`.
- A lot's term and disposal date are overwritten by its next sale (services/tax_lots.py:528-534): `FiguresFollowSalesExactly`,
  `ShortPartFollowsExactly`, `TwoSalesMisreport`.
- A failed order may be submitted again (services/broker.py:387-388): `ShortSaleExactly`, `FailedResubmissionRunsShort`.
- A worker writes its outcome without checking that the job is still its own (services/jobs.py:434-449):
  `TimedOutIsOverwrittenExactly`, `DedupeHoldsExactly`.
- A rejection excludes its ticker only when the ticker is well formed (orchestrator.py:164-172): `RejectionExcludesExactly`.
- More than one probe passes a half-open breaker (services/resilience.py:167-171): `ProbesUntilOutcome`.
- A request for more tokens than the capacity waits for ever (services/resilience.py:219-230): `WaitingSucceedsExactly`.
- A refused call evicts nothing, so with a limit of zero the limiter's table is not bounded (server.py:267-268):
  `TableIsBoundedExactly`. The sweep uses the caller's cutoff for every key (server.py:273-278), so a key with a longer window
  may exceed its limit: `ShorterWindowForgets`, `CleaningSparesExactly`.
- Audit rows dropped from the end, and unhashed fields, are not protected (services/audit.py:93-117): `TruncationIsAccepted`,
  `LabelsAreNotProtected`.

## Model

| member | source | states |
|---|---|---|
| `TaxLots.SelectLots` | services/tax_lots.py:162-235 | the loop returns the front-to-back consumption of the lots in the method's order, and the shares left unsold |
| `LotSelection.LongTermExactly` | services/tax_lots.py:157-159 | a lot is long-term exactly from its 366th day |
| `LotSelection.SelectionAccounting` | services/tax_lots.py:188-235 | every method: selected shares plus shortfall are the shares asked for, no lot gives more than it has, at most one is left partly consumed, and a shortfall means nothing is left |
| `LotSelection.StrictPriority` | services/tax_lots.py:190-212 | no method touches a lot while one it promises to sell first still has shares (FIFO older, LIFO newer, HIFO dearer, MINTAX losses then long-term then short-term) |
| `LotSelection.SaleGainSplits` | services/tax_lots.py:214-235 | a sale's gain is its proceeds less its basis, in total as in each selection |
| `LotSelection.DearestFirstIsBest` | services/tax_lots.py:209-235 | exchange argument: any other taking of at least as many shares pays at most the dearest lot's cost for each extra share |
| `LotSelection.HifoRealizesLeastGain` | services/tax_lots.py:162-235 | among all ways to take the same shares from the lots, HIFO realizes the least gain |
| `LotMethods.HifoBeatsEveryMethod` | services/tax_lots.py:162-235 | on the same lots and quantity HIFO realizes no more than FIFO, LIFO or MINTAX |
| `LotMethods.HifoBeatsOnLedger` | services/tax_lots.py:486-551 | on any ledger, whatever the policy's method, HIFO would have realized no more on the same sale |
| `LotMethods.SameSharesSold` | services/tax_lots.py:214-235 | every method sells the lesser of the shares asked for and the shares there are |
| `Books.CheckWashSale` | services/tax_lots.py:335-411 | a finding is reported exactly when a taxable account of the client has a loss on the symbol in the last thirty days; it is permanent exactly for a known sheltered buyer |
| `Books.ReplacedLot` | services/tax_lots.py:443-460 | the replaced lot is a loss in the window, none was disposed later, and there is one whenever any exists |
| `Books.SaleOfIsBacked` | services/tax_lots.py:503-521 | every selection of a sale names an open lot of the holding and takes no more than it has |
| `LotWrites.SaleNamesOnce` | services/tax_lots.py:503-521 | a sale selects each lot at most once |
| `LotWrites.ApplySaleTotal` | services/tax_lots.py:516-534 | whatever a disposal takes from a lot's column, the sale takes from the column's total |
| `LotWrites.SaleIsComplete` | services/tax_lots.py:486-551 | a sale of no more than is held is filled in full at the sale price by every method |
| `LedgerInvariants.PurchaseHeld` | services/tax_lots.py:416-483 | a purchase adds its shares to one holding and leaves every other holding's shares and basis |
| `LedgerInvariants.PurchaseBooks` | services/tax_lots.py:437-483 | a purchase adds to the account's books what was paid plus the wash-sale loss it inherits |
| `LedgerInvariants.SaleHeld` | services/tax_lots.py:486-551 | a sale of held shares succeeds, takes exactly its shares from one holding and nothing from any other |
| `LedgerInvariants.SaleBooks` | services/tax_lots.py:516-551 | a sale takes from the account's books exactly what the shares were sold for |
| `LedgerInvariants.SaleKeepsTable` | services/tax_lots.py:516-534 | rows stay sound: 0 <= remaining <= quantity, and proceeds less realized gain are the basis of what was sold |
| `LedgerInvariants.PurchaseKeepsRollup` | services/tax_lots.py:554-591 | after a purchase a position exists exactly where open lots hold shares, and rolls them up exactly |
| `LedgerInvariants.SaleKeepsRollup` | services/tax_lots.py:554-591 | the same after a sale |
| `WashSales.DeferralIsPartOfTheLoss` | services/tax_lots.py:437-467 | a purchase defers a loss exactly when it is a taxable repurchase in the window; more than none, never more than the loss, and all of it exactly when as many shares are bought as the replaced lot ever held |
| `WashSales.BuyingBackAllSoldDefersExactly` | services/tax_lots.py:443-460 | the loss is measured against the lot's original size: buying back all the shares sold defers it all exactly when the lot was sold out or as many are bought as it ever held |
| `WashSales.TenthIsDeferred` | services/tax_lots.py:455-459 | ten of a hundred sold at a loss and ten bought back: a tenth of the loss is deferred |
| `WashSales.ReplacedLossIsOwnExactly` | services/tax_lots.py:443-453 | the replaced lot is one of the client's own taxable losses exactly when every loss of the symbol elsewhere has one of the client's disposed later, or in an earlier row at the same instant |
| `WashSales.StrangersLossIsDeferred` | services/tax_lots.py:443-453 | two clients with a loss each: the first client's repurchase defers the second client's later loss |
| `WashSales.DeferralLandsInBasis` | services/tax_lots.py:463-483 | the opened lot's basis is what was paid plus what was deferred |
| `WashSales.EveryPurchaseReplacesSameLot` | services/tax_lots.py:443-460 | the replaced loss is not reduced: while the same own loss is in the window, every purchase by a taxable account of the client replaces the lot the first one replaced |
| `WashSales.RepurchasesDeferExactly` | services/tax_lots.py:443-467 | any number of repurchases, in any of the client's taxable accounts, together defer no more than the loss exactly when together they match no more shares than the replaced lot ever held |
| `RealizedGains.SaleRaisesFigures` | services/tax_lots.py:738-784 | a sale raises the year's total by its gain plus what its lots carried from earlier years, and the short-term part by its short-term gain plus what changes term |
| `RealizedGains.FiguresFollowSalesExactly` | services/tax_lots.py:528-534 | the year's total follows every sale of a holding, at any price and by any method, exactly when no open lot of it has a gain from before the year |
| `RealizedGains.ShortPartFollowsExactly` | services/tax_lots.py:528-534 | the short-term part follows every sale exactly when every open lot's gain so far is in it if and only if the lot is short-term still |
| `RealizedGains.TwoSalesMisreport` | services/tax_lots.py:528-534 | two sales of one lot, short-term then long-term: the second takes the first gain out of the short-term figure and into the total of a later year |
| `RealizedGains.LaterSaleRelabels` | services/tax_lots.py:528-534 | a long-term sale of a lot takes every earlier short-term gain of the lot with it |
| `PlanExecution.FillsWithinLimit` | services/broker.py:106-155 | a fill crosses the spread against the order, never worse than its limit; a limit order misses exactly when the crossed price is worse |
| `PlanExecution.FillMatchesEstimate` | services/broker.py:106-188 | with no proportional commission the simulator charges exactly the planner's estimate |
| `PlanExecution.EstimateIsExact` | services/broker.py:106-188 | for a purchase, estimate and fill agree exactly when the commission is the flat minimum on both, or slippage or the rate is zero |
| `PlanExecution.SaleEstimateIsExact` | services/broker.py:106-188 | for a sale, exactly when the proceeds just pay the commission, or more than pay it and the commission is the flat minimum on both, or slippage or the rate is zero |
| `Broker.Replay` | services/broker.py:238-249 | the replayed order carries the organisation and key asked for, and none is missed |
| `LedgerInvariants.CreatedKeepsInv` | services/broker.py:263-324 | an accepted order keeps the invariant: its shares are held and not promised twice, and its reservation is in the hold |
| `LedgerInvariants.ReleaseKeepsHolds` | services/broker.py:343-351 | a release takes exactly the reservation from the hold, and holds stay the sum of reservations |
| `LedgerInvariants.ClosingFreesShares` | services/broker.py:354-365 | closing an order frees exactly the shares it had committed |
| `LedgerRuns.PromisedSharesAreHeld` | services/broker.py:271-284 | an open sell order's shares are still held, whatever was filled or cancelled meanwhile |
| `LedgerRuns.BuyFilledTables` | services/broker.py:435-444 | the tables after a buy fills: lots and position of the purchase, cash less the net, the hold less the reservation, nothing else |
| `LedgerRuns.SellFilledTables` | services/broker.py:445-479 | the tables after a sell fills; an open sell always does |
| `LedgerRuns.SubmitKeepsInv` | services/broker.py:368-505 | submitting keeps the invariant and never reaches the short-sale error |
| `LedgerRuns.StepKeepsInv` | services/broker.py:209-533 | every create, submit and cancel keeps the invariant |
| `LedgerRuns.RunKeepsInv` | services/broker.py:209-533 | lots, rollups, reservations and commitments hold in every reachable ledger |
| `LedgerRuns.RunKeepsUniqueKeys` | services/broker.py:238-249 | no run holds two orders under one idempotency key |
| `LedgerRuns.RetryReturnsOriginal` | services/broker.py:238-249 | a retry under a recorded key changes nothing and returns the original order |
| `LedgerRuns.RunBalances` | services/broker.py:414-473 | double entry over every run: cash plus open basis less realized gains plus commissions less wash-sale additions is constant, for any lot method |
| `LedgerRuns.FillFitsReservation` | services/broker.py:309-320 | a buy filled at the quote it was reserved at fits its reservation exactly when slippage and commission stay inside the 1% margin |
| `LedgerRuns.RunStaysCovered` | services/broker.py:285-320 | however many orders are open, cash less holds never falls below minus 1% of the largest single buy, less a micro-dollar |
| `LedgerRuns.ShortSaleExactly` | services/broker.py:368-412 | a submitted sell runs short exactly when its shares exceed those held by more than the tolerance |
| `LedgerRuns.FailedResubmissionRunsShort` | services/broker.py:387-412 | from any tables without orders: a holding offered at a limit and missed, then sold at the market, is a legal run; the first order submitted again runs short |
| `LedgerRuns.TenSharesHeld` | services/tax_lots.py:437-483 | such tables: ten shares in one lot, with the invariant |
| `PlanExecution.ProposalFills` | services/broker.py:591-645 | a placeable, affordable proposal is accepted and filled; cash moves by exactly the estimate and no order stays open |
| `PlanExecution.RestIsExecutable` | services/broker.py:591-645 | after its first proposal the rest of an executable plan is executable from the new tables |
| `PlanExecution.PlanExecutes` | services/broker.py:591-645 | an executable plan is filled in full, in sequence, and each account ends with exactly its estimated cash, not overdrawn |
| `PlanExecution.PrefixIsExecutable` | services/broker.py:591-645 | every prefix of an executable plan is executable |
| `Ledgers.Ledger.RebuildPosition` | services/tax_lots.py:554-591 | recomputing a position in place is the rollup of its lots |
| `Ledgers.Ledger.Seed` | services/tax_lots.py:787-817 | onboarding opens a lot per positive holding, rebuilds the symbols in any order, and ends in a sound ledger |
| `Ledgers.Ledger.RecordPurchase` | services/tax_lots.py:416-483 | in place, exactly the purchase of the specification, and the loss it deferred |
| `Ledgers.Ledger.RecordSale` | services/tax_lots.py:486-551 | in place, exactly the sale of the specification with its realized gain, or a refusal that changes nothing |
| `Ledgers.Ledger.PreTrade` | services/broker.py:251-291 | the pre-trade checks in order |
| `Ledgers.Ledger.CreateOrder` | services/broker.py:209-340 | in place, exactly the creation of the specification; the invariant is kept |
| `Ledgers.Ledger.ReleaseReservation` | services/broker.py:343-351 | in place, exactly the release of the specification |
| `Ledgers.Ledger.SubmitOrder` | services/broker.py:368-505 | in place, exactly the submission of the specification, of failed orders too; for any other the invariant is kept and it never runs short |
| `Ledgers.Ledger.CancelOrder` | services/broker.py:508-533 | in place, exactly the cancellation of the specification; the invariant is kept |
| `Ledgers.Ledger.ExecuteProposal` | services/broker.py:612-644 | one proposal created and filled, or the tables restored |
| `Ledgers.Ledger.ExecutePlan` | services/broker.py:591-645 | the loop over a plan is the execution of the specification; the invariant is kept |
| `Ledgers.Ledger.RebalanceAll` | services/rebalance.py:177-567 | plan and carry out, in whole or fractional shares; in whole shares at unchanged prices every proposal is filled exactly when each meets the minimum order, and then no account ends overdrawn |
| `Ledgers.Ledger.RebalanceClient` | services/portfolio.py:217-325 | the same from the client's accounts as loaded at the current quotes |
| `Portfolio.LoadPortfolio` | services/portfolio.py:217-325 | one purse per account and one holding for each position with shares and a quote, priced at it, and nothing else |
| `BreachProofs.PositionBreachExactly` | services/portfolio.py:396-410 | a symbol is reported exactly when it is held and over its limit of the whole portfolio, with the dollars over, to the cent |
| `BreachProofs.SectorBreachExactly` | services/portfolio.py:412-432 | a known sector is reported exactly when a holding is in it and it is over its limit of what is invested |
| `BreachProofs.TrimCuresPositionExactly` | services/portfolio.py:396-410 | a trim cures a position breach exactly when it sells what is over the limit |
| `BreachProofs.TrimCuresSectorExactly` | services/portfolio.py:412-432 | a trim cures a sector breach exactly when it sells the excess grossed up by the rest of the portfolio's share |
| `BreachProofs.ReportedTrimCuresExactly` | services/portfolio.py:412-432 | selling just the reported excess, rounded to cents, cures a sector breach exactly when everything is sold or rounding added at least the limit's share of the sale |
| `BreachProofs.ReportedExcessFallsShort` | services/portfolio.py:412-432 | the breach stands whenever the limit's share of the reported excess is more than half a cent |
| `BreachProofs.RoundedCentCures` | services/portfolio.py:412-432 | an excess of under a cent, reported as a cent, is cured by selling a cent |
| `TrimProofs.WholeSharesRoundDown` | services/rebalance.py:162-174 | whole shares never cost more than the dollars they were sized for |
| `TrimProofs.FractionsRoundToNearest` | services/rebalance.py:172-172 | fractional shares stay within the dollars exactly when the leftover part of a millionth is below half |
| `TrimProofs.FractionsCanExceed` | services/rebalance.py:172-172 | an amount that rounds up |
| `TrimProofs.AllotCovers` | services/rebalance.py:688-700 | the targets cover the excess or all there is to sell |
| `TrimProofs.TrimIsLeastTaxable` | services/rebalance.py:662-701 | each trim covers the lesser of the excess and what is sellable, from holdings of the breach, and sells the fewest taxable dollars of any split |
| `TrimProofs.LargestGainIsTrimmedFirst` | services/rebalance.py:681-687 | within a tax group the larger unrealized gain is trimmed first |
| `TrimProofs.RoundingStaysNear` | services/rebalance.py:160-175 | a rounded quantity is worth no more than it was sized for, but for half a millionth of a share in fractional shares |
| `TrimProofs.TrimsNeverOversell` | services/rebalance.py:241-357 | however breaches overlap, the dollars planned for a holding are what its proposals sell and never exceed its worth; in fractional shares, by no more than half a millionth of a share |
| `TrimProofs.TrimAllProposals` | services/rebalance.py:319-349 | every trim sells whole shares of a holding of the client at its price, in an active account |
| `Rebalance.AllotTargets` | services/rebalance.py:662-701 | the loop is the allotment of the specification |
| `Rebalance.PlanTrims` | services/rebalance.py:241-357 | the trim loops are the trims of the specification |
| `Rebalance.CashForBuying` | services/rebalance.py:374-389 | cash per account, credited with its own net sale proceeds, less the floor held back |
| `Rebalance.BuyUnderweights` | services/rebalance.py:433-560 | the purchase loops are the purchases of the specification |
| `Rebalance.MergeDuplicates` | services/rebalance.py:612-640 | the merge loop is the merge of the specification |
| `Rebalance.PlanRebalance` | services/rebalance.py:177-567 | the planner's loops build the plan of the specification |
| `BuyProofs.FundingAccountIsRichest` | services/rebalance.py:773-805 | the account chosen is always the one with the most cash, and there is none exactly when no account has the purchase or a minimum trade |
| `BuyProofs.FloorComesFromRichest` | services/rebalance.py:384-389 | the floor is taken from the richest account alone, as far as its cash goes |
| `BuyProofs.FloorIsHeldBackExactly` | services/rebalance.py:384-389 | the whole floor is held back exactly when one account has it all after sales |
| `BuyProofs.FloorIsCutShort` | services/rebalance.py:384-389 | two accounts with 50 each and a floor of 60: only 50 is held back |
| `BuyProofs.SpendableCoversCost` | services/rebalance.py:486-491 | sizing against cash net of trading cost leaves enough to pay it, at any rates, but for the slack of rounding |
| `BuyProofs.BuysNeverOverdraw` | services/rebalance.py:466-553 | each account is left with its starting cash less everything spent, costs included, never negative; in fractional shares, never below the slack of one purchase |
| `BuyProofs.BuysRespectPositionCap` | services/rebalance.py:704-718 | a symbol that is bought ends, with what is held, within its cap; in fractional shares, but for the slack of one purchase |
| `BuyProofs.BuysRespectSectorLimit` | services/rebalance.py:731-770 | a sector that is bought into ends within its limit of the portfolio after the plan, but for sales in other sectors and, in fractional shares, the slack of one purchase |
| `BuyProofs.SectorHeadroomIsExact` | services/rebalance.py:748-770 | spending the whole headroom respects the sector limit exactly when nothing is sold in other sectors |
| `ClassTargets.ProjectionKeepsTotal` | services/rebalance.py:570-609 | after projected sales the class values still add up to the portfolio total |
| `ClassTargets.BuysNeverOvershoot` | services/rebalance.py:433-560 | a class that is bought into ends no higher than its target; in fractional shares, but for the slack of three purchases |
| `MergeProofs.MergedOnce` | services/rebalance.py:612-640 | one trade per account, symbol and side |
| `MergeProofs.MergeKeepsTrade` | services/rebalance.py:628-632 | each merged trade carries the dollars and tax of all its parts |
| `MergeProofs.MergingOnlyHelps` | services/rebalance.py:612-640 | merging never raises what an account pays nor lowers what its sales net |
| `MergeProofs.SequenceKeepsColumn` | services/rebalance.py:643-647 | sequencing keeps every additive total |
| `MergeProofs.SequencedSellsFirst` | services/rebalance.py:643-647 | every sell precedes every buy, and the numbering is the order the executor follows |
| `PlanProofs.MergedSaleIsHeld` | services/rebalance.py:241-357 | no merged sale asks for more shares than its account holds |
| `PlanProofs.PlanIsFunded` | services/rebalance.py:374-557 | each account's cash with its own sale proceeds covers its purchases |
| `PlanProofs.PlanIsExecutable` | services/rebalance.py:177-567 | a plan whose trades meet the minimum order is executable from the tables it was built from |
| `PlanProofs.PlanIsCarriedOut` | services/rebalance.py:177-567 | every proposal is accepted and filled in sequence and no account's spendable cash ends negative |
| `PlanProofs.NoAccountIsOverdrawnOnTheWay` | services/broker.py:591-645 | nor is any account overdrawn after any prefix of the plan |
| `PlanProofs.PlanFillsInFullExactly` | services/broker.py:265-269 | a plan is filled in full exactly when each of its trades meets the minimum order |
| `PlanProofs.FloorSurvives` | services/rebalance.py:384-389 | carried out, the plan leaves the richest account the cash floor, or all it had towards it |
| `Suitability.PourPass` | agents/suitability.py:254-283 | one pass over the open names is the pour of the specification, in the order visited |
| `Suitability.PassSpendsAll` | agents/suitability.py:254-283 | a pass that closes no name spends everything that was left |
| `Suitability.PassRaisesLevel` | agents/suitability.py:254-283 | a pass raises the common level by what was left per unit of open weight |
| `Suitability.WeightsSumToOne` | agents/suitability.py:238-247 | weights are shares of one, by confidence or equal |
| `Suitability.Distribute` | agents/suitability.py:249-285 | in any visiting order: every limit kept; without sectors every name stands at one level or its cap; six passes deploy all there is cash or room for among six names |
| `Suitability.OrderDoesNotMatter` | agents/suitability.py:259-259 | exactly filled allocations that deploy the same cash are the same |
| `Suitability.ExactlyFilled` | agents/suitability.py:249-285 | with no tolerance, each name has the lesser of its headroom and its weight's worth, and the total is the lesser of the cash and the room |
| `Suitability.FeasibleKeepsFloor` | agents/suitability.py:208-216 | what is allocated leaves the cash floor in place and comes out of spendable cash |
| `Suitability.ComputeAllocations` | agents/suitability.py:182-293 | from a portfolio and policy: headrooms, floor and sector limits kept, and water-filling as above |
| `Jobs.Candidate` | services/jobs.py:163-181 | the candidate is runnable, nothing runnable is ahead of it, and there is one whenever any job is runnable |
| `Jobs.JobQueue.Enqueue` | services/jobs.py:64-129 | a deduplicated request returns an active job for the same work, or appends a new one |
| `Jobs.JobQueue.RequestCancel` | services/jobs.py:132-148 | a finished job is left alone; a queued one is cancelled outright; a running one is flagged |
| `Jobs.JobQueue.SelectCandidate` | services/jobs.py:163-183 | the query is the candidate of the specification |
| `Jobs.JobQueue.UpdateCandidate` | services/jobs.py:186-214 | the conditional update wins exactly when the job is still runnable |
| `Jobs.JobQueue.Heartbeat` | services/jobs.py:233-254 | the heartbeat is recorded, and the answer is whether cancellation was asked for |
| `Jobs.JobQueue.Finish` | services/jobs.py:414-484 | how a handler's ending is written |
| `Jobs.JobQueue.ReclaimOrphanedJobs` | services/jobs.py:516-580 | stale running jobs are requeued or failed, counted, and no other row changes |
| `Jobs.JobQueue.ReapStaleJobs` | services/jobs.py:583-606 | running jobs started too long ago are timed out, and no other row changes |
| `JobProtocol.ClaimsAreAttempts` | services/jobs.py:154-230 | under every interleaving, successful claims of a job are its attempts and never exceed its maximum |
| `JobProtocol.ExecutedIsNotRunnable` | services/jobs.py:186-214 | a job executed by a worker heard from in time cannot be claimed |
| `JobProtocol.StepKeepsLease` | services/jobs.py:154-606 | every step keeps at most one executing worker per job |
| `JobProtocol.AtMostOneExecutes` | services/jobs.py:154-606 | over every run with timely heartbeats at most one worker executes a job |
| `JobProtocol.QueueIsSafe` | services/jobs.py:154-606 | both guarantees from an empty queue |
| `JobProtocol.TimedOutIsOverwrittenExactly` | services/jobs.py:434-449 | a timed-out job changes status in a step exactly when a worker is still executing it |
| `JobProtocol.OneRunPerClient` | services/jobs.py:93-110 | with deduplication and single attempts no run has two active jobs for one client and kind |
| `JobProtocol.RetriedTimeoutDoublesUp` | services/jobs.py:461-475 | with any number of retries a timed-out run can be requeued beside its replacement |
| `JobProtocol.DedupeHoldsExactly` | services/jobs.py:93-110 | deduplication keeps one active run per client over every run exactly when jobs get a single attempt |
| `Guardrails.RejectionNamesItsTicker` | orchestrator.py:159-171 | the parse recovers a well-formed ticker from its rejection |
| `Guardrails.RejectionExcludesExactly` | orchestrator.py:159-174 | a rejection excludes its ticker exactly when the ticker is well formed |
| `Guardrails.GuardrailGate` | orchestrator.py:71-202 | the gate's loops are the gate of the specification |
| `Guardrails.ExclusionsAreExact` | orchestrator.py:153-176 | exclusions are exactly what was there, what was tax-blocked and the tickers messages lead with |
| `Guardrails.AtMostFourPasses` | orchestrator.py:186-202 | research runs at most MAX_RESEARCH_ATTEMPTS + 1 times |
| `Guardrails.ExclusionsOnlyGrow` | orchestrator.py:102-103 | exclusions only grow over a run |
| `Guardrails.PassesAreDisjoint` | agents/stock_research.py:406-408 | when suitability completes on well-formed tickers, the candidate sets of the passes are pairwise disjoint |
| `Guardrails.SurvivorsAreClear` | orchestrator.py:113-150 | no survivor carries a wash-sale flag, and an unverified assessment lets nothing through |
| `Guardrails.ProviderAvoidsExclusions` | agents/rebalance.py:79-119 | at most three instruments are offered for a class, all of it, quoted, not held and outside the exclusions |
| `Guardrails.NoRejectedTickerIsBought` | agents/rebalance.py:79-128 | no planned purchase names a ticker that any pass rejected or tax-blocked |
| `Resilience.RateLimiter.TryAcquire` | services/resilience.py:219-229 | one turn inside the lock: refill, then take or say how long to wait |
| `Resilience.TokensAreConserved` | services/resilience.py:219-229 | over any run, tokens granted plus tokens left are at most tokens at the start plus what flowed in, and stored tokens stay within the capacity |
| `Resilience.BurstThenRate` | services/resilience.py:204-230 | between two attempts at most the capacity plus rate times time is granted |
| `Resilience.RateLimiter.Acquire` | services/resilience.py:219-230 | the loop, a turn at each time the caller wakes, is the loop of the specification |
| `Resilience.WaitingSucceedsExactly` | services/resilience.py:219-230 | a caller without competition that sleeps as told, a second at most, and has turns enough acquires exactly when it asks for no more than the capacity; above it, never |
| `Resilience.CircuitBreaker.BeforeCall` | services/resilience.py:162-171 | calls pass exactly when closed or cooled down |
| `Resilience.CircuitBreaker.RecordFailure` | services/resilience.py:181-195 | a failed probe restarts the cooldown; the threshold opens the breaker once |
| `Resilience.OpensAtThreshold` | services/resilience.py:162-195 | over any calls, successes and failures, a breaker that began closed is open exactly when the failures with no success between them reached the threshold, and opens at the failure that reaches it |
| `Resilience.ProbesUntilOutcome` | services/resilience.py:167-171 | after the cooldown every call passes until an outcome is recorded |
| `Resilience.FailedProbeRestarts` | services/resilience.py:182-188 | a failed probe restarts the whole cooldown |
| `SlidingWindow.RateState.RateLimit` | server.py:253-283 | the call in place is the call of the specification |
| `SlidingWindow.TableIsBoundedExactly` | server.py:257-283 | a call ends within the bound exactly when it admits its caller or had room for it; with a positive limit a table within its bound stays so |
| `SlidingWindow.RunStaysBounded` | server.py:253-283 | any run of calls with positive limits ends within the bound |
| `SlidingWindow.SweepDropsExpired` | server.py:273-278 | the sweep removes only fully expired keys |
| `SlidingWindow.SweepForgetsExactly` | server.py:273-278 | what the sweep forgets of a key with a longer window, exactly |
| `SlidingWindow.DecidesByHistory` | server.py:258-271 | a call is admitted exactly when the key's true admissions in the window are below the limit |
| `SlidingWindow.CleaningSparesExactly` | server.py:273-281 | a call keeps every live key exactly when no swept key's last admission lies between the two cutoffs and no evicted key is live |
| `SlidingWindow.OneWindowEvictsLiveExactly` | server.py:273-281 | with one window for all keys, no live key is evicted exactly when none is evicted at all |
| `SlidingWindow.NoKeyExceedsItsLimit` | server.py:253-283 | over any run that drops no live key, each key with its own limit and window, every key has at most its limit of admissions in any window |
| `SlidingWindow.FreshLimiterIsSafe` | server.py:253-283 | the same from an empty table, which also stays within its bound |
| `SlidingWindow.ShorterWindowForgets` | server.py:273-278 | an hourly key with a limit of one is admitted at 0 s and at 101 s: a one-minute caller swept it at 100 s |
| `Performance.TimeWeightedReturn` | services/performance.py:232-262 | the loop links the periods of the specification |
| `Performance.ReturnIgnoresFlows` | services/performance.py:232-262 | a strategy's linked growth is the product of its own growth, whatever the flows |
| `Performance.ReturnsIgnoreFlows` | services/performance.py:442-446 | the period returns behind the risk figures see no flows either |
| `Performance.MaxDrawdown` | services/performance.py:337-360 | the result is the worst fall from a peak; with no return below minus one, no fall from any positive point to any later one is worse |
| `Performance.SolveRate` | services/performance.py:265-304 | no answer exactly without a sign change; otherwise a near-root or the middle of a bracket halved each time, inside the bounds |
| `Performance.EffectsExplainExcessExactly` | services/performance.py:584-641 | attribution explains the excess return exactly when both weights add up to the same or the benchmark returned nothing |
| `Audit.AuditLog.Record` | services/audit.py:120-184 | one row appended, following its organisation's last |
| `Audit.AuditLog.VerifyChain` | services/audit.py:187-232 | intact exactly when the chain is accepted; otherwise the first row that does not fit |
| `Audit.RecordKeepsChains` | services/audit.py:141-175 | recording keeps every organisation's chain accepted and touches only its own |
| `Audit.EveryRunVerifies` | services/audit.py:141-175 | whatever organisations interleave, every chain verifies |
| `Audit.LastHashFixesChain` | services/audit.py:93-117 | two accepted chains with the same last hash agree on every hashed field of every row |
| `Audit.TamperingIsRejected` | services/audit.py:203-232 | any edit, deletion, insertion or reordering before a kept last row is rejected |
| `Audit.TruncationIsAccepted` | services/audit.py:203-232 | dropping rows from the end is not detected |
| `Audit.LabelsAreNotProtected` | services/audit.py:93-117 | nor is a change to an unhashed field |

## Left out

- Binary floating point, rounding of money to 1e-6 and of shares to 1e-8 on each write, and Python's tie-breaking in `round`: arithmetic is exact.
- Suitability.Distribute: the full deployment is stated for at most six names without sectors, which is what six passes allow; limits and the common level are stated for any number of names. With tolerances, deployment also asks that no positive weight is too small for the loop to notice.
- ClassTargets.BuysNeverOvershoot: stated when no ticker is offered for two asset classes.
- PlanProofs.PlanIsCarriedOut: stated in whole shares and without proportional commission, with no order open on the client's accounts and none of them in debit; `EstimateIsExact` and `SaleEstimateIsExact` say when the estimate is exact otherwise, and `RoundingStaysNear` how far a fractional trade may miss. The other results about executing a whole plan share these conditions.
- LedgerRuns.RunKeepsInv: runs do not resubmit a failed order; `ShortSaleExactly` says what happens when one does. Orders are created with an open status, as every caller does.
- SlidingWindow.NoKeyExceedsItsLimit: each key has one limit and one window throughout, time is nondecreasing, and no call drops a live key; `ShorterWindowForgets` is a run in which one does.
- WashSales.RepurchasesDeferExactly: repurchases follow one another with no sale between them.
- JobProtocol.AtMostOneExecutes: assumes that every executing worker whose job is still marked running is heard from within the stale bound; worker threads of one process share an identifier, which is not modelled.
- Guardrails: feedback text, detail messages and characters outside ASCII; the approval gate and its reasons.
- Performance.SolveRate: the net present value is a parameter; powers of a rate, volatility, Sharpe ratio and benchmark statistics are left out.
- Symbols arrive upper-cased and stripped, the lot method is one of the four, and no ticker is literally "CASH"; the normalisations are not modelled.
- Audit rows written beside orders, report text, rationales, notes, metrics and logging.
- `execute_plan`, settlement dates, withdrawable cash, loss harvesting, corporate data and policy resolution.
- The asset classes a plan ranks arrive as an alphabetical list, and an accounts' active flag as the set of accounts given.
- HTTP endpoints, authentication, dashboards, language-model calls, market-data providers and the statistics libraries.
