# Paper futures desk: a verified model

This project models the deterministic core of a paper-only futures desk and proves what its modules
promise.  Money and quantities are exact reals, time is an integer count of microseconds, and a SHA-256 is
the value it digests.  `dafny verify dfyconfig.toml` checks everything.

## The modules

Ledger and reconciliation
- `LegLifecycle`, `LegLaws`, `LegIdentity`: what one symbol's reconciliation does to its leg, and the laws of that step.
- `Ledger`, `LedgerLaws`, `BookLaws`, `LegOrder`: the account as a value, runs of operations, and the laws
  that span them: conservation, balance, targets reached, independence of order.
- `Billing`: what a run costs, in numbers.
- `PaperAccount`: the class the desk mutates, proved against those functions.
- `Reconcile`, `CycleFacts`: staging on a copy, the achieved-safety check, publishing, and where a cycle ends;
  `Exposure`: what that check means for the account when marks move.

Funding
- `FundingSchedule`, `FundingCoverage`, `FundingHistory`, `ExecutionWindow`: boundaries, the proof that an
  observation is one schedule or one switch, collection and runs of it, and the gate that lets a basket
  settle first; `FundingRuns`: what runs of settlements credit a position.

Crash protocols
- `Directives`: the directories as a transition system with power loss; `DirectiveSurvival`: when a payload
  survives it; `DirectiveUniqueness`: when an inode is consumed once; `DirectiveLifecycle`: the code, with
  arbitrary interference between any two steps.
- `HeartbeatState`, `HeartbeatOrder`, `Heartbeat`, `HeartbeatReplay`: staging, ten durable writes, recovery;
  `HeartbeatIntegrity`: what its verification commits to.

Basket execution
- `DecisionBook`: from the book to what the audit wants of each symbol, and its agreement with the account.
- `Lots`, `ClipPlan`, `Basket`, `BasketGates`; `Admission`: whether the account admits an accepted basket.
- `OrderBook`, `BidBook`: buying from the asks and selling into the bids.

Selection and economics
- `Cohorts`, `Payback`, `RestartLineage`, `WeeklySnapshot`.

`Results`, `Sums`, `Sets` and `Sorting` are shared.

## What the proofs found

- A held seat can change role without its old lifecycle being journaled: when nothing is traded and the
  target is a hair (within 1e-12) below the held quantity, the role transfer is skipped and the label is
  overwritten (`LegLaws.SilentRoleChangeIff`).
- A settlement window cannot be proved when either of its clocks falls inside the one-second lag between a
  boundary and its print.  An end inside the lag is cured by a later end; a clock inside it is not, and no later
  proof can succeed.  On an honest feed of one schedule nothing else can go wrong
  (`FundingHistory.SettleableExactly`, `FundingHistory.LatePrintBlocks`, `FundingHistory.StraddledWindows`).
- A claim can lose its payload to a power loss exactly if the producer overwrites the inbox name after the claim
  is bound to it and before the claim name holds it (`DirectiveSurvival.PayloadSurvivesPowerLoss`,
  `DirectiveSurvival.OverwritingAnExposedNameLosesIt`, `DirectiveSurvival.LossIsReachable`).
- A directive taken by mistake goes back to the inbox and the next claim takes it, unless a newer one is queued by
  then; in that case it stays in the claim name, and every later recovery and claim fails and leaves it there
  (`DirectiveLifecycle.Desk.RecoverCompleted`, `DirectiveSurvival.MistakeIsReachable`).
- A directive can be consumed twice if its producer overwrites a crash-restored inbox name before recovery
  retires it and a second power loss undoes the overwriting
  (`DirectiveUniqueness.OverwritingARestoredNameConsumesTwice`).
- Staging checks only that the stamp does not precede the account event.  A heartbeat it accepts survives power
  losses exactly if its identity is not in use and it sorts after the latest official row by stamp and then
  identity (`HeartbeatReplay.RecoverableExactly`).  Either condition can fail for a record it accepts:
  - a strictly later heartbeat for a slot already published is refused by every recovery and stays pending
    (`HeartbeatReplay.ReusedIdentityIsStuck`, `HeartbeatReplay.ReusedSlotIsStaged`);
  - one with a tied stamp and an earlier slot is published without complaint, its history no longer verifies and
    nothing can be staged after it; a power loss after its row is written cannot be recovered from
    (`HeartbeatReplay.MisplacedIsPublished`, `HeartbeatReplay.MisplacedIsStuck`, `HeartbeatReplay.MisplacedIsStaged`).
- A heartbeat without a schedule slot silently replaces an existing row whose slot equals its time stamp
  (`Heartbeat.AppendKeepsOtherIdentities`, `Heartbeat.SlotlessRecordDropsARow`).
- Haircut depth keeps the average price except when a level boundary leaves a remainder between the dust
  limit and the dust limit divided by the haircut; the error always favours the order, so the curve
  lookup stays conservative (`OrderBook.HaircutKeepsAverageExactly`, `OrderBook.HaircutCanCheapen`,
  `BidBook.HaircutKeepsBidAverageExactly`).
- Cohort selection is optimal only for windows at least as long as the tolerance
  (`Cohorts.ShortWindowLosesOne`); in finish order it is optimal always.
- The break-even solver reports none for break-evens reached at a rate of at most 1e-9, and for a zero
  friction unless the rate clears that cut-off (`Payback.PaybackIsLeast`, `Payback.CutOffMissesAPayback`,
  `Payback.NothingToRepay`).
- A reduction too small to count as changed turnover escapes the liquidity check; if the exchange filters leave it
  unfilled, the account refuses the whole execution (`Admission.AdmittedExactly`, `Admission.StrandedOrder`).
- The frictions of a flip to a quantity of at most 1e-12 include a share that no leg ever carries
  (`LegLaws.OrphansExactly`); in every other history the books balance to the last unit
  (`LedgerLaws.BooksBalanceExactly`).
- In the lifecycle check before a fill, `math.isclose` is called without a relative tolerance and therefore
  uses its default of 1e-9, not the 1e-12 of the surrounding comparisons; the model follows the code.

## Model

| member | source | states |
|---|---|---|
| LegLaws.LegConserves | futures_fund/account.py:568-845 | For open, increase, reduce, close, flip, role transfer and no-op alike, at every later mark: the value of the leg plus the price P&L banked moves only by the traded quantity times the distance of that mark from the execution mark, less what a sub-dust pop forgoes; and the quantity reached is exact |
| LegLaws.LegReachesTarget | futures_fund/account.py:568-845 | A reconciled leg ends within the 1e-12 comparison tolerance of its target, whatever it held |
| LegLaws.LegJournals | futures_fund/account.py:739-845 | Every fee, slippage, funding and price amount ends on the leg still held, on a lifecycle closed, or on the account alone; on the account alone only in a flip to a quantity of at most 1e-12 |
| LegLaws.OrphansExactly | futures_fund/account.py:747-845 | What a step charges the account without a leg is exactly the share of the opening side in the bill of such a flip, which leaves no leg, and otherwise nothing |
| LegLaws.BlendedValue | futures_fund/account.py:713-737 | Volume-weighted blending keeps the cost of what is held: value at any mark is the old value plus the new fill from the execution mark |
| LegLaws.FlipSplitsFrictions | futures_fund/account.py:747-845 | A flip bills the closing and the opening lifecycle in proportion to the quantity each traded |
| LegLaws.LegIdempotent | futures_fund/account.py:638-648 | Reconciling a leg again with the same request changes nothing: no trade, no friction, no lifecycle |
| LegLaws.LegLabels | futures_fund/account.py:589-648 | A leg still held always carries the planned role, and the planned thesis when there is one |
| LegIdentity.LifecycleIdentity | futures_fund/account.py:589-845 | One reconciliation ends at most one lifecycle, that of the leg held before, journaled under the symbol, side, opening, role and thesis it had. What is held afterwards has the role and thesis of the book, unless execution stopped short of the requested side, when it keeps its own; it continues the old lifecycle with its side and opening if none was ended, and otherwise opens with this execution |
| LegLaws.LegStaysWellFormed | futures_fund/account.py:568-845 | A reconciled leg keeps a positive quantity and entry price |
| LegLaws.SilentRoleChangeIff | futures_fund/account.py:623-648 | A kept leg changes role without its old lifecycle being journaled exactly when nothing is traded, the role differs, and the target is a hair below the held quantity or changes the direction label |
| LegLaws.SilentRoleChangeWitness | futures_fund/account.py:623-648 | A concrete leg for which that happens |
| LegLaws.ForgoneIsDust | futures_fund/account.py:747-845 | What popping a leg leaves unvalued is at most 1e-12 contracts |
| PaperAccounts.PaperAccount.constructor | futures_fund/account.py:135-175 | A new account holds its cash, no position, no total and no funding clock |
| PaperAccounts.PaperAccount.CopyOf | futures_fund/desk_cycle.py:1336-1336 | The staging copy starts in the state of the account it copies |
| PaperAccounts.PaperAccount.Publish | futures_fund/desk_cycle.py:1437-1439 | Copying every field back makes the account the staged generation |
| PaperAccounts.PaperAccount.DrainClosedLegs | futures_fund/account.py:189-198 | Returns every closed leg in order and leaves the rest of the account unchanged |
| PaperAccounts.PaperAccount.MarkedEquity | futures_fund/account.py:271-288 | Cash plus the unrealized P&L of the marked positions |
| PaperAccounts.PaperAccount.ChargeFrictions | futures_fund/account.py:739-745 | Takes fee and slippage from cash into the account totals and, if a leg carries them, onto the leg |
| PaperAccounts.PaperAccount.RollSeatLifecycle | futures_fund/account.py:211-264 | Moves the unrealized P&L into cash, journals the old lifecycle and restarts attribution at the mark: exactly the specified role transfer; at any marks that price the leg, equity is unchanged |
| PaperAccounts.PaperAccount.ReconcileOpposite | futures_fund/account.py:747-845 | Reduce, close or flip in place ends in exactly the specified outcome for the leg and touches no other |
| PaperAccounts.PaperAccount.ReconcileSymbol | futures_fund/account.py:568-737 | One pass of the reconcile loop ends in the specified step for its symbol, or raises with at most a role transfer done |
| PaperAccounts.PaperAccount.CheckExecution | futures_fund/account.py:536-567 | The checks before any mutation: the execution targets cover the consolidated book and lifecycle changes carry a full-fill proof |
| PaperAccounts.PaperAccount.ApplyFills | futures_fund/account.py:452-737 | Reconciles every consolidated and dropped symbol once; a completed call is the specified run over the book, whose bill `Billing.RunIsBilled` gives in numbers |
| PaperAccounts.PaperAccount.StageSymbol | futures_fund/account.py:405-439 | The loop over one symbol accepts its events exactly when each lies in the window with a usable mark and no instant occurs twice; it then stages their amounts in order |
| PaperAccounts.PaperAccount.StageEvents | futures_fund/account.py:379-439 | All checks of an exact settlement together accept exactly the admissible ones, and stage the amounts of every held symbol |
| PaperAccounts.PaperAccount.StageRates | futures_fund/account.py:309-345 | All checks of a settlement at observed rates together accept exactly the admissible ones, and stage one aggregate amount per held symbol |
| PaperAccounts.PaperAccount.SettleFundingEvents | futures_fund/account.py:361-450 | Checks the clock, the intervals and every event of every held symbol, then posts the exact funding of every event and advances the clock; or raises and changes nothing |
| PaperAccounts.PaperAccount.SettleFunding | futures_fund/account.py:290-359 | Checks the clock and every rate, interval and mark, then posts one rate over every boundary crossed since the clock and advances it; or raises and changes nothing |
| LedgerLaws.StepConserves | futures_fund/account.py:568-737 | One symbol changes equity by exactly minus its fees and slippage, less the dust it pops |
| LedgerLaws.RunConserves | futures_fund/account.py:568-737 | So does a whole reconciliation, over every mix of transitions and every order |
| LedgerLaws.RunBalances | futures_fund/account.py:739-845 | A reconciliation keeps every aggregate equal to the sum over open, closed and drained legs plus the frictions no leg carries, which grow only in its flips into dust |
| LedgerLaws.RunOrphans | futures_fund/account.py:747-845 | The frictions of a run no leg carries are the sum over its symbols of the opening share of each flip into dust |
| LedgerLaws.InterruptionBalances | futures_fund/account.py:568-737 | A reconciliation that raises part-way keeps the books balanced too |
| LedgerLaws.PostingBalances | futures_fund/account.py:379-450 | Posting funding keeps the books balanced |
| LedgerLaws.PostingConserves | futures_fund/account.py:379-450 | Posting funding moves equity by exactly the funding settled |
| LedgerLaws.NextBalances | futures_fund/account.py:189-198 | Every operation of the account, drains, clock starts and interval restamps included, keeps the books balanced and the initial cash recorded |
| LedgerLaws.RunOps | futures_fund/account.py:135-845 | In every account reachable by any sequence of operations: cash is the initial cash plus realized P&L plus net funding less fees and slippage, each aggregate is the sum over its legs and the flips into dust, and nothing held is dust |
| LedgerLaws.BooksBalanceExactly | futures_fund/account.py:135-845 | In every account reached without a flip into dust each aggregate is exactly the sum over the legs open, waiting to be drained, and drained |
| LedgerLaws.NetPnlIsEquityGained | futures_fund/pnl_attribution.py:26-88 | In every reachable account and at any marks, the reported net P&L is the closing equity less the initial cash |
| BookLaws.FillsReachTargets | futures_fund/account.py:568-737 | After a completed run every priced symbol holds its net target within the comparison tolerance, every unpriced one is flat, and nothing below dust is held |
| BookLaws.DroppedIsFlat | futures_fund/account.py:530-538 | A held symbol absent from the new book is gone afterwards exactly when its target, explicit or zero, is dust and not within tolerance of the holding; so always when that target is zero |
| BookLaws.ResendIsNoOp | futures_fund/account.py:638-648 | Sending the same book again, with or without explicit execution targets, leaves the whole account exactly as it is, in any symbol order |
| BookLaws.ConsolidatedNet | futures_fund/account.py:500-529 | Consolidation gives every symbol of the book, and no other, its signed net notional and a role |
| BookLaws.AnchoredTarget | futures_fund/desk_cycle.py:182-228 | The quantity a decision asks for does not depend on the execution mark |
| BookLaws.UnchangedLegIsNoOp | futures_fund/desk_cycle.py:208-213 | A leg the decision leaves unchanged, with an explicit execution target or without one, trades nothing, pays nothing and closes nothing at any execution mark |
| DecisionBook.Decide | futures_fund/desk_cycle.py:246-256 | The loop over the legs nets the signed decision notional and the role of every symbol |
| DecisionBook.NetIsLongsLessShorts | futures_fund/account.py:500-529 | The net target of a symbol is the total size of its long legs less that of its short legs |
| DecisionBook.DecidedAsConsolidated | futures_fund/desk_cycle.py:246-256 | The audit and the account find the same symbols and the same roles in any book, and the same nets in a book of positive sizes |
| DecisionBook.WantIsTheAccountsTarget | futures_fund/desk_cycle.py:257-271 | At every execution mark the audit asks for exactly the quantity, and the role, the account is then steered to: the anchored consolidated net over the execution mark; with a decision mark that is the size of the longs less that of the shorts over the decision mark |
| DecisionBook.UnchangedLegOrdersNothing | futures_fund/desk_cycle.py:274-290 | A leg the book leaves where it is requests nothing, turns over nothing, fills nothing and is refused nothing, whatever the execution mark |
| LegOrder.StepIgnoresThesis | futures_fund/account.py:568-737 | Money, quantities, roles and journal amounts of a step do not depend on the thesis it carries |
| LegOrder.RunOrderIsImmaterial | futures_fund/account.py:568-737 | Reconciling the same targets in two orders raises in both or neither and ends in the same book |
| LegOrder.PermutedTargets | futures_fund/account.py:500-529 | Permuting the legs of a book permutes neither net targets nor roles |
| LegOrder.LegOrderIsImmaterial | futures_fund/account.py:500-737 | However the legs are ordered, applying the book raises or succeeds alike and ends in the same quantities, prices, roles, cash and totals |
| Billing.LegIsBilled | futures_fund/account.py:652-737 | One symbol is billed for the difference of its signed holdings: quote value raised by the slippage of a buy and lowered by that of a sell, times 0.0002 for a maker and 0.0005 otherwise; one basis point of slippage where no cost inputs are given; only a target of dust leaves no holding to count from |
| Billing.RunIsBilled | futures_fund/account.py:652-745 | A completed run adds to the fees and the slippage paid exactly the sum of those bills |
| Billing.TakerCostsFiveHalves | futures_fund/costs.py:12-16 | The same book run as taker everywhere costs 5/2 of the fees of running it as maker everywhere |
| Reconcile.Stage | futures_fund/desk_cycle.py:1336-1386 | Staging is the specified settlement, run over the book and restamping, or stops for a stated reason |
| Reconcile.CheckAchieved | futures_fund/desk_cycle.py:1190-1297 | The achieved-safety check decides exactly the stated bounds on the marked account; what they mean in money is `Exposure.SafeExactly` |
| Reconcile.CommonShockIsBounded | futures_fund/desk_cycle.py:1190-1297 | What the bounds are for: if every mark moves by one fraction, equity of an accepted book moves by at most that fraction of 11.5% of itself |
| Exposure.ResponseScales | futures_fund/account.py:271-288 | A move of the marks that is larger by a factor changes equity by that factor |
| Exposure.SafeExactly | futures_fund/desk_cycle.py:1190-1297 | The check accepts exactly the solvent accounts, within its tolerance of 1e-12, whose gross exposure, which is what every position going against it by its whole value costs, lies between the minimum deployment and 1.15 of equity, and whose equity changes by at most: a tenth of gross if all marks double; 0.15 of equity if the market doubles with each symbol following by its beta, a missing one read as 1, and 0.60 for one symbol of it; 0.35 of gross if one symbol doubles; half of equity if bitcoin doubles and sits in a hedge seat |
| Exposure.MarketShockIsBounded | futures_fund/desk_cycle.py:1229-1273 | So for a market move of any size and sign an accepted account moves by at most that share of it, in all and symbol by symbol |
| Reconcile.ReconcileBook | futures_fund/desk_cycle.py:1300-1439 | A raising call leaves the account unchanged and raises only because funding, admissibility, a symbol, re-validation or a bound failed; a successful one publishes exactly the staged settlement and fills, re-validated and within the bounds, and reports its amounts |
| Reconcile.FundingConserves | futures_fund/desk_cycle.py:1336-1361 | The settlement part of a cycle moves equity by exactly the funding settled |
| Reconcile.ReconciliationConserves | futures_fund/desk_cycle.py:1336-1439 | A cycle changes equity at the execution marks by exactly funding settled less fees less slippage, less the dust popped, which is bounded symbol by symbol |
| CycleFacts.CycleReachesTheBook | futures_fund/desk_cycle.py:1333-1439 | Whatever was held before and however funding was settled, a completed cycle leaves every symbol with an execution mark within the comparison tolerance of what the book asks for: the explicit target, or the size of its longs less that of its shorts over the decision mark, over the execution mark without one |
| CycleFacts.PricedSize | futures_fund/desk_cycle.py:1367-1368 | Legs of a symbol with a positive mark are all filled, and those of any other symbol are not |
| CycleFacts.TurnoverIsTraded | futures_fund/desk_cycle.py:1362-1397 | The reported turnover is the sum over the symbols of the quantity traded at the mark |
| CycleFacts.CycleStamps | futures_fund/desk_cycle.py:1339-1386 | A cycle that settles funding leaves the clock at the fill, and one that does not only starts that of an empty account; observed intervals are kept for exactly the symbols still held |
| Reconcile.PublishedIsReachable | futures_fund/desk_cycle.py:1300-1439 | What a successful cycle publishes from a reachable account is itself reachable, so its books balance, its net P&L is the equity gained and it holds no dust |
| FundingSchedule.BoundaryIsMultiple | futures_fund/costs.py:31-33 | The hour-of-day test recognises exactly the multiples of the interval on the UTC clock |
| FundingSchedule.ExpectedFundingTimestamps | futures_fund/funding_history.py:108-130 | The hourly walk lists exactly the boundaries of the window, in order, and refuses exactly the non-standard intervals |
| FundingSchedule.CountFundingEvents | futures_fund/costs.py:36-53 | The counting loop returns the number of boundaries after entry and up to exit |
| FundingSchedule.WindowsCompose | futures_fund/costs.py:36-53 | Adjacent windows share no boundary and together have all of the longer one |
| FundingSchedule.CountInClosedForm | futures_fund/costs.py:36-53 | The count is the difference of two floor divisions |
| FundingSchedule.Nested | futures_fund/funding_history.py:108-130 | Every boundary of a coarser standard interval is one of each finer interval |
| FundingSchedule.PrintNamesItsHour | futures_fund/funding_history.py:133-140 | A print is mapped to a boundary exactly when that is an hour at most one second before it |
| FundingCoverage.CutsAreComplete | futures_fund/funding_history.py:193-216 | Some instant up to the window end explains the observation as old boundaries before it and new ones from it on, exactly when one of the finitely many candidate cuts does |
| FundingCoverage.IntervalCoverageProof | futures_fund/funding_history.py:143-224 | Accepts a stable window exactly when the observation is the schedule, and a changed one exactly when one switch explains it; reports all matching cuts, in order |
| FundingCoverage.AcceptedIsBetween | futures_fund/funding_history.py:193-216 | An accepted transition misses no boundary of the coarser schedule and has none outside the finer |
| FundingCoverage.MatchingCutsAreContiguous | futures_fund/funding_history.py:193-216 | Between two cuts that explain the observation every cut does |
| FundingHistory.FetchAll | futures_fund/funding_history.py:258-281 | Pagination returns exactly the settlements after the clock; the no-progress check cannot fire |
| FundingHistory.ByTimestamp | futures_fund/funding_history.py:283-305 | Keying by timestamp succeeds exactly when the window has no repeated timestamp and no bad mark, and then keeps all of it |
| FundingHistory.ByBoundary | futures_fund/funding_history.py:307-317 | Mapping to boundaries succeeds exactly when each settlement prints at a boundary of its own |
| FundingHistory.CollectSymbol | futures_fund/funding_history.py:255-326 | Accepts a window exactly when its settlements are well keyed, one per boundary, and covered; returns all of them in time order |
| FundingHistory.StableRunIsExact | futures_fund/funding_history.py:176-191 | Over any run of accepted windows with one interval, the boundaries charged are exactly the boundaries between the first and the last clock, each once, and as many as the count |
| FundingHistory.AnyRunIsBetween | futures_fund/funding_history.py:143-224 | Over any run whatever, no boundary is charged twice, all lie on the hour between the clocks, and no eight-hour boundary is missed |
| FundingHistory.LatePrintBlocks | futures_fund/funding_history.py:283-326 | Under any schedule or switch: if the clock lies between a boundary and its late print, no window that contains the print is ever accepted |
| FundingHistory.SettleableExactly | futures_fund/funding_history.py:283-326 | On a stable schedule and a feed that prints every boundary once within the lag, a window can be settled exactly when neither its start nor its end falls between a boundary and its print |
| FundingHistory.SettleableOutsideTheLag | futures_fund/funding_history.py:133-140 | So a caller that keeps both clocks a lag away from the boundaries can always settle |
| FundingHistory.LaterPrintsPlayNoPart | futures_fund/funding_history.py:283-305 | Prints after the window end do not change whether it can be settled, so neither does the moment the feed is read |
| FundingHistory.StraddledWindows | futures_fund/funding_history.py:283-326 | Concrete honest feeds for both failures: a clock just before a late print, and a window end just before it |
| FundingRuns.AcceptedIsAdmissible | futures_fund/account.py:379-447 | A settlement whose windows collection accepts at the account clock passes every check of the account, and so fails only for cash |
| FundingRuns.RunCredits | futures_fund/account.py:379-450 | Over any run of settlements a position is credited minus its signed quantity times mark times rate for every event, and nothing else of it changes |
| FundingRuns.AccruedIsExact | futures_fund/account.py:379-450 | On a stable schedule the funding accrued over a run of collected settlements is that amount summed over exactly the boundaries between the first and the last account clock, each once |
| FundingRuns.RatesAreCharged | futures_fund/account.py:290-359 | A settlement at observed rates moves the accrued funding of a position by minus its signed quantity times mark times rate, times the number of boundaries between the clocks, a difference of two floor divisions |
| ExecutionWindow.VerifyExecutionWindowFundingSafety | futures_fund/funding_history.py:333-472 | Accepts exactly the baskets in which no applicable boundary falls between the first and the last observation, and names an offending symbol otherwise |
| ExecutionWindow.SettlingFirstIsExact | futures_fund/funding_history.py:374-472 | For an accepted basket and a proof of any window that names every event inside it: charging every event up to the last observation with the pre-basket quantity equals charging each boundary with the quantity held at it, whenever the leg was filled |
| ExecutionWindow.CollectedIsExact | futures_fund/funding_history.py:374-472 | So it is for the settlements collected up to the last observation |
| ExecutionWindow.NoBoundaryInside | futures_fund/funding_history.py:403-450 | Under an accepted proof that covers its own window no boundary shared by the two schedules falls inside the observations; on a stable schedule none at all |
| ExecutionWindow.CreditsAreSettledFirst | futures_fund/account.py:379-447 | What the account posts for a position is exactly that pre-basket charge |
| ExecutionWindow.NewEntryOwesNothing | futures_fund/funding_history.py:374-472 | A symbol first held in the basket owes nothing at any boundary up to the settlement |
| Directives.StepKeeps | futures_fund/directives.py:590-697 | Every step of the code, the producer, the kernel and the power supply keeps the invariant of the durable directories |
| Directives.RunKeeps | futures_fund/directives.py:590-783 | So it holds in every reachable state of every interleaving |
| DirectiveSurvival.PayloadSurvivesPowerLoss | futures_fund/directives.py:590-697 | After a power loss at any point of any run, an active intent whose receipt is not bound still has its payload under a name with durable bytes, unless an enqueue overwrote the inbox name while the claim was bound to it and no claim name held it yet |
| Directives.OnlyReceiptedInodesAreUnlinked | futures_fund/directives.py:623-674 | No step of the code takes an inode out of sight but the release of its own receipted claim; an inbox entry with another inode is never removed |
| DirectiveSurvival.OnlyReceiptedInodesLeaveTheDisk | futures_fund/directives.py:997-1052 | An inode in sight loses its last durable name only if its own receipt is bound |
| DirectiveSurvival.OverwritingAnExposedNameLosesIt | futures_fund/directives.py:700-733 | The condition is exact: from every reachable state in which a bound inode is exposed, overwriting it can be followed by a power loss that leaves its claim without a payload |
| DirectiveSurvival.LossIsReachable | futures_fund/directives.py:700-733 | Such a loss occurs: the producer replaces its directive between the fsync of the intent and the rename of the source |
| DirectiveSurvival.MistakeIsReachable | futures_fund/directives.py:601-607 | A directive can be left in the claim name of another while a third is queued: the producer replaces its directive before the rename and again before it is put back |
| DirectiveSurvival.HeldUntilReceipted | futures_fund/directives.py:677-697 | From any reachable state, over any further steps, a claim name that durably holds its payload keeps it until the receipt of that claim is bound, whatever the producer does |
| DirectiveSurvival.DurableUntilConsumed | futures_fund/directives.py:997-1052 | Over any run, a directive once durable stays durable unless a receipt bound it or its producer replaced it |
| DirectiveUniqueness.ConsumedAtMostOnce | futures_fund/directives.py:623-674 | In every run in which no enqueue overwrites a crash-restored name of a held claim, no inode is bound by two receipts |
| DirectiveUniqueness.OverwritingARestoredNameConsumesTwice | futures_fund/directives.py:623-674 | The condition is exact: from every state such a run reaches, the first overwriting of a restored name can be followed by steps after which two receipts bind the same inode |
| DirectiveUniqueness.RestoredIsReachable | futures_fund/directives.py:590-598 | A crash-restored name does occur: one power loss between the two fsyncs of taking the source |
| DirectiveLifecycle.SourceIsTheClaimed | futures_fund/directives.py:677-697 | An unbound intent with no payload name yet still has its source in the inbox, unless the producer overwrote it |
| DirectiveLifecycle.ShownMeansDurable | futures_fund/directives.py:623-674 | When no claimed directive is rewritten, a claim shown without a second name in the inbox has none on the disk either |
| DirectiveLifecycle.HeldSurvivesPowerLoss | futures_fund/directives.py:1125-1141 | So a held claim is held after a power loss |
| DirectiveLifecycle.StepKeepsInodes | futures_fund/directives.py:590-674 | No step of the code takes an inode out of sight but the consuming one, and that only the inode of its own claim |
| DirectiveLifecycle.Desk.RenameDurable | futures_fund/directives.py:590-598 | The rename and its two fsyncs, destination first, end with both directories durable |
| DirectiveLifecycle.Desk.RecoverDuplicateSource | futures_fund/directives.py:623-674 | Retires only a second name of the claimed inode, and without enqueues meanwhile refuses exactly when the quarantine holds another inode; a directive quarantined by mistake goes back unless a newer one is queued; never fails if nothing is rewritten while it is claimed |
| DirectiveLifecycle.Desk.RestoreMismatchedClaim | futures_fund/directives.py:601-607 | A renamed inode that is not the intended one goes back to an empty inbox and the intent is withdrawn, or a newer directive is queued and nothing moves; without enqueues meanwhile an empty inbox always gets it back; no directive loses its last name |
| DirectiveLifecycle.Desk.Materialize | futures_fund/directives.py:677-697 | Ends with the payload in its claim name or a refusal; from a claim root without payload names a refusal leaves the root empty, the source lost, or a newer directive queued; a refusal loses no directive; without enqueues meanwhile it refuses exactly a blocked claim; never refuses if nothing is rewritten while it is claimed; a held claim is left untouched |
| DirectiveLifecycle.Desk.Finalize | futures_fund/directives.py:997-1052 | A receipted claim ends consumed: no payload name, no intent, acknowledgement durable; only its own inode goes; without enqueues meanwhile it fails exactly on a blocked claim |
| DirectiveLifecycle.Desk.ConsumptionsAlwaysValid | futures_fund/directives.py:959-994 | The audit of historical acknowledgements never fails in a reachable state |
| DirectiveLifecycle.Desk.RecoverCompleted | futures_fund/directives.py:1090-1122 | Recovery ends idle, with the same claim pending, or with it consumed and acknowledged. Without enqueues meanwhile it fails exactly on a blocked claim, whatever happened before; a directive left in the claim name of another is never put back; no directive is lost but the one consumed; if the producer rewrites no directive while one is claimed it never fails, and running it again takes no step |
| DirectiveLifecycle.Desk.RecoverAfterPowerLoss | futures_fund/directives.py:1125-1141 | The same from whatever any power loss leaves of any reachable state, blocked or not |
| DirectiveLifecycle.Desk.NewIntent | futures_fund/directives.py:700-733 | The intent binds the inode the inbox still shows after its directory barrier; without one that inode was overwritten and the claim root stays empty |
| DirectiveLifecycle.Desk.ClaimNext | futures_fund/directives.py:736-788 | Which claim results, for every combination of active claim, completed cycle and inbox: the whole table when nothing is queued during the call, whatever happened before. A failing call from an empty root leaves it empty unless a newer directive is queued, and no directive is lost; a queued directive goes unclaimed only if its producer replaced it during the call |
| DirectiveLifecycle.Desk.ClaimQueued | futures_fund/directives.py:766-788 | With no claim in the way the inbox entry is claimed, and fails to be only if its producer replaced it; failing, the root is empty again or a newer directive is queued |
| HeartbeatState.Officials | futures_fund/heartbeat.py:318-319 | The chain is the official rows, each as often as in the ledger |
| HeartbeatOrder.OfficialsGrow | futures_fund/heartbeat.py:388-396 | Appending a record that sorts last puts it at the end of the chain and leaves the rest |
| Heartbeat.OnePerIdentity | futures_fund/heartbeat.py:320-327 | A verified history has one row per identity |
| Heartbeat.AppendKeepsOtherIdentities | futures_fund/heartbeat.py:371-386 | An append keeps exactly the rows of other identities; a slotted record replaces none, one without a slot replaces a row whose identity is its time stamp |
| Heartbeat.SlotlessRecordDropsARow | futures_fund/heartbeat.py:371-386 | A verified desk on which a staged heartbeat without a slot drops the row of another slot |
| Heartbeat.StateDirectory.Stage | futures_fund/heartbeat.py:534-617 | Staging succeeds exactly on a quiescent, verified state with the expected base, and then only the intent is written |
| Heartbeat.StateDirectory.AppendHeartbeat | futures_fund/heartbeat.py:358-401 | Inserts the record, finds it in place, or refuses without writing |
| Heartbeat.StateDirectory.AppendAccountEvent | futures_fund/state_transaction.py:489-506 | Appends the event once, or refuses without writing |
| Heartbeat.StateDirectory.Recover | futures_fund/heartbeat.py:626-821 | The recovery, cut short by a power loss after any number of durable writes, is exactly the specified attempt |
| HeartbeatReplay.CompletionKept | futures_fund/heartbeat.py:404-492 | Publishing disturbs no other generation |
| HeartbeatReplay.HistoryBeforeTheRow | futures_fund/heartbeat.py:304-355 | Before the row is appended recovery accepts the history whatever the record |
| HeartbeatReplay.ReferencesAlongTheWay | futures_fund/state_transaction.py:287-451 | After every durable write the account events verify, with the new one allowed to be pending |
| HeartbeatReplay.WriteAdvances | futures_fund/heartbeat.py:756-821 | Repeating a write already made changes nothing; the next one adds itself; only repeating the ledger row needs the record to sort last |
| HeartbeatReplay.AttemptAdvances | futures_fund/heartbeat.py:626-821 | A recovery from any intermediate state refuses nothing, undoes nothing, and with enough power completes, wherever the record sorts until its row is written |
| HeartbeatReplay.CrashesDoNotMatter | futures_fund/heartbeat.py:626-821 | After any series of power losses, each after any durable write, one uninterrupted recovery ends in the very state of an uninterrupted publication |
| HeartbeatReplay.PublishedVerifies | futures_fund/heartbeat.py:304-401 | That state has the new account, the record exactly once at the head of the chain, the event at the head of its chain, an intact completion, both chains verifying, and accepts the next heartbeat |
| HeartbeatReplay.MustSortLast | futures_fund/heartbeat.py:318-350 | Once its row is in the ledger the history verifies exactly when the record sorts after every official row |
| HeartbeatReplay.MisplacedIsPublished | futures_fund/heartbeat.py:626-821 | A record staging accepts is published and reports success exactly when its identity is not in use, wherever it sorts; if it does not sort last, nothing can be staged afterwards |
| HeartbeatReplay.MisplacedIsStuck | futures_fund/heartbeat.py:626-700 | If it does not sort last, a power loss between its row and the end of its publication leaves a state every recovery refuses and leaves as it is |
| HeartbeatReplay.RecoverableExactly | futures_fund/heartbeat.py:626-821 | A record staging accepts survives every series of power losses, in the published state and with every earlier row kept, exactly when its identity is not in use and it sorts after every official row |
| HeartbeatReplay.InUseIsNotPublished | futures_fund/heartbeat.py:626-821 | A record whose identity is in use is never published, slotless records over older rows included, wherever the power fails |
| HeartbeatReplay.ReusedIdentityIsStuck | futures_fund/heartbeat.py:626-700 | Over a published row of the same identity every recovery refuses the record and leaves its intent pending |
| HeartbeatReplay.ReusedSlotIsStaged | futures_fund/heartbeat.py:534-617 | A desk and a strictly later heartbeat for a published slot, which staging accepts, which sorts last, and which is stuck |
| HeartbeatReplay.MisplacedIsStaged | futures_fund/heartbeat.py:534-617 | A desk and a heartbeat that does not sort last, which staging accepts: a second one of the same time for an earlier slot |
| HeartbeatReplay.FirstHeartbeatIsStaged | futures_fund/heartbeat.py:534-617 | A desk without history can stage its first heartbeat |
| HeartbeatReplay.LaterHeartbeatIsStaged | futures_fund/heartbeat.py:534-617 | Over a published heartbeat a later one with unused identifiers can be staged and sorts last |
| HeartbeatReplay.RunsKeepTheChain | futures_fund/heartbeat.py:534-821 | Over any run of heartbeats from an empty desk, with increasing stamps and distinct identities and commits, each cut short by any number of power losses anywhere: the chain ends with exactly these heartbeats in order, and verifies |
| HeartbeatIntegrity.CompletionExactly | futures_fund/heartbeat.py:404-492 | A record is complete exactly when it repeats its own parts faithfully, its event is in a verified chain, and its generation is artifact by artifact the one it describes |
| HeartbeatIntegrity.ChainExactly | futures_fund/state_transaction.py:190-285 | Account events verify exactly when each names the one before it and starts from the account that one left, times never fall, and no identifier occurs twice |
| HeartbeatIntegrity.HeadDeterminesEvents | futures_fund/state_transaction.py:205-285 | The latest account event commits to every earlier one |
| HeartbeatIntegrity.HeadDeterminesHeartbeats | futures_fund/heartbeat.py:318-350 | The latest hashed heartbeat commits to every hashed one before it |
| HeartbeatIntegrity.EventsCorrespond | futures_fund/state_transaction.py:287-451 | With nothing pending the account events verify exactly when they form a chain, heartbeat events and complete hashed rows correspond one to one, and so do reconcile events and reconcile generations with their accounts |
| HeartbeatIntegrity.HeadsDetermineTheDesk | futures_fund/heartbeat.py:304-492 | Two verified desks with the same two chain heads have the same hashed heartbeats, the same generation of each, the same account events and the same reconcile accounts: no artifact can be altered, dropped or added without verification failing or a head changing |
| HeartbeatIntegrity.AlteredIntentIsRefused | futures_fund/heartbeat.py:626-700 | Recovery refuses, and touches nothing, if any part of the pending intent was altered beside its record |
| Lots.QuantizedIsLargestWithin | futures_fund/exchange.py:23-36 | Quantizing gives the largest whole number of lots within the quantity, on its side |
| Lots.QuantizeIsIdempotent | futures_fund/exchange.py:23-36 | Whole lots are left alone |
| ClipPlan.SizesAreExact | futures_fund/desk_cycle.py:508-528 | A split of so many lots into at most a hundred parts within the bounds exists exactly when the plan succeeds; the plan is one with the fewest parts, whose sizes differ by at most one |
| ClipPlan.AcceptableIsBetween | futures_fund/desk_cycle.py:487-515 | The lot bounds are exactly the exchange filters: minimum and maximum quantity and minimum notional |
| ClipPlan.AlignedExactly | futures_fund/desk_cycle.py:479-494 | A quantity stands for a number of lots exactly when that is the nearest positive one, the even of two, and lies within the tolerances of it |
| ClipPlan.FinalChecksPass | futures_fund/desk_cycle.py:529-542 | The two checks the plan makes of its clips never fail |
| ClipPlan.PlanSucceedsExactly | futures_fund/desk_cycle.py:457-543 | The planner succeeds exactly when the quantity is flat, or is lot-aligned and some valid way of sending it exists |
| ClipPlan.PlanOfAligned | futures_fund/desk_cycle.py:503-543 | The plan is a best way: valid clips, fewest possible, sizes within one lot |
| ClipPlan.PlanConserves | futures_fund/desk_cycle.py:529-543 | Clips of a whole-lot order add up to it exactly |
| Basket.ExecutionTargetAudit | futures_fund/desk_cycle.py:231-454 | Refuses exactly invalid filters and mixed partial-fill policies; otherwise every want becomes its order, and every order is filled by the common ratio |
| Basket.CommonRatio | futures_fund/desk_cycle.py:385-410 | The loop over the changed orders returns the specified ratio, or refuses a mixed partial-fill policy |
| Basket.RatioIsLargest | futures_fund/desk_cycle.py:399-410 | A share up to one fits every changed order exactly when it is at most the ratio |
| Basket.FillWithinOneLot | futures_fund/desk_cycle.py:411-425 | Each fill is a whole number of lots on the side of its request and, in a partial basket, within one lot below the common share of it |
| Basket.FillWithinDepth | futures_fund/desk_cycle.py:399-425 | No changed order fills more than its displayed depth |
| Basket.BasketKeepsProportion | futures_fund/desk_cycle.py:385-454 | The net notional the changed orders execute differs from the common share of what they request by less than one lot of notional each |
| Basket.VerifyExecutionLiquidity | futures_fund/desk_cycle.py:546-650 | Accepts exactly when all changed fills share one ratio and none is refused; returns the post-fill quantities |
| Basket.RefusedExactly | futures_fund/desk_cycle.py:573-629 | For a basket built by the audit the depth and lot-alignment checks never fire; what decides is the rest |
| Basket.AcceptedFill | futures_fund/desk_cycle.py:573-650 | An accepted changed order fills part of its transition in whole lots within depth, in clips the exchange accepts, and in full when its lifecycle changes |
| BasketGates.FilledExactly | futures_fund/desk_cycle.py:302-425 | What is executed of a request in whole lots: nothing below the minimum notional, all of it in a basket that fills whole, and otherwise the largest number of lots within the common share |
| BasketGates.PassedExactly | futures_fund/desk_cycle.py:573-629 | A changed order passes exactly when what is executed of it exists, meets the minimum notional and quantity and is whole if its lifecycle changes, request and fill can both be split into clips, and the book is two-sided and, for whole fills, deep enough |
| Basket.LandsTowardsTarget | futures_fund/desk_cycle.py:257-271 | An accepted changed order never passes the decision target, and lands within one lot of it when the basket fills whole |
| Basket.PartialFillOnlyGrows | futures_fund/desk_cycle.py:341-357 | A held leg filled in part keeps its role and ends strictly larger on its own side |
| Admission.LifecycleIsWholeOnly | futures_fund/account.py:542-561 | The test the account makes of a lifecycle change is that of the basket but for the looser comparison of an unchanged quantity |
| Admission.WantDescribes | futures_fund/desk_cycle.py:231-277 | A want built from the book is about the held leg, its consolidated target and its role, as the account reads them |
| Admission.AdmittedExactly | scripts/desk_reconcile.py:707-710 | For any book of positive sizes: an execution whose orders were built from the book and passed the liquidity check passes the checks of the account exactly when no order of unchanged turnover changes a held lifecycle and is filled in part |
| Admission.StrandedOrder | futures_fund/desk_cycle.py:564-573 | Such an order: a reduction worth less than a cent, below the minimum notional |
| OrderBook.ValidateL2Side | futures_fund/desk_cycle.py:1452-1504 | Accepts exactly the sides of positive levels whose prices strictly fall for bids and strictly rise for asks, all along the side, and returns them unchanged |
| OrderBook.VwapFill | futures_fund/costs.py:64-82 | The loop with its early stop computes the specified walk and its average |
| OrderBook.FillIsCheapest | futures_fund/costs.py:64-82 | The walk fills the quantity up to dust or the whole ladder, and no other way of taking that much costs less |
| OrderBook.AverageNeverFalls | futures_fund/costs.py:64-82 | The average price never falls as the quantity grows |
| OrderBook.HaircutKeepsAverageExactly | futures_fund/precheck.py:231-234 | Scaling every size and the quantity keeps the average exactly when no boundary remainder falls in the dust gap; in the gap the haircut average is strictly lower |
| OrderBook.HaircutCanCheapen | futures_fund/precheck.py:231-234 | A two-level ladder and a size for which the haircut average is strictly lower |
| OrderBook.CurveLookup | futures_fund/precheck.py:231-242 | The lookup returns the smallest covering tier, or none beyond the widest |
| OrderBook.LookupIsConservative | futures_fund/precheck.py:228-241 | A curve measured on the full book and looked up at the adjusted size never understates the price on the haircut book |
| BidBook.FillIsDearest | futures_fund/costs.py:64-82 | Selling into the bids fills the quantity up to dust or the whole ladder, and no other way of selling that much earns more |
| BidBook.AverageNeverRises | futures_fund/costs.py:64-82 | The average price of a sale never rises with its size |
| BidBook.HaircutKeepsBidAverageExactly | futures_fund/precheck.py:231-234 | On the bids the haircut keeps the average exactly outside the dust gap; in the gap it reports a strictly higher one |
| BidBook.BidLookupIsConservative | futures_fund/precheck.py:228-241 | A bid curve measured on the full book and looked up at the adjusted size never overstates what a sale earns on the haircut book |
| Cohorts.Group | futures_fund/performance.py:807-821 | Succeeds exactly when every window ends after it starts, and collects every row under its window |
| Cohorts.ForecastTimeCohorts | futures_fund/performance.py:796-849 | The result is the greedy selection over the partition of the rows into cohorts; selected and overlapping together are all cohorts; no two selected overlap, and with windows at least as long as the tolerance no compatible choice is larger |
| Cohorts.SelectedDoNotOverlap | futures_fund/performance.py:840-849 | No two selected cohorts overlap beyond the tolerance |
| Cohorts.FinishOrder | futures_fund/performance.py:836-838 | Candidates are taken by earliest end, then earliest start, then smallest id |
| Cohorts.SelectedExactly | futures_fund/performance.py:840-849 | A candidate is selected exactly when none selected before it ends more than five minutes after it starts |
| Cohorts.SelectionIsLargestForward | futures_fund/performance.py:836-849 | No choice that runs forward in finish order is larger, whatever the windows |
| Cohorts.SelectionIsLargest | futures_fund/performance.py:836-849 | With windows at least as long as the tolerance, no pairwise compatible choice is larger |
| Cohorts.ShortWindowLosesOne | futures_fund/performance.py:836-849 | The bound is exact: every shorter window has a compatible partner of which the selection takes only one |
| Payback.PaybackIsLeast | futures_fund/precheck.py:321-340 | For a positive friction the solver returns the least break-even time, and none exactly when there is none or its rate is below the cut-off |
| Payback.NothingToRepay | futures_fund/precheck.py:321-340 | With nothing to repay the answer is zero exactly when the rate clears the cut-off |
| Payback.RepaidInTime | futures_fund/precheck.py:343-366 | A non-negative edge repays within ten intervals exactly when its share plus carry reaches the friction |
| Payback.ThresholdInvertsPayback | futures_fund/precheck.py:321-366 | Payback is within ten intervals exactly when the edge meets the required one, except exactly for the break-evens the cut-off misses; for zero friction those of a rate from zero up to the cut-off |
| Payback.CutOffMissesAPayback | futures_fund/precheck.py:321-366 | A friction and a carry that repay within eight intervals, meet the required edge, and are reported as never repaid |
| RestartLineage.EachMove | futures_fund/precheck.py:957-1009 | A book that passes the gates starts, continues, ends or stays outside a restart, each only under its own conditions |
| RestartLineage.PassesExactly | futures_fund/precheck.py:957-1009 | Exactly which books pass, in terms of prior lineage, known inventory, directive, risk data and seats: what continues or ends a restart, what starts one, and what stays outside; with the revision rule |
| RestartLineage.RevisionAddsNothing | futures_fund/adversary_binding.py:1485-1518 | A revision never starts, replaces or revives a lineage the review did not see |
| RestartLineage.ActiveInBlock | futures_fund/precheck.py:957-1009 | In every history, each active book lies in a block that began from a flat account at the cycle all its books name, with inventory held ever since |
| RestartLineage.BlockEndsFlat | futures_fund/adversary_binding.py:1388-1395 | A block ends only in an empty book that claims no lineage |
| RestartLineage.RestartsRun | futures_fund/precheck.py:964-988 | A restart can be entered from a flat account, held for any number of cycles, and left |
| RestartLineage.OriginsAreUnique | futures_fund/precheck.py:957-1009 | Two active books with the same origin lie in one block |
| WeeklySnapshot.RankingIgnoresOrder | futures_fund/cross_section.py:350-353 | A ranking by value and symbol does not depend on the order of arrival |
| WeeklySnapshot.BuildWeeklySnapshot | futures_fund/cross_section.py:334-401 | Succeeds exactly when symbols are distinct, enough markets are scored, the audit is complete and the sleeves are non-empty and fit. The markets kept have at least the volume of every one left out; every long has at least the total return of every market that is not long, every short at most that of every market that is not short, ties going by symbol; rank k means k-1 markets did better; the result validates |
| WeeklySnapshot.SnapshotSelects | futures_fund/cross_section.py:350-401 | The same of the assembled snapshot, told from the metrics and the scores alone |
| WeeklySnapshot.ValidMeans | futures_fund/cross_section.py:72-110 | Any snapshot that validates, whoever built it, has distinct markets in liquidity order, true performance ranks, and the best and the worst markets as disjoint sleeves of one size |
| WeeklySnapshot.SnapshotValidExactly | futures_fund/cross_section.py:72-110 | An assembled snapshot fails its own validation only for its audit or its sleeve sizes, never for a rank or a sleeve |
| WeeklySnapshot.SnapshotIgnoresOrder | futures_fund/cross_section.py:334-401 | The snapshot does not depend on the order of the market metrics |

## Left out

- Floating-point and `Decimal` rounding, NaN and infinity checks, ISO timestamp parsing and time zones: exact reals and integer time stand for them.
- A `Position` is a value in the account's map, replaced on every change, not an object other code may alias.
- Symbols of a held-book loop are visited in an arbitrary order given as an argument; the order of Python's set and dict iteration is not modelled, and the results are proved not to depend on it.
- The slippage estimate is a function argument; the formula in slippage.py is not part of this model.
- The textual message of an error, beyond which check raised it.
- `resolve_previous_intervals` and the heartbeat's own settlement and portfolio metrics: the proved part starts from the intervals and the new account state.
- The current observed rate written to each settled leg, and the interval observations' provenance, beyond their effect on the account.
- Directive payload decoding, capability lists, symlink checks, directory creation, in-place edits of an inbox inode, and inode reuse.
- A process killed without power loss between the two fsyncs of one rename: the code's own steps always finish their fsyncs or lose power.
- Renames within one directory are durable or not as a whole, since one directory is flushed at a time.
- The wrapper `finalize_cycle_directive`, which runs the same finalization under the lock.
- How a cycle's commit builds and binds the receipt; binding is one step guarded by the commit expectation.
- Heartbeat rows of schema versions 2 and 3, the validity of the runtime provenance, and the markers that tell an established account-event history from a new one.
- HeartbeatReplay.CrashesDoNotMatter: assumes that the record's identity is not in use and that it sorts last, both shown necessary by `HeartbeatReplay.RecoverableExactly`, and that its commit id, which the code draws at random, is new. The lookup of a completed slot in scripts/desk_heartbeat.py is not part of this model; a call without a slot skips it, and it does not see a row whose time stamp equals the slot.
- HeartbeatState.Officials: identities are integers, so the comparison of timestamp strings is that of the instants.
- Reconcile generations appear only as the set of intact ones with the account each declares.
- Basket legs without an execution snapshot; every symbol of the audit is given one.
- The legacy slippage scalar and the choice between directional and aggregate curves in the curve lookup.
- The order of the rows inside a cohort, and the hash that names a cohort beyond being a number per window.
- `funding_adjusted_return`, week ids and calendar checks of the weekly snapshot; a score per symbol and one audit flag stand for them. Sleeve and universe sizes are naturals.
- The rest of the precheck bounds and of the verdict echoes in adversary_binding.py; schema versions before 7.
