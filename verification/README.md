# HR backend: attendance pay, deductions, leases and printers

A Dafny model of the cores of an HR backend, with proofs about them. `dafny verify dfyconfig.toml` checks all of it.

Times are integer milliseconds (seconds of civil time in the CSV bridge), day counts and credits are integer
hundredths of a day, calendar days are day numbers, and a window is the half-open set of its instants. Loops that
update state are methods with invariants, proved equal to a function or to a property of the result; the laws are
lemmas about those functions. Shared database rows are modelled as state machines in which every awaited call is a
step, so that any interleaving of workers, crash or thrown call is a run. The clock, random draws, the outcome of
network and database calls, approver lookup and the evaluation time are parameters.

| module | what it models |
|---|---|
| `Windows`, `Pairing`, `PairingRoles`, `Accounting`, `AccountMeaning` | time windows, worked intervals, what one shift is worth |
| `Verdict`, `VerdictInputs`, `VerdictScores`, `VerdictMeaning` | the verdict on one shift, from raw punches to credit |
| `RosterShifts`, `RosterWindows`, `RosterWalk`, `RosterTurns` | the windows of a roster and the walk that groups punches into shifts |
| `Violations`, `Pricing`, `Attribution`, `Monotone`, `Telescoping`, `DeductionGroups` | the whole-period deduction policy and its attribution to dates |
| `PeriodCosts`, `CounterPrices`, `BandPrices`, `PeriodBills`, `DateCharges` | what a period costs, said of its rows, cases and rules |
| `RuleDeductions`, `RuleDeductionLaws`, `RulePrices` | the case-by-case deduction engine |
| `Outbox`, `OutboxSteps`, `Provisioning`, `ProvisioningOutcomes`, `Bridge`, `BridgeRuns` | the lease protocols and the checkpointed forwarder |
| `Approval`, `RouteMeaning` | validating, sealing and walking approval routes |
| `IdempotencyStore`, `StoreCalls` | the in-memory store with expiry and first-in first-out eviction |
| `EditDistance`, `Nacha`, `BankColumns`, `Csv` | the one-row edit distance, the ACH file printer, the CSV printer |
| `Checkout` | the latest moment a punch still belongs to a shift |
| `Sorting`, `StableSort`, `Subsequences`, `Sums`, `Sequences`, `Trimming`, `Arithmetic`, `Decimals`, `Options` | what the others share |

Every lemma carries `{:induction false}`: inductions are written out.

A method is proved equal to a function; what that function means is stated again, without its helper functions, in the
modules that describe meanings (`VerdictMeaning`, `PeriodBills`, `RulePrices`, `RosterTurns`, `BankColumns` and their
like).

## What turned out different from the documentation

- An unrostered shift pays time spent inside exclusions: regular minutes then start from all presence while only
  worked minutes lose the exclusions. `Accounting.UnrosteredPaysExclusions` gives the exact condition and
  `Accounting.OffRosterBreakIsPaid` a shift.
- `validateDeductionGroups` accepts a group that mixes pooled and unpooled rules, and attribution then does not sum
  to the total (`DeductionGroups.MixedPoolingDrops`). It sums up exactly when no prefix total drops
  (`Telescoping.SumsToIff`), as it always does with uniform pooling (`DeductionGroups.ValidGroupsAreCoherent`).
- The dispatcher's header says that a lease expiring in mid-publish is the only source of duplicates. Two more are a
  publish that throws after it has sent and a mark that throws without effect, while the lease runs
  (`Outbox.FailedMarkDuplicatesEarly`). Without such a step the header is right (`Outbox.OutboxIsSafe`); with one, from
  any reachable state, a duplicate can follow (`Outbox.ForgettingDuplicatesEarly`).
- The claim of the provisioning worker does not recheck what its scan read, so recorded attempts can fall and a row
  can be tried before its next attempt is due (`Provisioning.StaleScanLosesAttempts`). `Provisioning.AttemptsFallIff`
  and `Provisioning.EarlyClaimIff` say exactly when.
- The evaluator's header lets the worse of the arrival and duration verdicts decide. The anomaly rules overwrite
  that credit, so the thresholds never cost any (`Verdict.ThresholdsNeverCostCredit`).
- A roster that has only per-weekday shifts is not recognised by the walk (src/lib/attendanceReplay.js, lines
  110-114), although its days do have windows: every scan is filed under its calendar day, past the cutoffs
  (`RosterWalk.WeekdayRosterMissesCutoff`). Cutoffs are kept exactly when the roster is recognised or every scan keeps
  those of its own day (`RosterWalk.CutoffsHoldIff`). src/lib/schedulePattern.js, lines 120-122, refuses such a pattern
  when it is written.
- The ACH amount column silently drops the sign and the digits above the tenth (`Nacha.AmountColumnIsExact`).
- RFC 4180 allows a line break after the last record; a one-column table that ends in an empty cell then reads back
  one row short (`Csv.FinalBreakIsAmbiguous`).

## Model

| member | source | states |
|---|---|---|
| `Windows.UnionWindows` | src/lib/attendanceIntervals.js:53-66 | the loop that extends the last window in place computes the union of the sorted proper windows |
| `Windows.UnionIsSetUnion` | src/lib/attendanceIntervals.js:53-66 | the result is sorted, strictly separated windows covering exactly the same instants |
| `Windows.CanonicalSeparates` | src/lib/attendanceIntervals.js:53-66 | any two windows of a result, not only neighbours, are disjoint with a gap between them |
| `Windows.CanonicalIsUnique` | src/lib/attendanceIntervals.js:53-66 | a set of instants has only one such list of windows |
| `Windows.UnionDependsOnInstantsOnly` | src/lib/attendanceIntervals.js:53-66 | two inputs have the same union if and only if they cover the same instants |
| `Windows.WindowTimeIsMeasure` | src/lib/attendanceIntervals.js:67-72 | window minutes are the measure of the covered instants, overlaps counted once |
| `Windows.IntersectIsSetIntersection` | src/lib/attendanceIntervals.js:73-85 | intersection windows cover exactly the common instants and intersection minutes are their measure |
| `Windows.ExcludedTime` | src/lib/attendanceEvaluator.js:51-57 | the separate merge loop equals the intersection time of that one window with the exclusions |
| `Pairing.PairAttendance` | src/lib/attendanceIntervals.js:12-51 | the loop with its open register computes the pairing that the laws below are about, EXTRA_OUT rewriting the last interval in place |
| `Pairing.PairingConservesPunches` | src/lib/attendanceIntervals.js:12-51 | INs = intervals + repeated INs + open, OUTs = intervals + EXTRA_OUT + UNMATCHED_OUT, all others are issues |
| `Pairing.IntervalsAreOrdered` | src/lib/attendanceIntervals.js:12-51 | on time-sorted punches the intervals have positive length, are in order and never overlap |
| `Pairing.CivilElapsed` | src/lib/attendanceIntervals.js:3-51 | where instants are civil times the elapsed minutes are the length of the interval |
| `Pairing.IntervalsAreThePresence` | src/lib/attendanceIntervals.js:12-51 | on strictly rising directed punches the intervals cover exactly the instants at which the employee is on shift, defined without the loop |
| `PairingRoles.PairingTellsParts` | src/lib/attendanceIntervals.js:12-51 | every punch opens, repeats, closes, furthers or matches nothing, by rules on the punches before it; intervals, open punch, marks and issues are those of the parts |
| `PairingRoles.OnePart` | src/lib/attendanceIntervals.js:12-51 | the punches determine the parts |
| `Accounting.PairedIntervalsAreSound` | src/lib/attendanceIntervals.js:12-51 | paired civil punches meet what the accounting theorems ask of intervals |
| `Accounting.AmountsAreMeasures` | src/lib/attendanceIntervals.js:86-187 | every amount of a rostered shift is the measure of a set of instants, so the Math.max(0, ...) guards never bite |
| `Accounting.NoInstantPaidTwice` | src/lib/attendanceIntervals.js:86-187 | regular, extra, paid-break and travel time are pairwise disjoint; regular + approved overtime <= worked and payable <= credited |
| `Accounting.UnrosteredPaysExclusions` | src/lib/attendanceIntervals.js:114-124 | off the roster payable <= credited holds exactly when nobody is present during an exclusion |
| `Accounting.OffRosterBreakIsPaid` | src/lib/attendanceIntervals.js:114-124 | the condition fails on a shift: twenty instants present, five of them in an exclusion, all twenty regular and more payable than credited |
| `AccountMeaning.AmountsAre` | src/lib/attendanceIntervals.js:53-187 | for any intervals every amount is computed from elapsed time and the sizes of time sets that are described instant by instant: presence, roster, exclusions, break, paid travel, and approved overtime whether paid or not |
| `Verdict.DedupePunches` | src/lib/attendanceEvaluator.js:64-80 | of the sorted scans no two kept neighbours repeat, every kept scan is one of them, and every dropped scan repeats a kept one |
| `Verdict.CollapseCollapses` | src/lib/attendanceEvaluator.js:64-80 | the same of the fold that the evaluation is about |
| `Verdict.ScoreDuration` | src/lib/attendanceEvaluator.js:384-411 | the duration branches give the credit and the check-out label of the share worked |
| `Verdict.ScoreShift` | src/lib/attendanceEvaluator.js:334-432 | the branches that reassign labels and credits and push anomalies compute the scored verdict |
| `Verdict.Scored` | src/lib/attendanceEvaluator.js:334-432 | a scored shift keeps its times and account and earns none, half or a full day |
| `VerdictScores.ScoredMeans` | src/lib/attendanceEvaluator.js:334-432 | the exact condition of a credit of none, half and a full day, of the labels absent, early check-out, late and present, and the facts noted, in times, graces and shares of the scheduled time |
| `Verdict.AnomalyFacts` | src/lib/attendanceAnomalyRules.js:78-122 | each kind of fact is there once, exactly when the day shows it, with its expected, actual and measured time; a check-out before the half-day mark leaves an absence as the only fact |
| `Verdict.FactsTellTheDay` | src/lib/attendanceAnomalyRules.js:78-122 | the same of the facts that the verdict uses |
| `Verdict.EvaluateNow` | src/lib/attendanceEvaluator.js:114-432 | the whole evaluation as the source runs it, from deduplication through pairing, scoring and facts, gives the verdict whose statuses, credit and facts VerdictMeaning.VerdictMeans spells out |
| `Verdict.VerdictIsFinal` | src/lib/attendanceEvaluator.js:114-432 | once a shift is not in progress every later evaluation time gives the same verdict |
| `Verdict.InProgressUntilClosing` | src/lib/attendanceEvaluator.js:191-333 | a shift is in progress exactly before the time its punches leave it open until, or for ever without a deadline |
| `Verdict.CreditIsFullOrWithheld` | src/lib/attendanceAnomalyRules.js:123-165 | credit is a full day or withheld; it is given if and only if the shift is closed, undisputed, has both times and is inside both graces; and FINALIZED means credited |
| `Verdict.CreditedShiftWasWorked` | src/lib/attendanceEvaluator.js:114-432 | a credited shift has worked intervals and a check-in, where the first of them starts, strictly before its check-out |
| `Verdict.CreditedSpanIsObserved` | src/lib/attendanceEvaluator.js:214-243 | with civil instants a credited shift's check-in and check-out are the two ends of its worked intervals |
| `Verdict.ThresholdsNeverCostCredit` | src/lib/attendanceAnomalyRules.js:145-165 | the half and zero credits of the core never reach the verdict: credit is the same under all half-day and full-day thresholds |
| `Verdict.PositionalFallbackIsDead` | src/lib/attendanceEvaluator.js:220-227 | the branch for punches with neither arrival nor departure is never taken |
| `Verdict.EvaluatedPayIsCovered` | src/lib/attendanceEvaluator.js:164-175 | from raw punches to pay: an evaluated rostered shift has regular + approved overtime <= worked and payable <= credited |
| `VerdictInputs.PunchesAreCleaned` | src/lib/attendanceEvaluator.js:64-80 | the evaluated punches are the scans up to the latest check-out (or chosen), with untrusted directions dropped, stably by time, each repetition of a kept scan left out, directed |
| `VerdictMeaning.VerdictMeans` | src/lib/attendanceEvaluator.js:114-432 | for every shift and time: the exact condition of each of the eight statuses, of review, credit and state, the list of facts, and what check-in, check-out, scheduled time, share, lateness and being in progress are, in terms of the cleaned punches, the shift, the grace and the deadline |
| `VerdictMeaning.RuledSays` | src/lib/attendanceAnomalyRules.js:123-165 | the same of statuses, facts and credit, for whatever the core found |
| `StableSort.SortIsStable` | src/lib/attendanceEvaluator.js:67-69 | sorting holds each position once, by time and then by position |
| `Violations.CountViolationDays` | src/lib/attendanceDeduction.js:60-153 | the successive loops over sets give exactly the days that violate each rule not priced by time |
| `Violations.TimingViolationDays` | src/lib/attendanceTimingPolicy.js:13-34 | the loop over rows gives the measured minutes per rule and day, and throws exactly when an incident to be priced has none |
| `Pricing.ComputeTimingDeductions` | src/lib/attendanceTimingPolicy.js:35-56 | grouping, consistency check and charging give the priced bands; rules that disagree and violations without positive minutes throw |
| `Pricing.ChargeBands` | src/lib/attendanceTimingPolicy.js:47-54 | long incidents are charged first and use up the cap |
| `Pricing.ComputeAttendanceDeductions` | src/lib/attendanceDeduction.js:168-225 | pooling by counter, floors and caps give the priced lines |
| `Attribution.AutomaticTotal` | src/lib/anomalyPayroll.js:42-101 | the loops compute the automatic total of a period, which PeriodBills.TotalIffBilled characterises |
| `Attribution.SumLines` | src/lib/anomalyPayroll.js:49-58 | the lines are summed into the pooled and the fixed bucket |
| `Attribution.ChargeAbsences` | src/lib/anomalyPayroll.js:59-78 | each day's lost credit is charged once, as PeriodCosts.AbsencesAreCharged spells out |
| `Attribution.ChargeRefusals` | src/lib/anomalyPayroll.js:79-92 | a refused absence is charged once and not on a day already charged |
| `Monotone.PoolsGrow` | src/lib/attendanceDeduction.js:168-225 | more violations never lower either bucket of the counted rules |
| `Monotone.LinesGrow` | src/lib/attendanceDeduction.js:168-225 | more violations never lower either bucket of all priced lines, and make pricing throw only when one of them has no positive minutes |
| `Monotone.MeasuredOfTakesTime` | src/lib/attendanceTimingPolicy.js:13-46 | what a record measures is always positive, so the error for minutes that are not never comes from one |
| `Monotone.BandCharge` | src/lib/attendanceTimingPolicy.js:47-54 | a band charges its long and short incidents together, cut at its cap |
| `Monotone.ChargesGrow` | src/lib/anomalyPayroll.js:59-92 | adding whole days never lowers the absence and refusal charges |
| `Monotone.TotalGrows` | src/lib/anomalyPayroll.js:42-101 | adding whole days never lowers the automatic total |
| `Monotone.EmptyTotal` | src/lib/anomalyPayroll.js:42-101 | an empty period costs nothing |
| `PeriodCosts.CountedDays` | src/lib/attendanceDeduction.js:60-153 | a day is counted against a rule exactly when its rows and cases break the rule, each of the rules having its own written condition |
| `PeriodCosts.MeasuredDays` | src/lib/attendanceTimingPolicy.js:4-34 | a day is measured against a timed rule exactly when a row gives it a time, with the time of the last such row |
| `PeriodCosts.MissingTime` | src/lib/attendanceTimingPolicy.js:13-34 | measuring fails exactly when an incident that a timed rule would price has no time |
| `PeriodCosts.AbsencesAreCharged` | src/lib/anomalyPayroll.js:59-78 | a day is charged exactly when a working, unforgiven row of it has less than a full credit, with a hundred less the credit of the first such row |
| `PeriodCosts.RefusalsAreCharged` | src/lib/anomalyPayroll.js:79-92 | a whole day for exactly the days of a refused absence that is neither forgiven nor charged |
| `CounterPrices.CountersArePriced` | src/lib/attendanceDeduction.js:168-225 | one line for every counter whose cost is positive, headed by the first rule that feeds it, at the price of its distinct days, whole triggers and cap |
| `BandPrices.TimedRulesArePriced` | src/lib/attendanceTimingPolicy.js:35-56 | pricing fails exactly when timed rules of one counter disagree; otherwise the lines are the long and short shares of each counter, in order, at the terms of the rule that heads it |
| `PeriodBills.TotalThrowsIff` | src/lib/anomalyPayroll.js:42-101 | the total fails exactly when a time is missing or timed rules of one counter disagree |
| `PeriodBills.TotalIffBilled` | src/lib/anomalyPayroll.js:42-101 | a number is the automatic total if and only if it is the total of a bill: violations, lines, lost credit and refused absences as above, added up by the basis |
| `PeriodBills.BillsAgree` | src/lib/anomalyPayroll.js:42-101 | two bills of one record come to the same total |
| `PeriodBills.LostCreditIsCharged` | src/lib/anomalyPayroll.js:59-101 | with recovery on and no rules the total is what the first row of each day lost, in whole days when pooled, plus a whole day for each uncharged refused absence where the basis asks for it |
| `Telescoping.ManualDeductionsByShift` | src/lib/anomalyPayroll.js:15-31 | the marking of a date is the highest mark of its distinct cases; an invalid mark throws |
| `Telescoping.MarksAreUnique` | src/lib/anomalyPayroll.js:15-31 | a record has only one marking by highest marks |
| `Telescoping.AttributeDates` | src/lib/anomalyPayroll.js:110-144 | the loop that carries the previous total gives the lines of the prefix totals, or an error when some prefix cannot be priced |
| `Telescoping.CombinedAttendanceDeductions` | src/lib/anomalyPayroll.js:105-144 | a bad mark is an error; otherwise the lines are those of the record's highest marks; they sum to the marks plus the automatic total of the unmarked dates if and only if no prefix total drops, and always under coherent rules |
| `Telescoping.TotalStep` | src/lib/anomalyPayroll.js:110-144 | from one date to the next the total does not drop, and a marked date leaves it alone |
| `Telescoping.Telescope` | src/lib/anomalyPayroll.js:110-144 | the lines of any totals sum to the marks, the last total and everything the totals drop on the way |
| `Telescoping.SumsToIff` | src/lib/anomalyPayroll.js:110-144 | the lines of a record sum to its marks plus its automatic total if and only if no prefix total drops |
| `Telescoping.AttributionTelescopes` | src/lib/anomalyPayroll.js:42-144 | the per-date lines sum exactly to the manual marks plus the automatic total over all unmarked dates, through floors, caps and pooling |
| `DateCharges.MarksAre` | src/lib/anomalyPayroll.js:15-31 | a date is marked exactly when an anomaly carries a mark on it, with the highest of the first marks of its anomalies |
| `DateCharges.DatesAreCharged` | src/lib/anomalyPayroll.js:105-144 | each date of the record has a line exactly when it is charged: its mark, or what the bill of the unmarked dates up to it exceeds the bill before |
| `DateCharges.CombiningThrows` | src/lib/anomalyPayroll.js:102-144 | an error exactly for a wrong mark or when the dates up to some date cannot be priced |
| `DeductionGroups.ValidateDeductionGroups` | src/lib/attendanceSetup.js:91-116 | the loop accepts exactly the rule lists whose enabled groups agree on their terms, the period scope included |
| `DeductionGroups.AgreementIs` | src/lib/attendanceSetup.js:91-116 | agreeing means that no two enabled rules of a named group differ in one of the six compared settings |
| `DeductionGroups.ValidGroupsAreCoherent` | src/lib/attendanceSetup.js:91-116 | validated groups that are all pooled or all not pooled meet the hypothesis of attribution |
| `DeductionGroups.MixedPoolingDrops` | src/lib/anomalyPayroll.js:105-144 | a validated group that mixes pooled and unpooled rules, two early check-outs and a late arrival: the lines sum to half a day and the record costs nothing |
| `RuleDeductions.RulesFromPolicy` | src/lib/attendanceAnomalyRules.js:174-203 | each setting in range is kept and each other one falls back to its default, so pool sizes stay positive |
| `RuleDeductions.CollectMarks` | src/lib/attendanceAnomalyRules.js:247-271 | one marking per employee and date, the highest; an invalid one throws |
| `RuleDeductions.ScanCases` | src/lib/attendanceAnomalyRules.js:279-321 | one pass in date order gives the dated single lines and the two lists to be pooled, at the prices of RulePrices.LinesArePriced, or throws without timing evidence |
| `RuleDeductions.ChunkLines` | src/lib/attendanceAnomalyRules.js:325-331 | whole pools of one employee's cases, in order, each line pooled and dated by its last case |
| `RuleDeductions.PoolCases` | src/lib/attendanceAnomalyRules.js:322-347 | whole pools of every employee in order of first appearance |
| `RuleDeductions.RuleDeductions` | src/lib/attendanceAnomalyRules.js:218-356 | the priced lines of a period, which RulePrices.LinesArePriced and DaysAreCounted spell out, or an error |
| `RuleDeductions.OrderIsUnique` | src/lib/attendanceAnomalyRules.js:279-281 | with distinct identifiers sorting forgets the input order |
| `RuleDeductionLaws.MarksInHold` | src/lib/attendanceAnomalyRules.js:247-271 | the list holds every marked shift of the period once, at its highest marking |
| `RuleDeductionLaws.SplittingNeverRaises` | src/lib/attendanceAnomalyRules.js:218-356 | a period costs at least as much as two adjacent halves, and at most one minor pool and one missing-punch pool per employee more |
| `RuleDeductionLaws.OrderDoesNotMatter` | src/lib/attendanceAnomalyRules.js:218-356 | with distinct identifiers the total does not depend on the order of the cases |
| `RuleDeductionLaws.ChargedAtMostOnce` | src/lib/attendanceAnomalyRules.js:218-356 | over all lines a case identifier is charged at most as often as the cases carry it, so at most once when identifiers are distinct |
| `RuleDeductionLaws.ExcusedDaysAreNeverCharged` | src/lib/attendanceAnomalyRules.js:230-303 | every case behind an automatic line is priceable and on a day neither approved nor manually marked |
| `RuleDeductionLaws.PoolsConserveCases` | src/lib/attendanceAnomalyRules.js:320-347 | pooled cases are in whole pools or in the remainder |
| `RulePrices.ChargedCases` | src/lib/attendanceAnomalyRules.js:230-303 | the priced cases are the first charged case of every incident, by date and identifier, where charged means refused by Management or lapsed, inside the period, on a day nobody approved and Management did not mark |
| `RulePrices.FirstCasesAreUnique` | src/lib/attendanceAnomalyRules.js:230-303 | with distinct identifiers there is only one such list |
| `RulePrices.PricingThrowsIff` | src/lib/attendanceAnomalyRules.js:247-318 | pricing fails exactly for a wrong mark or a timing without positive evidence |
| `RulePrices.LinesArePriced` | src/lib/attendanceAnomalyRules.js:218-347 | an absence costs the absence price and a timing beyond the threshold the major price, each in its own line; each whole pool of an employee's missing punches or shorter timings costs its pool price; each marked day its highest mark; there are no other lines |
| `RulePrices.DaysAreCounted` | src/lib/attendanceAnomalyRules.js:218-356 | the days are the marks plus price times number of absences, long timings and whole pools of each employee |
| `RulePrices.CountsAreTold` | src/lib/attendanceAnomalyRules.js:348-356 | the counts and remainders of a summary are those of the same cases |
| `RosterShifts.CandidateStartsOnDay` | src/lib/attendanceShift.js:4-58 | a window starts on the day it is listed for and has positive length, overnight shifts included |
| `Checkout.BoundedCheckout` | src/lib/shiftCheckout.js:44-65 | a set cutoff, or an hour before the next shift when that is earlier; without one, the opening of the next check-in window brought into the day after the end |
| `RosterWalk.DedupePunches` | src/lib/attendanceReplay.js:100-107 | the loop removes repeated scans against the last kept punch |
| `RosterWalk.DedupeIsIdempotent` | src/lib/attendanceReplay.js:100-107 | removing repeated scans twice is removing them once |
| `RosterWalk.DedupeKeepsOrder` | src/lib/attendanceReplay.js:100-107 | the kept punches are punches of the stream, in time order |
| `RosterWalk.ExamineWindow` | src/lib/attendanceReplay.js:247-290 | one turn of the search takes a window exactly when it is eligible and nearer than the best so far |
| `RosterWalk.ChooseWindow` | src/lib/attendanceReplay.js:247-290 | the chosen window is eligible and no eligible window around the punch is nearer; nothing is chosen only when none is eligible |
| `RosterWalk.Assign` | src/lib/attendanceReplay.js:201-303 | the shift in progress keeps the punches that RosterTurns.ClaimIs names; otherwise the nearest window is opened, by an arrival only; otherwise the punch is set aside |
| `RosterWalk.Rekey` | src/lib/attendanceReplay.js:306-316 | on a split-shift day the punch goes to a window it fits, none fitting being nearer |
| `RosterWalk.Place` | src/lib/attendanceReplay.js:199-319 | one step of the walk: the turn, the re-keying, the filing; a chosen check-out never opens a shift |
| `RosterWalk.WalkStream` | src/lib/attendanceReplay.js:199-319 | the sessions are those of a walk whose every step is a step as above; they partition the stream, each punch in stream order under its one key |
| `RosterWalk.SessioniseByRoster` | src/lib/attendanceReplay.js:72-319 | the sessions are those of the walk over the deduplicated punches; each is in time order; all punches keep the cutoffs of their sessions if and only if the roster is recognised or every punch keeps those of its calendar day |
| `RosterWalk.SessionsRespectCutoffs` | src/lib/attendanceReplay.js:199-319 | under a recognised roster a punch in a session keyed to a rostered day is no later than a deadline of that day, or a close bound if it is a chosen check-out, and without one it is keyed to its calendar day; a chosen check-out never opens a shift |
| `RosterWalk.CutoffsHoldIff` | src/lib/attendanceReplay.js:110-319 | for every session of a walk: all cutoffs are kept if and only if the roster is recognised or every punch keeps those of its calendar day |
| `RosterWalk.WeekdayRosterMissesCutoff` | src/lib/attendanceReplay.js:110-114 | a pattern with a Thursday shift alone, latest check-out 02:00: a scan at 10:00 is filed under that day |
| `RosterWindows.CandidatesAre` | src/lib/attendanceShift.js:4-58 | the windows of a day, for split shifts, rotations, alternatives, weekdays and a single shift, at the clock times of their shifts |
| `RosterWindows.NextShiftIs` | src/lib/attendanceShift.js:83-105 | the next start is the earliest scheduled one after the given start within 370 days, unless a day without an assigned shift comes first |
| `RosterWindows.BoundsAre` | src/lib/attendanceReplay.js:144-190 | deadlines and close bounds follow from that next start and the latest check-out |
| `RosterTurns.ClaimIs` | src/lib/attendanceReplay.js:211-240 | the shift in progress takes a punch exactly when it is on time around its hours, lingers nearer its end than any start, or checks out after its end |
| `RosterTurns.MayOpenIs` | src/lib/attendanceReplay.js:247-280 | the exact condition for a window to be opened by a punch |
| `RosterTurns.PlaceIsStep` | src/lib/attendanceReplay.js:199-319 | one step, written out: shift in progress, first of the nearest windows, or set aside; then the first of the nearest split shifts; then the filing |
| `RosterTurns.OpenShiftDecides` | src/lib/attendanceReplay.js:211-244 | without split shifts the shift in progress keys exactly the punches that belong to it and is over exactly from its end on; all others are searched for |
| `RosterTurns.SessionsAreWalked` | src/lib/attendanceReplay.js:199-319 | the sessions of a stream are those of a whole walk of such steps |
| `RosterTurns.StreamIs` | src/lib/attendanceReplay.js:85-107 | the stream is the punches stably by time without repetitions of a kept punch |
| `RosterWalk.FilingKeepsPartition` | src/lib/attendanceReplay.js:317-318 | filing one more punch keeps the partition |
| `RosterWalk.SessionsInOrder` | src/lib/attendanceReplay.js:321-324 | every session is in time order |
| `Outbox.StepKeepsInv` | src/jobs/outbox.dispatcher.js:203-326 | every step of every worker, including crashes and thrown calls, keeps the invariant |
| `Outbox.LeaseIsExclusive` | src/jobs/outbox.dispatcher.js:203-230 | at most one worker holds an unfinished claim on a row whose deadline has not passed |
| `Outbox.PublishedRowIsFrozen` | src/jobs/outbox.dispatcher.js:216-290 | no step claims or changes a published row, not even the failure release, which does not test publishedAt |
| `Outbox.BatchCountsBalance` | src/jobs/outbox.dispatcher.js:305-315 | scanned = claimed + claimRaceLost and claimed = published + failed + claimExpiredMidPublish |
| `Outbox.StepKeepsDuplicatesLate` | src/jobs/outbox.dispatcher.js:238-290 | a step that does not forget a send under a running lease keeps it so that a second copy on the stream comes only from an expired lease |
| `Outbox.RunIsSafe` | src/jobs/outbox.dispatcher.js:175-326 | over every run the invariant holds and published rows stay as they are |
| `Outbox.RunHasNoEarlyDuplicate` | src/jobs/outbox.dispatcher.js:203-270 | over every run in which no worker forgets a send while its lease runs, a row is on the stream twice only when one of the two leases had expired |
| `Outbox.OutboxIsSafe` | src/jobs/outbox.dispatcher.js:175-326 | from the start, over every interleaving: leases are exclusive, published rows are on the stream, and without a send forgotten under a running lease no duplicate is early |
| `Outbox.ForgettingDuplicatesEarly` | src/jobs/outbox.dispatcher.js:238-290 | conversely, from every reachable state each step that forgets a send under a running lease can be continued to an early duplicate |
| `Outbox.CarelessRunsDuplicateEarly` | src/jobs/outbox.dispatcher.js:203-290 | every run that contains such a step has a beginning that can be continued to an early duplicate |
| `Outbox.FailedMarkDuplicatesEarly` | src/jobs/outbox.dispatcher.js:14-16 | a run in which the mark throws without effect duplicates a row before any lease expires |
| `OutboxSteps.ClaimWrites` | src/jobs/outbox.dispatcher.js:203-230 | a claim wins exactly a row that is unpublished and free, and writes its claim on that row alone |
| `OutboxSteps.PublishWrites` | src/jobs/outbox.dispatcher.js:238-250 | a publish that reaches the stream adds one entry and changes no row |
| `OutboxSteps.MarkWrites` | src/jobs/outbox.dispatcher.js:251-270 | a mark that finds its claim sets the publication time and clears the claim; it changes nothing else |
| `OutboxSteps.ReleaseWrites` | src/jobs/outbox.dispatcher.js:271-290 | a recorded failure clears the claim, counts the attempt and keeps the publication |
| `OutboxSteps.RunsAddUp` | src/jobs/outbox.dispatcher.js:175-326 | over every run the stream gains one copy per send and a row one attempt per recorded end of an attempt |
| `Provisioning.BackoffIsBounded` | src/jobs/system-account-provisioning.js:122-125 | every backoff is at least 30 seconds and less than 72 minutes, and within a fifth of its base |
| `Provisioning.BackoffGrows` | src/jobs/system-account-provisioning.js:122-125 | below the cap, jitter never makes a later attempt wait less than an earlier one |
| `Provisioning.StepKeepsInv` | src/jobs/system-account-provisioning.js:150-256 | every step, with stale snapshots, crashes and thrown calls, keeps the invariant |
| `Provisioning.RowChangesOnlyByHolder` | src/jobs/system-account-provisioning.js:183-245 | a row changes only when a free or expired claim is taken over or its current holder records an outcome |
| `Provisioning.TerminalIsAbsorbing` | src/jobs/system-account-provisioning.js:183-245 | no worker step changes a succeeded or terminally failed row |
| `Provisioning.RetryIsScheduled` | src/jobs/system-account-provisioning.js:234-247 | a retry is scheduled 30 seconds to 72 minutes ahead |
| `Provisioning.LeaseIsExclusive` | src/jobs/system-account-provisioning.js:183-192 | at most one worker is busy with a row under a lease that has not run out |
| `Provisioning.BatchCountsBalance` | src/jobs/system-account-provisioning.js:180-256 | a finished batch has scanned = claimed + claimRaceLost and claimed = succeeded + failed |
| `Provisioning.RunIsSafe` | src/jobs/system-account-provisioning.js:150-256 | over every run the invariant holds and finished rows stay as they are |
| `Provisioning.ProvisioningIsBounded` | src/jobs/system-account-provisioning.js:150-256 | over every interleaving attempts never exceed maxAttempts, unfinished rows stay below it, and leases are exclusive |
| `Provisioning.AttemptsFallIff` | src/jobs/system-account-provisioning.js:183-256 | recorded attempts fall exactly when the holder's snapshot is two or more attempts behind the row |
| `Provisioning.EarlyClaimIff` | src/jobs/system-account-provisioning.js:183-192 | a claim takes a row before it is due exactly when the row is waiting or pending, or its lease ended before the batch started: nothing in the claim tests when it is due |
| `Provisioning.ScannedRowWasDue` | src/jobs/system-account-provisioning.js:165-179 | a waiting row was due when the scan read it |
| `Provisioning.StaleScanLosesAttempts` | src/jobs/system-account-provisioning.js:183-192 | a run in which a stale scan claims a row before its next attempt is due and lowers its attempts |
| `ProvisioningOutcomes.BackoffDoubles` | src/jobs/system-account-provisioning.js:122-130 | thirty seconds first, twice as long each time, an hour at most |
| `ProvisioningOutcomes.ClaimWrites` | src/jobs/system-account-provisioning.js:183-192 | a claim wins exactly a free row and writes its claim on that row alone |
| `ProvisioningOutcomes.OutcomeIsStored` | src/jobs/system-account-provisioning.js:205-256 | a write stores SUCCEEDED exactly for a done account, TERMINAL_FAILED exactly for a client error that is not retryable or the last attempt, RETRY_WAIT otherwise; only that one sets a next attempt |
| `ProvisioningOutcomes.OnlyStored` | src/jobs/system-account-provisioning.js:205-256 | no other row is written, and none by a write that is lost or finds its claim gone |
| `ProvisioningOutcomes.FinalStatusWasAnswered` | src/jobs/system-account-provisioning.js:150-256 | over every run from the start a succeeded row had a step in which the service answered done, and a terminally failed one a step that earned it |
| `Approval.ParseLevels` | src/lib/approvalMatrix.js:60-100 | a route is accepted if and only if every level, its name trimmed, meets its conditions, and is returned with trimmed names and unique approvers |
| `Approval.RefuseLevel` | src/lib/approvalMatrix.js:74-98 | the chain of throws refuses exactly the levels that break a condition |
| `Approval.RefuseRoute` | src/lib/approvalMatrix.js:74-98 | the loop over the levels refuses exactly the routes with a level that breaks a condition |
| `Approval.FinalGuardIsUnreachable` | src/lib/approvalMatrix.js:113-161 | a validated route fails to seal exactly when a required level is deserted; the final guard never fires and the sealed route ends in an open decision |
| `Approval.FindNext` | src/lib/approvalMatrix.js:164-174 | the scan finds the next actionable level, raises or finds nobody |
| `Approval.FindPrevious` | src/lib/approvalMatrix.js:177-183 | the backward scan finds the previous open level |
| `Approval.NextIsFirst` | src/lib/approvalMatrix.js:164-174 | the answer is the first level that cannot be passed over, with its people who have not acted |
| `Approval.PreviousUndoesNext` | src/lib/approvalMatrix.js:164-183 | with nobody acted, going back from the next level leads to where one came from |
| `Approval.NextUndoesPrevious` | src/lib/approvalMatrix.js:164-183 | with nobody acted, going forward from the previous level leads back |
| `Approval.WalkRises` | src/lib/approvalMatrix.js:164-174 | a walk visits open levels in strictly rising order, each by an assigned person who had not acted |
| `Approval.WalkCovers` | src/lib/approvalMatrix.js:164-174 | a level behind a walk was visited, was not open, or was optional with all its people spent |
| `Approval.WalkEndsAtDecision` | src/lib/approvalMatrix.js:164-174 | a walk never runs out before the deciding level |
| `Approval.DeciderIsIndependent` | src/lib/approvalMatrix.js:113-174 | the decider is neither initiator nor subject nor an earlier actor, and every required open level was visited first |
| `Approval.MatrixSeparatesDuties` | src/lib/approvalMatrix.js:60-174 | the same from the published matrix to the decision, the decider being assigned to the last level |
| `RouteMeaning.Accepted` | src/lib/approvalMatrix.js:18-100 | a route is accepted exactly when every level meets the written conditions; names come back trimmed and approvers once each in order of first mention |
| `RouteMeaning.RouteIsSealed` | src/lib/approvalMatrix.js:113-161 | sealing throws exactly when a required level is empty; otherwise every sealed level has its people, its exemption, its skip reason and its flags by written conditions |
| `RouteMeaning.TurnIs` | src/lib/approvalMatrix.js:164-174 | the turn is that of the first level with somebody still to act, and raises at a stuck level before it |
| `RouteMeaning.PreviousTurnIs` | src/lib/approvalMatrix.js:177-183 | going back leads to the last open level before |
| `Bridge.BatchLines` | scripts/attendance_csv_bridge.py:70-79 | the loop over a batch gives the eligible lines in order, stripped as Python strips them, or raises on a bad row |
| `Bridge.Forwarder.OneBatch` | scripts/attendance_csv_bridge.py:68-83 | a batch sends, advances the checkpoint and saves it, and stops where something fails |
| `Bridge.Forwarder.ForwardFile` | scripts/attendance_csv_bridge.py:53-84 | one run over a file, with failing sends and saves |
| `Bridge.DeliversInOrder` | scripts/attendance_csv_bridge.py:67-84 | within a run sends follow file order without a gap, and a finished run has sent and counted every row |
| `Bridge.ChangedRowsHoldDelivery` | scripts/attendance_csv_bridge.py:64-66 | when a counted row changed or is gone nothing is sent and no checkpoint moves |
| `Bridge.CheckpointsAreBacked` | scripts/attendance_csv_bridge.py:53-84 | over every history of runs, failures and restarts every eligible row below a checkpoint was acknowledged |
| `Bridge.FinishedRunDeliversAll` | scripts/attendance_csv_bridge.py:53-84 | after any history a run that ends without error leaves every eligible row of the file acknowledged |
| `Bridge.RowsAreAcknowledgedOnce` | scripts/attendance_csv_bridge.py:53-84 | each eligible row is acknowledged exactly once unless a process is killed between a send and its checkpoint or restarted after a save that was lost |
| `BridgeRuns.LinesAre` | scripts/attendance_csv_bridge.py:70-79 | a line for exactly each row of the start date or later, with its fields, and an error exactly when a row is bad |
| `BridgeRuns.ForwardRuns` | scripts/attendance_csv_bridge.py:53-84 | a run waits, raises, or passes batches of the given size one after the other, each sent, acknowledged and counted, up to the end or to the batch that fails, with what each failure leaves |
| `IdempotencyStore.MemoryStore.Live` | src/lib/idempotency-store.js:31-39 | reading a key drops it when its time is over |
| `IdempotencyStore.MemoryStore.PutEntry` | src/lib/idempotency-store.js:40-47 | a present key keeps its place; a new one goes last, after the oldest when the store is full |
| `IdempotencyStore.MemoryStore.Reserve` | src/lib/idempotency-store.js:51-60 | answers reserved, in flight or the committed value, and takes the key when it is free |
| `IdempotencyStore.MemoryStore.Commit` | src/lib/idempotency-store.js:61-63 | records the value with a new lifetime |
| `IdempotencyStore.MemoryStore.Release` | src/lib/idempotency-store.js:64-66 | drops the key |
| `IdempotencyStore.SizeIsBounded` | src/lib/idempotency-store.js:28-70 | over all call sequences the store never exceeds its limit and holds each key once |
| `IdempotencyStore.ReservedOnce` | src/lib/idempotency-store.js:51-70 | after a key was reserved, and until it is released, expires or is evicted, a reserve answers in flight or replays exactly the last commit, never reserved |
| `IdempotencyStore.CommitIsReplayed` | src/lib/idempotency-store.js:51-70 | after a commit, and until then, a reserve replays the last committed value |
| `IdempotencyStore.OldestFirst` | src/lib/idempotency-store.js:40-47 | over all call sequences the entries stand in the order in which their keys were put in |
| `IdempotencyStore.EvictionTakesOldest` | src/lib/idempotency-store.js:40-47 | a key that a call does not name disappears only from a full store, for a new key, and was put in before every other |
| `StoreCalls.AnswerIs` | src/lib/idempotency-store.js:51-60 | a reserve replays a commit that still runs, answers in flight for a reservation that does, and reserves otherwise |
| `StoreCalls.OneAnswer` | src/lib/idempotency-store.js:51-60 | only one answer fits what the store holds |
| `StoreCalls.CallsAre` | src/lib/idempotency-store.js:28-70 | over all call sequences, what the next call leaves, slot by slot: appended last after the oldest went, replaced in place, or dropped |
| `EditDistance.Levenshtein` | src/lib/employeeImportTaxonomy.js:299-313 | the one-row loop returns the recursive minimum over insert, delete and substitute |
| `EditDistance.OverwriteRow` | src/lib/employeeImportTaxonomy.js:304-311 | the inner loop turns one row of the table into the next in place |
| `EditDistance.DistIsEditDistance` | src/lib/employeeImportTaxonomy.js:299-313 | that minimum is the least number of single-character edits from one string to the other |
| `EditDistance.DistIsSymmetric` | src/lib/employeeImportTaxonomy.js:299-313 | the distance is symmetric |
| `EditDistance.TriangleInequality` | src/lib/employeeImportTaxonomy.js:299-313 | the distance satisfies the triangle inequality |
| `EditDistance.DistZeroMeansEqual` | src/lib/employeeImportTaxonomy.js:299-313 | the distance is zero exactly for equal strings |
| `EditDistance.Nearest` | src/lib/employeeImportTaxonomy.js:314-326 | the first closest named candidate within the threshold, or null when there is none, for any case folding |
| `EditDistance.WithinThreshold` | src/lib/employeeImportTaxonomy.js:323-325 | close enough means two edits, or less than one more than two fifths of the longer length |
| `Nacha.BuildNachaFile` | src/lib/bankFileFormats.js:69-180 | the pushes, running sums and padding loop print the records of the file |
| `Nacha.BuildEntries` | src/lib/bankFileFormats.js:119-142 | one entry per row, with the running hash and credit total |
| `Nacha.PadBlock` | src/lib/bankFileFormats.js:175-177 | all-nines records fill the last block |
| `Nacha.FileIsBlocked` | src/lib/bankFileFormats.js:69-180 | every record is 94 characters on one line and the file has ten lines for every declared block |
| `Nacha.AmountColumnIsExact` | src/lib/bankFileFormats.js:34-37 | the amount column holds the amount if and only if it is not negative and has at most ten digits |
| `Nacha.EntryDetail` | src/lib/bankFileFormats.js:122-141 | an entry is 94 characters with the routing prefix and the amount in columns 4-11 and 30-39 |
| `Nacha.EntryColumns` | src/lib/bankFileFormats.js:122-141 | the remaining columns of an entry at the positions of the ACH record format |
| `Nacha.BatchControl` | src/lib/bankFileFormats.js:144-157 | a batch control has its entry count, hash and total credit at their positions |
| `Nacha.FileControl` | src/lib/bankFileFormats.js:159-173 | a file control has its block count, entry count, hash and total credit at their positions |
| `Nacha.LinesOfJoin` | src/lib/bankFileFormats.js:179-179 | cutting the text at line breaks gives the records back |
| `Nacha.TextReadsBack` | src/lib/bankFileFormats.js:69-180 | reading the text back, both control records hold the entry count, routing hash and credit total that the entry columns add up to, each up to its own width |
| `BankColumns.FileReads` | src/lib/bankFileFormats.js:69-180 | every column of all five records, for all rows and options: headers with their defaults, entries with direction code, account, name and trace number, controls, and fillers up to the last block |
| `BankColumns.FileHeaderIs` | src/lib/bankFileFormats.js:85-99 | every column of the file header |
| `BankColumns.BatchHeaderIs` | src/lib/bankFileFormats.js:102-116 | every column of the batch header |
| `BankColumns.EntryIs` | src/lib/bankFileFormats.js:122-141 | every column of an entry |
| `Decimals.LastDigitsValue` | src/lib/bankFileFormats.js:34-37 | a fixed-width numeric field keeps a number up to the field's modulus |
| `Csv.CsvRoundTrip` | src/lib/export.util.js:22-35 | reading the printed table by section 2 of RFC 4180 returns exactly the head and cell texts |
| `Csv.PrintingIsInjective` | src/lib/export.util.js:22-35 | tables that print alike have the same texts |
| `Csv.FinalBreakIsAmbiguous` | src/lib/export.util.js:30-35 | a reader that counts a final line break to the last record loses the last row exactly when it is a single empty cell |
| `Csv.CellIs` | src/lib/export.util.js:22-26 | a field is quoted, with its quotes doubled, exactly when it holds a comma, a quote or a line break; a missing one prints as nothing |

## Left out

- Accounting.NoInstantPaidTwice: for punches whose instants are their civil times, since elapsed minutes are otherwise measured on another clock than the windows.
- Bridge.CheckpointsAreBacked: the digest of a prefix stands for the prefix itself, so a hash collision is not modelled.
- Outbox.OutboxIsSafe: the scan order and the batch limit are abstracted to any list of distinct claimable rows.
- Provisioning.ProvisioningIsBounded: manual retry (src/jobs/system-account-provisioning.js, 268-293), an unconditional update, is not a step.
- Pricing.ComputeTimingDeductions: the label text and the counter name of a line are not kept.
- Nacha.BuildNachaFile: names and account types arrive upper-cased, so toUpperCase itself is not modelled.
- Nacha.TextReadsBack: the sum of the eight-digit prefixes is exact rather than a double.
- Lengths of texts count characters, where JavaScript counts UTF-16 code units.
- Verdict.AnomalyFacts: the from and to times and texts of an anomaly are not kept.
- RosterWalk.SessioniseByRoster: shaping the directions of a session's punches (src/lib/attendanceReplay.js, 326-400) is not modelled.
- Rounding of JavaScript doubles: minutes, percentages and days are compared exactly.
- Time zones, daylight saving and parsing of dates, and zod parsing of approval levels beyond their shape.
- Choosing grace from dated rules, timing-credit normalisation, the redis idempotency store, bridge heartbeats, PDF and PNG output, the bank CSV format.
- Controllers, routes, boot, metrics, seeds, queues and the database joins around the cores.
