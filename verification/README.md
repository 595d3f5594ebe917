# Verified model of the USALI back office's decision core

This project models, in Dafny, the parts of the hotel accounting system that decide money, dates and populations, and
proves what those parts promise.

* **General-ledger posting.** `GlPlan` specifies the two builders that turn signed facts into balanced, sided lines;
  `GlRefusals` says from facts and
  chart alone when they plan or refuse; `GlBuilders` gives their loops and proves them equal to that specification. `GlEngine` is the posting engine as a state
  machine: facts, labor, chart, calendars, an append-only journal, one ledger row per grain (property, date, source) and
  an append-only log of period events. `GlInvariant` states what every step keeps; `GlTheorems` and `GlSweep` prove the
  whole-run results; `GlBooks` is the mutable object whose methods do what the functions of `GlEngine` say.
* **Fiscal calendar.** `Gregorian` is the proleptic calendar over day ordinals for every integer year; `Fiscal` is period
  keys, calendar-month and 4-4-5 bounds, their tiling, and the inverse of the resolver.
* **Apportionment and attribution.** `Apportionment` is the exact largest-remainder split; `Timecards` turns a day's
  clock events into worked minutes by property with it, and `Attribution` those into a card's hours.
* **Assignments.** Effective-dated placements and which property issues a paycheck.
* **Demand feed.** An append-only log of pulls, read by the newest covering batch.
* **Rooms available** (`Inventory`) and the **one-time invite** (`Invites`).
* `Prelude`, `Sums`, `Ordering` and `PyText` hold shared definitions: results, sums over sequences, sorted listings and
  the text handling of period keys.

Money is counted in integer units of 0.0001, days are ordinals, an entry's id is its position in the journal, and each
call is one atomic step. `dafny verify dfyconfig.toml` checks everything.

## What the proofs found

* **A close under a non-canonical key freezes nothing.** `_parse_key` accepts `2026-P7`, the period resolves, and a close
  event is written, but posting looks its date up as `2026-P07` and the event log compares text. The freeze holds if and
  only if the key is spelt as `periods_in_year` prints it (`CloseFreezesIffCanonical`, `ShortSpelling`).
* **`overlaps_period` is wider than its docstring.** A placement that ends on or before its first day overlaps a period
  and is in force on no day of it. The two agree if and only if the range is non-empty (`OverlapExact`,
  `ZeroWidthOverlaps`); the pay-run population is unaffected (`PopulationExact`).
* **`property_minutes_for_day` does not keep every total its docstring promises.** A day with a property recorded at zero
  minutes and some unrecorded ones loses the latter, because the weight basis is not positive (`ZeroDayLoses`);
  `DayConservedIff` and `HoursTieOut` give the exact conditions. Neither caller reaches them: the maps they pass come from
  `compute_day`, whose split keeps only positive shares (src/usali/timecards.py:266). For those the totals hold without
  any condition, from clock events to hours (`DaySound`, `ClockedCardTiesOut`).
* **Negative weights are outside apportionment's promise.** Any split of a positive basis is refused exactly when the
  truncated shares exceed the total (`ResultTotal`); `NegativeWeightsRefused` gives a concrete instance. With
  non-negative weights that never happens (`ApportionFair`).
* **`revert_claim` does not know whose claim it undoes.** A revert by someone other than the winner is harmless if and
  only if the invite is not consumed or no worker is between claim and recording (`StrayRevertHarmlessIff`); otherwise two
  tenants can come of one invite (`StrayRevertTwoTenants`). The sign-up path never makes such a call: only the winner
  reverts, when its provisioning failed (src/usali/signup_api.py:214-307), and then `OneInviteOneTenant` holds.
* **`rooms_available` clamps nothing.** Its docstring sums `max(0, …)` per day; the code refuses a negative day. The
  model follows the code.

## Model

| member | source | states |
|---|---|---|
| `GlPlan.FinishBalanced` | src/usali/gl_posting.py:181-194 | the out-of-balance error is raised exactly by lines whose signed sum is not zero |
| `GlPlan.EqualFingerprintsEqualNets` | src/usali/gl_posting.py:195-212 | two line lists with the same fingerprint have the same net on every account, so a noop cannot hide a changed balance |
| `GlPlan.FingerprintExact` | src/usali/gl_posting.py:195-212 | two fingerprints agree exactly when property, date and the multiset of (account, side, amount) do; order, memos and links do not matter |
| `GlPlan.EmitKeepsNets` | src/usali/gl_posting.py:281-302 | when no code is missing, a bucket's lines carry each account's net and the bucket's total, although zero groups are dropped and signs become sides |
| `GlPlan.BucketsPartition` | src/usali/gl_posting.py:265-276 | the four buckets are distinct and every fact falls in one |
| `GlPlan.BucketsAddUp` | src/usali/gl_posting.py:304-308 | any measure the lines keep bucket by bucket is kept over all facts |
| `GlPlan.EmittedNets` | src/usali/gl_posting.py:278-308 | all emitted lines together carry every account's net and the grand total |
| `GlPlan.PmsPlanSound` | src/usali/gl_posting.py:215-343 | for any facts and chart: never out of balance, no plan exactly when there are no facts, and a plan has positive balanced lines whose net on each account is the facts', the clearing account also bearing minus the grand total |
| `GlPlan.LinesTrace` | src/usali/gl_posting.py:120-123 | every line but the clearing line posts to an active account, its signed amount is the sum of the facts of its bucket and code, and it links to a fact exactly when that fact alone makes up the line |
| `GlPlan.PayrollPlanSound` | src/usali/gl_posting.py:346-398 | never out of balance, no plan exactly when the day nets to zero, and a plan moves the whole cost from the expense to the liability account with positive lines |
| `GlPlan.PmsPlanOrderBlind` | src/usali/gl_posting.py:169-212 | plan, fingerprint and refusals depend only on the multiset of facts |
| `GlPlan.PayrollPlanOrderBlind` | src/usali/gl_posting.py:353-398 | the accrual plan depends only on the multiset of labor rows |
| `GlRefusals.EmittedBalance` | src/usali/gl_posting.py:310-312 | whatever codes are missing, the emitted lines are out of balance by exactly the facts on active accounts |
| `GlRefusals.PmsPlanExact` | src/usali/gl_posting.py:247-343 | for all facts and charts, which answer: nothing without facts; uncoded facts refused by exactly their lines; a missing clearing role refused exactly when the facts on active accounts do not come to zero and no active account carries it; then exactly the codes with money in a bucket and no active account; otherwise a plan |
| `GlRefusals.BehindExact` | src/usali/gl_posting.py:265-276 | the facts behind a line, by schedule, major category and code |
| `GlRefusals.GroupHasLine` | src/usali/gl_posting.py:285-302 | every bucket's code with money on it has its line |
| `GlRefusals.LinesInOrder` | src/usali/gl_posting.py:285-308 | lines come bucket by bucket, by code within a bucket, one a code, the clearing line last |
| `GlRefusals.PayrollPlanExact` | src/usali/gl_posting.py:359-370 | nothing when the day nets to zero; then the expense role, then the liability role refused exactly when no active account carries it; otherwise a plan |
| `GlRefusals.AccrualLinesTrace` | src/usali/gl_posting.py:375-398 | every line is one department's cost on the active expense account or the day's cost on the active liability account |
| `GlRefusals.AccrualLinesInOrder` | src/usali/gl_posting.py:384-398 | departments by number, the unassigned one after them, the liability last |
| `GlRefusals.DepartmentHasLine` | src/usali/gl_posting.py:375-388 | every department with a cost has its line |
| `GlBuilders.GroupByGl` | src/usali/gl_posting.py:169-178 | the dictionary loop holds exactly the codes present, each with the sum of its facts |
| `GlBuilders.FactsByCode` | src/usali/gl_posting.py:282-284 | the groups are the facts of each code, in row order |
| `GlBuilders.GroupLine` | src/usali/gl_posting.py:286-302 | zero nets are dropped, missing codes collected, and the side, magnitude and drill-through link follow from net and group |
| `GlBuilders.EmitCodes` | src/usali/gl_posting.py:285-302 | the loop appends one group's line after another, in code order |
| `GlBuilders.EmitBucket` | src/usali/gl_posting.py:281-302 | appends exactly the bucket's specified lines and adds exactly its missing codes |
| `GlBuilders.EmitFacts` | src/usali/gl_posting.py:304-308 | the buckets are emitted one after another, in line order |
| `GlBuilders.BalanceAndFinish` | src/usali/gl_posting.py:310-343 | a missing clearing role is refused before missing accounts, otherwise the remainder is balanced and the plan finished |
| `GlBuilders.BuildPmsDailyPlan` | src/usali/gl_posting.py:241-343 | the procedure returns the specified plan or refusal, and so the verdict read off facts and chart, for any of them |
| `GlBuilders.CostByDept` | src/usali/gl_posting.py:361-363 | the dictionary holds each department's cost |
| `GlBuilders.TotalOver` | src/usali/gl_posting.py:364 | the departments' costs add up to the cost of all rows |
| `GlBuilders.AccrueByDept` | src/usali/gl_posting.py:375-388 | one sided line per department with nonzero cost, in department order |
| `GlBuilders.BuildPayrollAccrualPlan` | src/usali/gl_posting.py:353-398 | the procedure returns the specified plan or refusal; a zero-net day is settled before any role is looked up |
| `GlInvariant.FlipNegates` | src/usali/gl_posting.py:459-472 | flipping an entry's sides negates its net on every account and its balance |
| `GlInvariant.FreshKeepsInv` | src/usali/gl_posting.py:617-629 | a first entry on a grain keeps the invariant |
| `GlInvariant.ReversalKeepsInv` | src/usali/gl_posting.py:582-593 | reversing the standing entry and deleting the row keeps the invariant, even if its accounts have left the chart |
| `GlInvariant.RepostKeepsInv` | src/usali/gl_posting.py:602-616 | reversal plus fresh entry keeps the invariant |
| `GlInvariant.BuildSound` | src/usali/gl_posting.py:565 | for either source the plan is sound or there is none; never out of balance |
| `GlInvariant.StandingRebuilds` | src/usali/gl_posting.py:477-504 | a standing entry always rebuilds into a plan with its own lines and fingerprint |
| `GlInvariant.PostKeepsInv` | src/usali/gl_posting.py:507-637 | every post keeps the invariant and lets no invariant error escape |
| `GlInvariant.RunKeepsInv` | src/usali/gl_posting.py:439-637 | so does every run of posts, closes, reopens and edits |
| `GlInvariant.ReachableInv` | src/usali/gl_posting.py:439-637 | the invariant holds in every state reachable from empty books |
| `GlTheorems.PostEffect` | src/usali/gl_posting.py:525-531 | each outcome status means exactly its documented change: the entry stored is the plan built, the row points at it with its fingerprint and no message, and a post touches nothing but the journal's end and its own row |
| `GlTheorems.JournalOnlyGrows` | src/usali/gl_posting.py:439-474 | over any run the old journal is a prefix of the new one |
| `GlTheorems.ReversalStructure` | src/usali/gl_posting.py:566-629 | in every reachable state a reversal mirrors an earlier non-reversal of its grain line by line (same account, amount, memo and link, other side), nothing is reversed twice, and the standing entries are exactly the ledger rows' entries, one to one |
| `GlTheorems.ReversalsCancel` | src/usali/gl_posting.py:439-637 | in every reachable state a grain's journal net on each account is that of the entry its row points at, zero when there is none |
| `GlTheorems.WallsNeverHit` | migrations/versions/g1a0glcore_gl_posting_core.py:158-210 | in every reachable state all entries balance with positive amounts, a row is posted exactly when it holds an entry, and no post escapes with an error |
| `GlTheorems.PostSyncs` | src/usali/gl_posting.py:566-629 | with the chart on, any outcome but failed leaves the grain in step with its facts |
| `GlTheorems.ChartOffSkips` | src/usali/gl_posting.py:532-533 | with no active account every post is skipped and changes nothing |
| `GlTheorems.PostFailsExactly` | src/usali/gl_posting.py:562-637 | with an active account, a post fails exactly when the calendar is missing, the facts are refused, or the period is closed over a grain out of step, with the reason for each, and appends entries exactly when none of these holds and the grain is out of step |
| `GlTheorems.SyncedBooksAgree` | src/usali/gl_posting.py:594-599 | a grain in step has on every account exactly the net its facts call for, even when the line lists differ |
| `GlTheorems.FactsReadOnce` | src/usali/gl_posting.py:241-246 | reading a grain's facts counts each row of the table exactly once |
| `GlTheorems.LaborReadOnce` | src/usali/gl_posting.py:353-358 | likewise for labor rows |
| `GlTheorems.SyncedBooksMatchTables` | src/usali/gl_posting.py:215-398 | a grain in step has on every account the net its rows of the tables call for |
| `GlTheorems.BooksAgreeWithFacts` | src/usali/gl_posting.py:215-629 | after any history, a successful post makes the grain's net on each account the sum over the fact table of the rows with its property, date and code, each once, the clearing account also bearing minus the sum of the grain's rows (for payroll, the labor table's cost on the two role accounts), and it stays so through later posts, closes, reopens and calendar edits |
| `GlTheorems.PostIdempotent` | src/usali/gl_posting.py:545-637 | a second post with nothing changed changes nothing, whatever the first outcome |
| `GlTheorems.PostOrderBlind` | src/usali/gl_posting.py:281-308 | permuting the fact and labor tables changes neither journal, ledger nor outcome |
| `GlTheorems.FrozenPost` | src/usali/gl_posting.py:566-601 | a post dated in a closed canonical period writes no entry |
| `GlTheorems.ClosedPeriodFreezes` | src/usali/gl_posting.py:424-436 | from a close until its reopening, no run appends an entry of that property dated inside the period |
| `GlTheorems.RefusedOnlyInside` | src/usali/gl_posting.py:576-601 | a post is refused on account of a key only if the key is closed, canonical and its range holds the date |
| `GlTheorems.IsClosedExact` | src/usali/gl_posting.py:424-436 | closed exactly when some close event of that property and key text has no later event of them |
| `GlTheorems.UntouchedIsOpen` | src/usali/gl_posting.py:436 | a period no event was written for is open |
| `GlTheorems.InitialRefusesNoPeriod` | src/usali/gl_posting.py:424-436 | new books refuse no post on account of a period |
| `GlTheorems.CloseExact` | src/usali/gl_posting.py:721-737 | a close shuts exactly its own property and key text, only when the key resolves, writes at most that one event, answers with the gaps as they stood, and repeating it adds nothing |
| `GlTheorems.ReopenExact` | src/usali/gl_posting.py:740-756 | a reopening opens exactly its own property and key, only with a reason that is not blank, and writes at most that one event |
| `PyText.StripBlank` | src/usali/gl_posting.py:746-747 | stripping leaves nothing exactly of a reason made of blanks |
| `GlTheorems.CloseFreezesIffCanonical` | src/usali/gl_posting.py:721-737 | a close freezes the days of its key's range if and only if the key is canonical |
| `GlTheorems.PutAccountKeepsRoles` | src/usali/gl_api.py:237-289 | no chart upsert unseats the account a role resolves to |
| `GlTheorems.PutAccountExact` | src/usali/gl_api.py:256-288 | refused exactly when it would deactivate an account carrying a role; accepted, the code is active as asked with its role kept, and every other row is untouched |
| `GlSweep.GapsExact` | src/usali/gl_posting.py:647-718 | under the invariant the unposted dates are exactly the period's days with facts and no standing daily entry, the orphaned ones exactly those where an entry of either source stands over no facts |
| `GlSweep.GapsAnswered` | src/usali/gl_posting.py:670-671 | gaps are refused exactly without a calendar or for a key that does not parse |
| `GlSweep.SweepReports` | src/usali/gl_api.py:425-444 | two report rows per date, dates in order, the daily source first |
| `GlSweep.SweepKeeps` | src/usali/gl_api.py:425-444 | a sweep keeps the invariant and changes only journal and ledger |
| `GlSweep.SweepSyncsOrFails` | src/usali/gl_api.py:425-444 | with the chart on, every grain visited ends in step with its facts or is reported failed |
| `GlSweep.SweepClosesGaps` | src/usali/gl_posting.py:666-718 | after a sweep covering the period, a date is unposted or orphaned only where the sweep reported a failure |
| `GlSweep.CleanSweepNoGaps` | src/usali/gl_posting.py:666-718 | a sweep with no failed row leaves both gap lists empty |
| `GlBooks.Books.WriteEntry` | src/usali/gl_posting.py:439-474 | appends one entry with the plan's lines, each flipped for a reversal, and touches nothing else |
| `GlBooks.Books.RecordFailure` | src/usali/gl_posting.py:545-560 | the refusal lands on the grain's row and a standing entry stays in place |
| `GlBooks.Books.ReverseStanding` | src/usali/gl_posting.py:582-590 | rebuilds the standing entry, which always succeeds, and appends its mirror |
| `GlBooks.Books.PostWithoutPlan` | src/usali/gl_posting.py:566-593 | skip, refuse or reverse, as specified |
| `GlBooks.Books.ReverseAndRepost` | src/usali/gl_posting.py:602-616 | reversal, fresh entry and row update together are the specified repost |
| `GlBooks.Books.PostPlan` | src/usali/gl_posting.py:594-629 | noop, refuse, repost or post, as specified |
| `GlBooks.Books.BuildPlan` | src/usali/gl_posting.py:565 | builds the plan of the grain's source from its own facts |
| `GlBooks.Books.PostAndRecord` | src/usali/gl_posting.py:507-637 | new state and outcome are the specified ones, the invariant is kept and no error escapes |
| `GlBooks.Books.GapsOf` | src/usali/gl_posting.py:666-718 | the answer is the specified gaps in both directions, or the refusal |
| `GlBooks.Books.ClosePeriod` | src/usali/gl_posting.py:721-737 | one close event unless closed already, gaps answered either way |
| `GlBooks.Books.ReopenPeriod` | src/usali/gl_posting.py:740-756 | a blank reason is refused, an open period left alone, otherwise one reopen event |
| `GlBooks.Books.PutAccount` | src/usali/gl_api.py:256-288 | the upsert or its refusal, and every resolvable role keeps its account |
| `GlBooks.Books.PostDay` | src/usali/gl_api.py:427-443 | both sources of one date, in registry order |
| `GlBooks.Books.PostRange` | src/usali/gl_api.py:388-446 | accepted exactly for an ordered range of at most 400 days with a calendar; then state and outcomes are the specified sweep |
| `Fiscal.ParseOfPrint` | src/usali/fiscal.py:55-63 | every printed key, for every integer year, parses back to its year and period |
| `Fiscal.ParseKeyExact` | src/usali/fiscal.py:55-63 | a key parses exactly when it has one "-P" with an integer on each side, the second in 1 to 12 |
| `Fiscal.KeySample` | src/usali/fiscal.py:112 | the key of period 7 of 2026 reads 2026-P07 |
| `Fiscal.ShortSpelling` | src/usali/fiscal.py:55-63 | for every year and period 1 to 9, the one-digit spelling resolves like the canonical key and is not canonical |
| `Fiscal.WholeYearsIsFloor` | src/usali/fiscal.py:66-70 | the year carried by a month count is its floor by twelve |
| `Fiscal.FyAnchor` | src/usali/fiscal.py:79-84 | the anchor has the wanted weekday and is within a week of the 1st of the start month |
| `Fiscal.AnchorsApart` | src/usali/fiscal.py:79-84 | consecutive anchors are exactly 364 or 371 days apart |
| `Fiscal.MonthPeriodsExact` | src/usali/fiscal.py:66-76 | a calendar-month period is one whole month, the first one the start month's |
| `Fiscal.WeekPeriodsExact` | src/usali/fiscal.py:87-99 | 4-4-5 periods last 28, 28 and 35 days from the anchor, the last up to the next anchor |
| `Gregorian.MonthAfter` | src/usali/fiscal.py:66-76 | consecutive firsts are a month's length apart, for every year |
| `Gregorian.KnownDays` | src/usali/fiscal.py:79-84 | day 1 is 1 January of year 1, and 1 January 1970 is day 719163, a Thursday |
| `Fiscal.PeriodsTile` | src/usali/fiscal.py:66-106 | each period of either calendar is non-empty and ends the day before the next begins, across years too |
| `Fiscal.PeriodsTileAll` | src/usali/fiscal.py:66-106 | the periods of all years tile all days |
| `Fiscal.PeriodsOrdered` | src/usali/fiscal.py:66-106 | an earlier period ends before a later one begins |
| `Fiscal.PeriodUnique` | src/usali/fiscal.py:102-106 | a day lies in one period only |
| `Fiscal.SomePeriodHolds` | src/usali/fiscal.py:118-132 | every day lies in a period of its own calendar year's fiscal year or the one before |
| `Fiscal.KeyUnique` | src/usali/fiscal.py:102-115 | canonical keys whose ranges share a day are equal |
| `Fiscal.KeyOf` | src/usali/fiscal.py:118-132 | for every day there is a canonical key whose range holds it |
| `Fiscal.HoldsExactlyItsKey` | src/usali/fiscal.py:118-132 | a canonical key's range holds a day if and only if it is that day's key |
| `Fiscal.Bounds445` | src/usali/fiscal.py:87-99 | the cursor loop yields the twelve blocks, the last stretched to the next anchor |
| `Fiscal.MonthPeriod` | src/usali/fiscal.py:66-76 | stepping to the month and one more month gives the specified bounds |
| `Fiscal.BoundsOfPeriod` | src/usali/fiscal.py:104-106 | the specified bounds for either calendar |
| `Fiscal.Resolve` | src/usali/fiscal.py:102-106 | the specified range, or a refusal exactly for keys that do not parse |
| `Fiscal.KeyedPeriod` | src/usali/fiscal.py:112-114 | the printed key always resolves, to that period's bounds |
| `Fiscal.PeriodsInYear` | src/usali/fiscal.py:109-115 | twelve rows, each a canonical key with its own bounds |
| `Fiscal.LastBegun` | src/usali/fiscal.py:125-127 | the backwards search stops, within one year, at the year whose anchors bracket the day |
| `Fiscal.YearContaining445` | src/usali/fiscal.py:123-127 | the search stops in the day's year or the one before, at the year whose anchors bracket the day |
| `Fiscal.FirstHolding` | src/usali/fiscal.py:128-130 | the first listed range holding the day, none exactly when no range does |
| `Fiscal.FiscalYearOf` | src/usali/fiscal.py:120-127 | the fiscal year the day settles in, for either calendar |
| `Fiscal.PeriodContaining` | src/usali/fiscal.py:118-132 | always returns the one canonical key whose range holds the day; the final refusal is unreachable |
| `Apportionment.SharesAddUp` | src/usali/apportion.py:88-98 | for any integer weights of positive sum, the shares add up to the total exactly when the shortfall is not negative |
| `Apportionment.ResultTotal` | src/usali/apportion.py:100-106 | the final check fires exactly when the shortfall is negative |
| `Apportionment.ApportionFair` | src/usali/apportion.py:62-106 | with non-negative weights of positive sum: never refused, sums exactly to the total for either sign, every share has the total's sign or is zero, zero weights get zero, and each share is within one quantum of the proportion |
| `Apportionment.SharesOptimal` | src/usali/apportion.py:91-98 | no split of n quanta strays less in total from the exact proportions |
| `Apportionment.ApportionOptimal` | src/usali/apportion.py:81-100 | no other split of the total into whole quanta strays less from the exact shares, for either sign |
| `Apportionment.HeavierGetsNoLess` | src/usali/apportion.py:94-98 | a key with a larger weight never gets a share of smaller magnitude |
| `Apportionment.EarlierGetsNoLess` | src/usali/apportion.py:94-98 | of two keys of equal weight the earlier in text order never gets the smaller magnitude |
| `Apportionment.EarlierToppedFirst` | src/usali/apportion.py:94-98 | of two keys with equal remainders the earlier is topped up first |
| `Apportionment.InexactExactly` | src/usali/apportion.py:66-79 | refused as inexact exactly when the weights are positive in sum and the total is no whole number of quanta |
| `Apportionment.NothingToSplit` | src/usali/apportion.py:62-73 | with no positive basis or a zero total every key gets zero |
| `Ordering.LexLeExact` | src/usali/apportion.py:62 | text order: a prefix first, otherwise the first differing character |
| `Apportionment.NegativeWeightsRefused` | src/usali/apportion.py:101-105 | weights -1, -1 and 4 make one quantum fail the final check |
| `Apportionment.TopUp` | src/usali/apportion.py:93-98 | the loop gives one quantum to each of the first keys of the order and nothing to the others |
| `Apportionment.Distributed` | src/usali/apportion.py:88-98 | whole parts plus one quantum down the remainder order until the shortfall is met |
| `Apportionment.SplitQuanta` | src/usali/apportion.py:88-98 | each key's share is the specified one |
| `Apportionment.Apportion` | src/usali/apportion.py:54-106 | the procedure returns the specified split or refusal, for all inputs |
| `Timecards.ByTimeSound` | src/usali/timecards.py:177 | sorting gives time order and neither drops nor adds an event |
| `Timecards.ByTimeStable` | src/usali/timecards.py:177 | simultaneous events keep their given order |
| `Timecards.WatchCounts` | src/usali/timecards.py:192-229 | a property's minutes are those of the clock-ins there whose very next clock punch is a clock-out, lunches likewise, and nothing unclosed counts |
| `Timecards.WorkedSplitSound` | src/usali/timecards.py:257-266 | the split of non-negative spans is never refused, has only positive entries under the spans' own properties, and keeps every worked minute |
| `Timecards.DaySound` | src/usali/timecards.py:170-254 | for every list of events, in any order, the day's property minutes are positive and add up to exactly the minutes worked |
| `Timecards.WorkedExact` | src/usali/timecards.py:236 | the minutes worked are all spans less all lunches, both read off neighbouring punches in time order, never negative |
| `Timecards.DayFair` | src/usali/timecards.py:250-266 | each property's minutes are within one of its own spans' proportion of the minutes worked |
| `Timecards.WatchEvents` | src/usali/timecards.py:180-229 | the event loop counts the specified spans, shift and lunch |
| `Timecards.ComputeDay` | src/usali/timecards.py:170-254 | the specified day, warnings aside, with the minutes worked read off the punches |
| `Attribution.DayConservedIff` | src/usali/attribution.py:50-85 | a resolved day keeps its total if and only if nothing is unrecorded, or something is and either no property or a positive total was recorded |
| `Attribution.DaySplitGrows` | src/usali/attribution.py:67-85 | with non-negative recorded minutes of positive sum the day always resolves, to the recorded properties only, none losing minutes |
| `Attribution.DayAsRecorded` | src/usali/attribution.py:62-65 | with nothing unrecorded every property keeps its recorded minutes |
| `Attribution.DaySpreadFair` | src/usali/attribution.py:82-85 | each recorded property gets within one minute of its proportion of the unrecorded ones |
| `Attribution.DayToPrimary` | src/usali/attribution.py:70-79 | with nothing recorded all minutes go to the property of the one primary row in force |
| `Attribution.DayToNobody` | src/usali/attribution.py:70-78 | with no such row the day is unattributable, with two ambiguous |
| `Attribution.CardPerProperty` | src/usali/attribution.py:100-111 | a property's minutes on the card are the sum of what its worked days give it |
| `Attribution.AccruedFirst` | src/usali/attribution.py:101-111 | a refused card carries the refusal of its first refused worked day |
| `Attribution.HoursFair` | src/usali/attribution.py:115-118 | each property's hours are within a hundredth of its minutes' proportion of the rounded card |
| `Attribution.CardConserved` | src/usali/attribution.py:100-111 | the card's per-property minutes add up to the worked days' minutes |
| `Attribution.HundredthsNearest` | src/usali/attribution.py:115-117 | the rounded hours are within half a hundredth, with the minutes' sign |
| `Attribution.HoursTieOut` | src/usali/attribution.py:88-118 | for arbitrary day maps that resolve, the per-property hours add up exactly to total minutes over sixty rounded to hundredths, if and only if the card's minutes are not negative |
| `Attribution.ZeroDayLoses` | src/usali/attribution.py:67-85 | the losing input: one property recorded with zero minutes and any unrecorded minutes resolve to zero minutes |
| `Attribution.PositiveIsResolvable` | src/usali/attribution.py:62-68 | a day map with only positive entries always meets the conservation condition |
| `Attribution.PositiveCardTiesOut` | src/usali/attribution.py:88-118 | a card of such days is refused exactly when a worked day has nothing recorded and no single primary, never for want of a split, and otherwise its hours add up exactly to the rounded card |
| `Attribution.ClockedCardTiesOut` | src/usali/attribution.py:88-118 | the same for every card of days computed from clock events: the hours add up to the minutes punched, spans less lunches, over sixty and rounded |
| `Attribution.PropertyMinutesForDay` | src/usali/attribution.py:50-85 | the specified split or refusal for one day |
| `Attribution.AccumulateOver` | src/usali/attribution.py:110-111 | adds the listed properties' minutes into the totals, new keys starting at zero |
| `Attribution.Accumulate` | src/usali/attribution.py:110-111 | the totals and the day's minutes added pointwise |
| `Attribution.PropertyHoursForTimecard` | src/usali/attribution.py:100-118 | the specified hours, or the first refusal met |
| `Assignments.OverlapExact` | src/usali/assignments.py:83-122 | in force on some day of the period if and only if overlapping with a non-empty range |
| `Assignments.ZeroWidthOverlaps` | src/usali/assignments.py:110-122 | a placement ending the day it starts overlaps and is in force on no day |
| `Assignments.OwnerUnique` | src/usali/assignments.py:315-348 | the last-covered-day rule is single-valued |
| `Assignments.OwnerOf` | src/usali/assignments.py:315-348 | the rule always has an answer: one owner, none, or a refusal naming the ambiguous day |
| `Assignments.OwnerOnLastCoveredDay` | src/usali/assignments.py:334-348 | the backwards walk computes that answer |
| `Assignments.PreFilterHarmless` | src/usali/assignments.py:282-292 | whoever the rule gives a property is among its candidates |
| `Assignments.PopulationExact` | src/usali/assignments.py:282-312 | the population is exactly the employees whose last-covered-day owner is the property, refused exactly when a candidate is ambiguous |
| `Assignments.OnePayer` | src/usali/assignments.py:251-312 | two properties' populations for a period share nobody |
| `Assignments.OwnersArePayers` | src/usali/assignments.py:296-337 | the rows the walk looks at on a day of the period are exactly the table's primaries of the employee in force that day |
| `Assignments.SomebodyPays` | src/usali/assignments.py:261-275 | read off the table: if the last day of the period with a primary row in force has one property, that property's run pays the employee and no other does; with two, each of them refuses |
| `Assignments.OnlyPayersPay` | src/usali/assignments.py:282-312 | whoever a run pays has a primary there on their last covered day, and a run refuses exactly when an employee with an overlapping primary there has two properties on theirs |
| `Assignments.PrimaryExact` | src/usali/assignments.py:197-214 | none, the row or a refusal as no, one or two rows of the table are the employee's primary in force on the date |
| `Assignments.SampleExact` | src/usali/assignments.py:217-248 | the sample is exactly the employees with a primary in force at the property, refused exactly when one of them has two primary rows in force |
| `Assignments.GroupPrimaries` | src/usali/assignments.py:296-304 | each wanted employee's primary rows, in table order |
| `Assignments.OwnedAmong` | src/usali/assignments.py:306-312 | the employees the property owns, or one employee whose owner is ambiguous |
| `Assignments.EmployeeIdsPaidByDuring` | src/usali/assignments.py:251-312 | the procedure returns the specified population or an ambiguous employee and day |
| `Assignments.OneDayPeriod` | src/usali/assignments.py:197-248 | against sampling one date, a one-day pay period refuses if and only if a sampled employee has primaries at two properties, otherwise pays exactly the employees sampled, and agrees with every sample that is not refused |
| `DemandFeed.HeardIsReplayed` | src/usali/crm_pull.py:164-203 | the newest covering voice on a date is what replaying the pulls leaves there |
| `DemandFeed.MeetingIsFiltered` | src/usali/crm_pull.py:121-139 | the window's batches are all the property's batches, order kept, without those missing the window |
| `DemandFeed.CurrentRefinesReplay` | src/usali/crm_pull.py:121-203 | over any window current demand is the overwrite-by-horizon replay of all the property's pulls |
| `DemandFeed.CurrentWithinWindow` | src/usali/crm_pull.py:159-165 | nothing outside the window is reported, and each read carries its own date |
| `DemandFeed.SubWindowsAgree` | src/usali/crm_pull.py:190-203 | a sub-window read agrees with a wider one |
| `DemandFeed.ReplayedIsNewest` | src/usali/crm_pull.py:121-203 | read off the log: a date has demand exactly when the property's newest batch covering it has a row for it, and the figure is that row's |
| `DemandFeed.NewestExists` | src/usali/crm_pull.py:124-139 | a date some batch covers has a newest covering batch |
| `DemandFeed.OtherPropertiesKept` | src/usali/crm_pull.py:125-132 | a pull leaves every other property's demand alone |
| `DemandFeed.PreviousIsReplayWithoutNewest` | src/usali/crm_pull.py:206-222 | the second voice is the replay with the newest covering pull taken out |
| `DemandFeed.LatestReadsReplay` | src/usali/crm_pull.py:190-203 | the report lists exactly the replay's demand on the window, by rising date |
| `DemandFeed.PaceFollowsLatest` | src/usali/crm_pull.py:206-222 | the pace report's current column is the demand report |
| `DemandFeed.PaceRow` | src/usali/crm_pull.py:212-222 | each pace row's previous figure is the replay of all pulls but the newest covering one |
| `DemandFeed.NewestPullRewritesItsHorizon` | src/usali/crm_pull.py:71-203 | a newest pull sets its horizon to exactly what it states and changes nothing outside |
| `DemandFeed.FirstFault` | src/usali/crm_pull.py:91-101 | no fault exactly for pulls with distinct dates inside the horizon; otherwise the first faulty day's fault |
| `DemandFeed.DemandLog.StorePull` | src/usali/crm_pull.py:71-118 | stored exactly when acceptable, as one batch and its rows; a refusal names the first fault and writes nothing |
| `DemandFeed.DemandLog.SnapshotRows` | src/usali/crm_pull.py:152-163 | the dictionary holds exactly what each listed batch said on the window's dates; its later-row-wins rule never applies |
| `DemandFeed.DemandLog.VoicesOn` | src/usali/crm_pull.py:166-185 | one voice per covering batch, newest first, silence included |
| `DemandFeed.DemandLog.VoicesOver` | src/usali/crm_pull.py:164-187 | the listed dates, each with its history |
| `DemandFeed.DemandLog.VoicesByDate` | src/usali/crm_pull.py:142-187 | exactly the spoken dates of the window, each with its history |
| `DemandFeed.DemandLog.LatestDemand` | src/usali/crm_pull.py:190-203 | the replay of every pull, restricted to the window and listed by date |
| `DemandFeed.DemandLog.DemandPace` | src/usali/crm_pull.py:206-222 | the same current figures, each beside the replay without its newest covering pull |
| `Inventory.InForceIsLatest` | src/usali/inventory.py:41-53 | the count in force is that of the last row not after the day |
| `Inventory.FindInForce` | src/usali/inventory.py:41-53 | the scan with its early stop finds that count, or none |
| `Inventory.RefusedExactly` | src/usali/inventory.py:87-101 | refused exactly when some day has no count in force or more rooms out than in force; otherwise non-negative |
| `Inventory.InForceExact` | src/usali/inventory.py:41-53 | no count in force exactly when every row takes effect later; otherwise the latest row's |
| `Inventory.AvailableExactly` | src/usali/inventory.py:61-101 | refused exactly for a backwards window, or when some day has no row in effect or strictly more rooms out than its latest row has |
| `Inventory.FullyBlockedDay` | src/usali/inventory.py:69-70 | a day fully out of order answers zero |
| `Inventory.FirstRefusal` | src/usali/inventory.py:87-98 | the refusal is the first refusing day's |
| `Inventory.Additive` | src/usali/inventory.py:85-101 | splitting a window adds, and the whole refuses exactly when a part does |
| `Inventory.OutByDayOrBlock` | src/usali/inventory.py:89-91 | counting rooms out by day or by block gives the same room-nights |
| `Inventory.ClosedForm` | src/usali/inventory.py:61-101 | the answer is the summed in-force counts less each block's rooms times its clamped overlap days |
| `Inventory.WindowBlocks` | src/usali/inventory.py:75-83 | blocks the query leaves out take nothing from the window's days |
| `Inventory.RoomsAvailable` | src/usali/inventory.py:61-101 | the day loop returns the specified answer or the first day's refusal |
| `Invites.InviteRow.constructor` | src/usali/invites.py:43-48 | a new invite is pending with no tenant |
| `Invites.InviteRow.Validate` | src/usali/invites.py:54-67 | valid exactly when pending and not expired |
| `Invites.InviteRow.TryClaim` | src/usali/invites.py:77-95 | won exactly when pending and unexpired, and then no longer open |
| `Invites.InviteRow.Revert` | src/usali/invites.py:98-111 | only a tenant-less claim goes back to pending |
| `Invites.InviteRow.RecordOrg` | src/usali/invites.py:114-122 | fills in the tenant and nothing else, after which a revert does nothing |
| `Invites.InviteRow.ConsumeFor` | src/usali/invites.py:70-74 | consumed with the tenant recorded: never open again at any time, nor reverted |
| `Invites.InviteRow.Withdraw` | src/usali/invites.py:125-127 | revoked, tenant kept: not open at any time, and a revert does not bring it back |
| `Invites.RecordedStaysShut` | src/usali/invites.py:70-127 | once a tenant is recorded, no sequence of the five updates lets a claim succeed again |
| `Invites.ClaimExact` | src/usali/invites.py:77-95 | a claim wins exactly while the invite is pending and its expiry lies ahead, and changes only the status |
| `Invites.ExpiredStaysShut` | src/usali/invites.py:87-95 | after the expiry no sequence of updates lets a claim win |
| `Invites.RetryAfterFailure` | src/usali/invites.py:98-111 | a failed provisioning gives the invite back, and the next worker to claim in time wins |
| `Invites.StepExclusive` | src/usali/signup_api.py:214-307 | every move of a worker or the operator keeps at most one holder, and what was provisioned and recorded is the holder's |
| `Invites.StepsExclusive` | src/usali/signup_api.py:214-307 | so does every interleaving |
| `Invites.OneInviteOneTenant` | src/usali/invites.py:77-122 | over every interleaving at most one worker holds the claim, at most one tenant is provisioned and recorded, the invite names it, and no claim succeeds afterwards |
| `Invites.StrayRevertHarmlessIff` | src/usali/invites.py:98-111 | a revert outside any worker's turn keeps the one-holder invariant if and only if the invite is not consumed or nobody stands between winning the claim and recording its tenant |
| `Invites.StrayRevertTwoTenants` | src/usali/invites.py:98-111 | for any two workers and a fresh open invite, such a revert between one's provisioning and its recording lets the other provision a second tenant |

## Left out

- The sha256 digest is an injective record of property, date and the multiset of (account, side, amount): collisions, and codes containing the digest's separators, are not modelled.
- Decimal precision and rounding contexts: amounts are exact integers, and an apportionment's quantum is a positive number of those units.
- Non-integer weights in `apportion`, and keys that are not text (the original orders any key by its printed form).
- Timestamps, actors, account names, memo wording, message wording and truncation, label joining and truncation.
- Organisations, row-level security, sessions and rollback: the tables of one organisation are maps and sequences.
- Concurrency inside `post_and_record`: each call is one atomic step; the ledger's unique constraint is the map's key.
- The YAML-chart path of the daily builder and the QuickBooks push.
- Python's year limits 1 to 9999, and digits or blanks outside ASCII in `int()` and `strip()`.
- Loading the fiscal calendar row; its table checks are the type `FiscalConfig`.
- `put_account`'s name and account-type fields and the check on the latter; `post_range`'s authorisation.
- `assignments_on`'s history view and property ordering, `assignment_at`, and the rest of `assignments.py`.
- `compute_timecard`'s grouping of punches and adjustments into days, `compute_day`'s warnings, and punch types other than the four.
- A property whose id is the text `None`, which sorts like an unrecorded one in `timecards._apportion`.
- A pull's horizon is taken to be checked when it is stored, as the table's own constraint does.
- Invite tokens, hashing and the clock: the model follows one invite row, with the time passed in. Crashes between sign-up steps leave a worker where it is.
- PMS parsing, ingestion, payroll and CRM adapters, reporting, authentication, face matching and the user interfaces.
