# A verified model of the zakat fund ledger

The repository keeps a zakat institution's funds under an append-only audit trail. This Dafny project models the parts of it
that move money, reconstruct the past, or compete for a shared right, and proves what they keep over every run. Nothing was
executed; the verifier checks every statement for all inputs. `dafny verify dfyconfig.toml` verifies the whole project.

What is modelled, and the main result of each part:

- **Contributions and the collection report.** Contributions are received, reconciled, endorsed, corrected, refunded and have
  their contact recovered. A report rolls today's rows back to a cutoff; it shows what running only the steps up to the cutoff shows.
- **The fund ledger.** Contributions are allocated to activities, allocations moved between activities, and every allocation
  attributed to aid lines by a greedy fill. Over every interleaving: shares stay within each line's and each allocation's bound,
  moves conserve money, each allocation replays from its history, a shortfall grows only on a correction or a paid refund, and
  while no other attribution of its activity is reversed, the shares of an allocation are those it received when it was last filled
  from nothing (by a request, a move or a backfill), cut off at what it still holds.
- **Text kernels.** Canonical JSON and exact decimal strings: printing decides equality up to key order and reads back; decimal
  arithmetic is rational arithmetic in a unique normal form.
- **Certificates.** Budget counters, nonces and a single-successor slot move in one transaction; from that, a reader who looks at a
  line while it is being written never sees two current versions.
- **Campaign payments and outbox.** Gateway reports in any order, with any repetition, give the same payment; workers competing
  for a timed lease never have two calls in flight while calls are timely.
- **Donor access.** One-time codes in a sliding window, guesses, sessions and recoveries.
- **Operations.** A change submitted again and again under one operation id counts once.
- **Realizations and revisions.** Delta, per-unit totals, the floor under what was already realized, and the closure on what
  remains; over every run of realizations and revisions, what was handed over keeps its holder, form, unit and cover, the floor is
  still kept when a revision is decided, and a closure counts everything recorded.
- **Recipient spreadsheets.** Rows are parsed, grouped and checked; exporting a draft and importing it again gives the same draft.

Where the source changes state step by step, the model is a class or a method with loops, proved against a pure function of the
old state (`FundBook.Book` against `FundLedger`, `ContributionStore.ContributionTable` against `ContributionLedger`,
`CertificateStore.CertificateTables` against `CertificateReserve`, and so on); the laws are lemmas about those functions and about
runs of them. A transaction is one atomic step that either happens or leaves no trace. Amounts are `nat`, ids of rows are
positions, times are `nat` on a clock that never runs backwards, and text that is compared unit by unit is a sequence of UTF-16
code units.

For each operation two further things are stated without naming the guards and classifiers of the model: when it succeeds, as an
if-and-only-if over the fields of state and request, and what it changes (`FundGuards`, `ContributionRules`, `CollectionRows`,
`AllocationFillMeaning`, `FundShareRules`, `DonorAccessCodes`, `CertificateReservations`, `CertificateStanding`, `CampaignReports`,
`ProposalRules`, `CanonicalTexts` and the three modules of `Beneficiary...Rules`).

Where the code does less than a reader may expect, the model keeps the code:

- A rejected contact recovery writes a history entry at the unchanged version, so a cutoff before it reads one version too low.
  `CollectionHistory.RolledBackIsAsOfCutoff` says exactly when the version agrees; `CollectionHistory.RejectedRecoveryShiftsVersion`
  gives a run in which it does not.
- The revision floor falls back on the requested amount of an undecided line, the closure on nothing. A closure balances exactly
  when no line realized more than its approved value; `RemainderClosure.UndecidedLineNeedNotBalance` is an accepted revision that
  does not balance.
- A line with both money and goods realized lets no revision pass, not even an unchanged one
  (`RevisionFloor.BothKindsBlockEveryRevision`); recording never gives a line both (`ProposalLife.RunRealizesOneForm`).
- The floor does not look at a line's aid type, by which the closure totals goods: a revision may move what was delivered to another
  total (`ProposalLife.RevisionCanMoveDelivery`). It stays in its own exactly when the aid type does
  (`ProposalLife.RecordedKindIsKeptExactlyWhen`).
- A revision is not run through the draft validator, and the floor looks up one line per id: a revision may list a paid line twice,
  and the closure then counts its payments twice (`ProposalLife.RevisionCanCountTwice`), which it does exactly then
  (`RemainderClosure.PaymentsCountOnceExactlyWhenListedOnce`).

## Model

| member | source | states |
|---|---|---|
| AllocationFill.FillAllocation | backend/src/allocation-fill.ts:141-206 | The sort-out loop, the sort and the filling loop together produce the fill that the laws below are about: shares in filling order with their running figures, the unassigned rest, and the exclusions in input order. |
| AllocationFill.FillLines | backend/src/allocation-fill.ts:181-203 | The filling loop, which stops once nothing remains and skips full lines, gives each line its share in order and returns what no line could take. |
| AllocationFill.SortOut | backend/src/allocation-fill.ts:150-173 | The sort-out loop splits the lines into those the fund may fill and those it may not, each with its reason. |
| AllocationFillLaws.FillIsExact | backend/src/allocation-fill.ts:141-206 | Shares plus unassigned equal the amount, for every amount and every list of lines. |
| AllocationFillLaws.FillIsGreedy | backend/src/allocation-fill.ts:136-140 | A line that received money leaves no room on any eligible line before it in (asnaf rank, id) order. |
| AllocationFillLaws.UnassignedMeansFull | backend/src/allocation-fill.ts:181-205 | Money stays unassigned only when every eligible line is full. |
| AllocationFillLaws.ExcludedGetNothing | backend/src/allocation-fill.ts:150-173 | Amil lines, lines the fund may not reach, unvalued lines and unlisted lines receive nothing. |
| AllocationFillLaws.FillIgnoresInputOrder | backend/src/allocation-fill.ts:175-179 | With distinct ids, rearranging the input changes neither the shares nor the rest. |
| AllocationFillLaws.SortOrders | backend/src/allocation-fill.ts:175-179 | Sorting eligible lines leaves each before all that follow it by asnaf rank and then id. |
| AllocationFillMeaning.NoneForTheOthers | backend/src/allocation-fill.ts:150-173 | Whatever the amount and the other targets: a target whose trimmed upper-case asnaf is AMIL receives nothing under any fund, one outside the eight asnaf nothing of zakat or fitrah, and one without an approved value nothing. |
| AllocationFillMeaning.ExclusionsAreNoted | backend/src/allocation-fill.ts:150-173 | Exactly the targets that may not receive are listed as excluded, in input order, each with the first reason that applies. |
| AllocationFillMeaning.SharesTellTargets | backend/src/allocation-fill.ts:181-203 | Every share belongs to a target that may receive, is a positive part of what its approved value leaves beside what was taken, and states the running figures that follow from it. |
| AllocationFillMeaning.UnassignedLeavesNoRoom | backend/src/allocation-fill.ts:181-205 | While money stays unassigned, every target that may receive gets all that its approved value leaves. |
| AllocationFillMeaning.EarlierIsFilledFirst | backend/src/allocation-fill.ts:136-140 | Of two targets that may receive, the later (by the order FAKIR, MISKIN, AMIL, MUALAF, RIQAB, GHARIM, FISABILILLAH, IBNU_SABIL, any other, and then by id) gets nothing until the earlier is full. |
| Pouring.PourTwice | backend/src/allocation-fill.ts:181-203 | Pouring a and then b into rooms in order puts into each what pouring a + b at once puts there. |
| Pouring.RefillIsCutOff | backend/src/activity-store.ts:1298-1316 | After others took part of what an amount left free, pouring a smaller amount gives the earlier shares cut off at it. |
| RosterFill.FillsCompose | backend/src/allocation-fill.ts:141-206 | On one roster, filling a and then b gives every line what filling a + b gives it, and leaves as much unassigned. |
| RosterFill.FillStaysWithinApproved | backend/src/activity-store.ts:410-473 | A fill never takes a line that was within its approved value above it. |
| RosterFill.RefillGivesCutOff | backend/src/activity-store.ts:1298-1316 | Refilling a smaller amount beside whatever others hold now gives the earlier shares of the allocation, cut off. |
| ContributionStore.ContributionTable.InsertReceived | backend/src/contribution-store.ts:450-503 | A contribution enters once per id and once per source reference of a channel, with version 1 and one history entry; a repeat changes nothing. |
| ContributionStore.ContributionTable.ApplyTransition | backend/src/contribution-store.ts:505-560 | A status changes only from the loaded version and along an allowed transition, with one history entry at the next version; otherwise nothing changes. |
| ContributionStore.ContributionTable.ReconcileContribution | backend/src/contribution-store.ts:786-800 | A contribution is reconciled from the loaded version and only out of a status that allows it; a refusal changes nothing. |
| ContributionStore.ContributionTable.EndorseContribution | backend/src/contribution-store.ts:802-816 | A contribution is endorsed from the loaded version and only out of the reconciled status; a refusal changes nothing. |
| ContributionStore.ContributionTable.CorrectContribution | backend/src/contribution-store.ts:1029-1121 | A correction stores the old and new amount with the version step it made, or is refused and changes nothing. |
| ContributionStore.ContributionTable.DecideRefund | backend/src/contribution-store.ts:1134-1213 | A refund is decided only within the recorded amount less earlier refunds, which the loop over refunds adds up; the version stays. |
| ContributionStore.ContributionTable.PayRefund | backend/src/contribution-store.ts:1215-1297 | A decided refund is paid once, at the next version of the contribution; any other refund is refused and nothing changes. |
| ContributionStore.ContributionTable.DecideRecovery | backend/src/donor-access-store.ts:992-1071 | An approved recovery bumps the version with its history entry, a rejected one logs an entry at the unchanged version. |
| ContributionRules.ReceivedExactlyWhen | backend/src/contribution-store.ts:450-503 | A contribution enters if and only if its id is new and no other has its channel and reference; it is then word for word what was received. |
| ContributionRules.ReconciledExactlyWhen | backend/src/contribution-store.ts:786-800 | Reconciling succeeds if and only if the version is the loaded one and the contribution was just received; it stamps the time and leaves amount and endorsement. |
| ContributionRules.EndorsedExactlyWhen | backend/src/contribution-store.ts:802-816 | Endorsing succeeds if and only if the version is the loaded one and the contribution is reconciled. |
| ContributionRules.CorrectedExactlyWhen | backend/src/contribution-store.ts:1029-1121 | A correction succeeds if and only if the version is the loaded one, the reason has five characters, a proof is given and an amount correction brings another positive amount; a duplicate rejects the contribution. |
| ContributionRules.RefundDecidedExactlyWhen | backend/src/contribution-store.ts:1134-1213 | A refund is decided if and only if the version is the loaded one, the contribution is not rejected, both texts are given, and the positive amount together with everything decided or paid back is within the recorded amount. |
| ContributionRules.DecidedRefundIsCovered | backend/src/contribution-store.ts:1158-1165 | After a decision exactly one unpaid refund more is on record, and the sum of all refunds, decided or paid, is within the recorded amount of a contribution that is not rejected. |
| ContributionRules.RefundPaidExactlyWhen | backend/src/contribution-store.ts:1215-1297 | A payment succeeds if and only if the refund is on record and not yet paid, with a proof and a positive safe-integer time; that refund alone changes and the sum of refunds stays. |
| ContributionRules.RecoveryDecidedExactlyWhen | backend/src/donor-access-store.ts:992-1071 | A recovery is decided if and only if the version is the loaded one; an approval bumps it, a rejection does not, and nothing else of the contribution moves. |
| ContributionRules.RunKeepsRefundsCovered | backend/src/contribution-store.ts:1134-1297 | Over every run that does not correct a contribution, the sum of its refunds stays within its amount. |
| ContributionRules.RunTellsReceipt | backend/src/contribution-store.ts:450-503 | After every run a record is of one receipt, word for word; its corrections lead without a gap from the amount received to the amount on the row, and its stamps agree with its status. |
| ContributionLife.StepKeepsTold | backend/src/contribution.ts:241-283 | Every successful step adds exactly one history entry, which takes up where the last one ended by an allowed transition, with the version one higher except for a refund decision or a rejected recovery. |
| ContributionLife.RunLives | backend/src/contribution.ts:237-283 | After every run each history leads step by step from the recording to the row as it stands, whatever is endorsed was reconciled before, and no source reference of a channel is recorded twice. |
| CollectionSource.RollBack | backend/src/collection-source.ts:52-64 | The two loops over corrections and history, newest first, yield amount, status and version as read at the cutoff. |
| CollectionSource.PaidRefunds | backend/src/collection-source.ts:66-67 | Exactly the refunds paid by the cutoff are listed and added up. |
| CollectionSource.BuildCollectionSide | backend/src/collection-source.ts:38-101 | The loop over records yields one row per contribution of the period recorded by the cutoff, with its corrections and paid refunds, lists those excluded, and stops at the first invalid record. |
| CollectionSource.FundTotalsAddUp | backend/src/collection-source.ts:82-84 | The totals per fund add up to the total of the rows. |
| CollectionHistory.RollBackIgnoresListing | backend/src/collection-source.ts:56-64 | The rollback does not depend on the order in which corrections and history were listed. |
| CollectionHistory.RolledBackIsAsOfCutoff | backend/src/collection-source.ts:52-71 | For every run and cutoff, amount, status, paid refunds and net value rolled back from today equal those after only the steps up to the cutoff; the version equals it if and only if the first telling entry after the cutoff is not a rejected recovery. |
| CollectionHistory.ReportIsAsOfCutoff | backend/src/collection-source.ts:38-101 | For every run, the report built today is the report built at the cutoff: the same refusal, or the same rows but for the version, the same totals, and the same exclusions but for contributions recorded since; the versions agree too if and only if no row's first telling entry after the cutoff is a rejected recovery. |
| CollectionRows.ReportTells | backend/src/collection-source.ts:38-101 | For every run, of the records that the steps up to the cutoff leave: an id has a row if and only if it is in rupiah, received within the period and by the cutoff, and recorded by then; its effective amount is 0 when rejected or overpaid and otherwise adds up with the refunds paid by then to the recorded amount; rows come in the listed order, and exactly the ids of the period received or recorded later are named as excluded. |
| CollectionRows.NoReportExactlyWhen | backend/src/collection-source.ts:38-101 | There is no report if and only if a record it would show names no known fund. |
| CollectionRows.FundTotalIsOfItsRows | backend/src/collection-source.ts:82-84 | The total of a fund is the total of exactly the rows of that fund. |
| CollectionHistory.RejectedRecoveryShiftsVersion | backend/src/donor-access-store.ts:1060-1071 | A concrete run in which a later rejected recovery makes the report read version 0 where version 1 stood. |
| CollectionHistory.RunKeeps | backend/src/contribution-store.ts:505-560 | After every run, history serials and correction versions rise in order and nothing is dated after the last transaction. |
| FundBook.Book.TakenByLine | backend/src/activity-store.ts:441-449 | The grouping query: what active shares hold on each aid line of an activity. |
| FundBook.Book.RecordBeneficiaryShares | backend/src/activity-store.ts:410-473 | Appends the fill's shares for one allocation and nothing else; an activity without lines gets none. |
| FundBook.Book.ReverseBeneficiaryShares | backend/src/activity-store.ts:479-490 | Marks exactly the allocation's active shares as reversed and deletes none. |
| FundBook.Book.AllocatedTotal | backend/src/activity-store.ts:682-699 | The sum of a contribution's active allocations. |
| FundBook.Book.CheckAllocate | backend/src/activity-store.ts:843-897 | The guards of an allocation in their order, each with its own refusal, the last being what is left to allocate. |
| FundBook.Book.AllocateContribution | backend/src/activity-store.ts:841-971 | One transaction: either every guard passes and the allocation, its history entry and its shares are written, or the ledger is as before with the first failing guard as the reason. |
| FundBook.Book.ReallocateAllocation | backend/src/activity-store.ts:1137-1415 | One transaction: the source is reduced or closed and refilled, the target allocation, both history entries and the decision are written and both activities bumped; or nothing changes. |
| FundBook.Book.CheckReallocate | backend/src/activity-store.ts:1158-1269 | The guards of a move in their order, each with its own refusal. |
| FundGuards.AllocatedExactlyWhen | backend/src/activity-store.ts:843-897 | An allocation succeeds if and only if the amount is positive, contribution and activity are known and of one currency, the version is the loaded one, the contribution is endorsed, the program may spend the fund, neither fund nor purpose is changed, and everything allocated, decided and paid back together with the amount is within the recorded amount. |
| FundGuards.AllocatedChanges | backend/src/activity-store.ts:898-971 | A success adds one active row of the amount on the contribution's terms, with its history entry, and changes no other row. |
| FundGuards.AllocateRefusalIsSo | backend/src/activity-store.ts:843-897 | Each refusal of an allocation names something that is so. |
| FundGuards.MovedExactlyWhen | backend/src/activity-store.ts:1158-1269 | A move succeeds if and only if the amount is positive, both activities are known, distinct, of one currency and at the loaded versions, the source row is active and stands with the source activity, its contribution is endorsed, the amount is at most what the activity can spare and what the row holds and is covered beside all refunds, the target's program may spend the fund, and neither fund nor purpose is changed. |
| FundGuards.MovedChanges | backend/src/activity-store.ts:1271-1415 | A successful move takes exactly the amount from the source row (closing it when nothing stays), makes one row of the amount at the target, logs both, bumps both activities and no other, and puts on record one decision with the versions it made. |
| FundGuards.MoveRefusalIsSo | backend/src/activity-store.ts:1158-1269 | Each refusal of a move names something that is so. |
| FundGuards.BalanceTells | backend/src/activity-store.ts:671-699 | What is free is what the amount leaves beside allocations and refunds, and a shortfall is what is held beyond the amount less refunds paid; a rejected contribution backs nothing. |
| FundBook.Book.TakeOut | backend/src/activity-store.ts:1271-1316 | The whole attribution of the source is reversed and only what stays is filled again. |
| FundBook.Book.BackfillBeneficiaryShares | backend/src/allocation-share-backfill.ts:54-140 | The loop over candidates writes the shares of each in recording order and reports on it; the verify pass reports the same and writes nothing. |
| FundRuns.RunIsSound | backend/src/activity-store.ts:841-1415 | Shares, allocations and rosters fit together after every interleaving of contribution steps, allocations, moves and backfills. |
| FundRuns.SharesStayWithinBounds | backend/src/activity-store.ts:410-490 | After every run, active shares on each aid line stay within its approved value, and those of each allocation within its current amount. |
| FundShareRules.RunSharesTell | backend/src/activity-store.ts:410-473 | After every run each share names the contribution and activity of its allocation and a line of that activity with its recipient and approved value, is a positive part of that value, and is never for an amil, nor of zakat for anyone outside the eight asnaf. |
| FundRuns.EmptyIsSound | backend/src/activity-store.ts:709-773 | A run may start from any activities on distinct rosters with nothing allocated. |
| FundRuns.CandidateMembers | backend/src/allocation-share-backfill.ts:62-81 | The candidates are exactly the active allocations without an active share. |
| FundShareRules.CandidatesTell | backend/src/allocation-share-backfill.ts:62-81 | Looked at are exactly the rows with active status of which no share is held. |
| FundShareRules.ReportTells | backend/src/allocation-share-backfill.ts:82-140 | The backfill reports on each candidate in turn: why nothing was attributed, or how much was, and attributed and unassigned make up its amount. |
| FundHistory.HistoryAccountsForLedger | backend/src/activity-store.ts:915-923 | After every run each allocation's amount, status and version are what its history entries replay to, and each contribution's active total is exactly what officers ever allocated of it. |
| FundHistory.MoveConserves | backend/src/activity-store.ts:1271-1344 | A successful move changes no contribution's active total. |
| FundHistory.AllocationIsCovered | backend/src/activity-store.ts:671-680 | After a successful allocation, everything allocated, paid back and promised back is within the recorded amount. |
| FundHistory.ShortfallGrowsOnlyByDevaluing | backend/src/activity-store.ts:1070-1087 | In one transaction a contribution's shortfall grows only if that transaction corrects it or pays a refund of it. |
| FundHistory.RunGrowsNoShortfall | backend/src/activity-store.ts:1070-1087 | Over every run without such a transaction the shortfall never grows. |
| FundRefill.SharesAreFirstSharesCutOff | backend/src/activity-store.ts:1298-1358 | Once a transaction fills an allocation from nothing (it makes it, as a request or as the target of a move, backfills it, or takes from it and fills what stays), whatever happens after, as long as no other attribution of its activity is reversed, its shares are the shares it then received, cut off at what it still holds: the result of having filled the smaller amount in the first place. |
| FundRefill.RunOnlyReduces | backend/src/activity-store.ts:1271-1284 | No transaction adds to an existing allocation. |
| FundBackfill.SecondBackfillWritesNothing | backend/src/allocation-share-backfill.ts:54-140 | After a backfill, another at any later time leaves the ledger unchanged and reports no share. |
| FundBackfillOrder.CandidatesAreInRecordingOrder | backend/src/allocation-share-backfill.ts:75-77 | Candidates are visited activity by activity and within one in the order of their first history entry, without repetition. |
| FundBackfillOrder.BackfillIsWritePath | backend/src/allocation-share-backfill.ts:54-140 | For every run of allocations and contribution steps, a backfill of the ledger without shares gives each allocation the shares the write path gave it. |
| Operations.OperationStore.MutateOnce | backend/src/activity-store.ts:256-289 | A new operation runs and stores its result; a known one returns the stored result, or a conflict for another request hash; a failing change rolls everything back. |
| Operations.FirstAttemptTells | backend/src/activity-store.ts:256-289 | A request that repeats no operation succeeds if and only if its change does; a success stores that change and its result under the operation's id alone, a failure changes nothing and passes its error on. |
| Operations.OnlyFirstSuccessesCount | backend/src/activity-store.ts:256-289 | After every sequence of requests with retries and failures, the store is the one the first successful occurrences alone leave. |
| Operations.CountedOnce | backend/src/contribution-store.ts:681-727 | No operation id occurs twice among the requests that count. |
| Operations.RetriesGetFirstResult | backend/src/contribution-store.ts:681-727 | Once an operation succeeded, any later request under its id gets the first result for the same hash and a conflict for another, and changes nothing. |
| Operations.FailuresLeaveNoTrace | backend/src/contribution-store.ts:681-727 | Leaving a failed attempt out of any sequence changes nothing that follows. |
| CanonicalJson.CanonicalPrintsNormalForm | shared/canonical-json.ts:1-34 | Printing refuses exactly the values a snapshot may not hold, and otherwise prints the value with every object's keys sorted. |
| CanonicalJson.SortMembersSorts | shared/canonical-json.ts:26-30 | Keys come out in code-unit order, the order of section 3.2.3 of RFC 8785. |
| CanonicalTexts.LessTells | shared/canonical-json.ts:26-29 | One key comes before another if and only if it is a proper prefix of it, or holds the smaller code unit where they part. |
| CanonicalTexts.EscapesAreShort | shared/canonical-json.ts:22 | A unit stands for itself unless it is a control character, a quote, a backslash or a surrogate on its own; it is escaped with a letter where JSON has one and otherwise with four lower-case hexadecimal digits. |
| CanonicalTexts.CleanTextStays | shared/canonical-json.ts:22 | Text of whole Unicode characters without quotes, backslashes and control characters is written unchanged. |
| CanonicalTexts.CanonicalTextIsClean | shared/canonical-json.ts:1-34 | Whatever strings a value holds, at any depth, its canonical text has no control character and no surrogate without its partner, so that every encoder writes the same bytes. |
| CanonicalTexts.RefusalIsFirst | shared/canonical-json.ts:1-34 | A refusal is that of the first value met, in order of elements and of sorted keys, which a snapshot may not hold, and names its kind. |
| CanonicalJson.EquivalentIffSameNormalForm | shared/canonical-json.ts:26-30 | Two values are equal up to key order, at every depth, exactly when sorting makes them the same. |
| CanonicalJsonReader.CanonicalTextReadsBack | shared/canonical-json.ts:1-34 | A parser for section 7 of RFC 8259 reads canonical text back to the sorted value and uses all of it; printing that value gives the same text. |
| CanonicalJsonReader.ReadEscapedText | shared/canonical-json.ts:22 | Every string, lone surrogates and control characters included, survives escaping and reading. |
| CanonicalJsonReader.CanonicalTextDecidesEquality | shared/proposal-revision.ts:60 | Storable values print alike if and only if they are equal up to key order. |
| ExactDecimal.CompareIsOrder | shared/exact-decimal.ts:4-11 | Comparison is the order of the rational numbers, for all valid decimals of any length and scale. |
| ExactDecimal.DecimalExactlyWhen | shared/exact-decimal.ts:1 | A text is a decimal if and only if it has digits at both ends and between them at most one unit that is no digit, a point. |
| ExactDecimal.AddIsExact | shared/exact-decimal.ts:31-41 | Addition is exact and its result is in normal form. |
| ExactDecimal.SubtractIsExact | shared/exact-decimal.ts:14-28 | Subtraction is exact, stops at zero, and its result is in normal form. |
| ExactDecimal.NormalFormIsUnique | shared/exact-decimal.ts:31-41 | A rational has at most one normal spelling. |
| ExactDecimal.AddIsCommutativeAndAssociative | shared/exact-decimal.ts:31-41 | Sums are the same text whatever the order or grouping. |
| ExactDecimal.AddUndoesSubtract | shared/exact-decimal.ts:14-41 | Adding back a subtracted amount gives the normal form of the original. |
| CertificateStore.CertificateTables.Reserve | backend/src/certificate-store.ts:122-184 | One transaction: an intent with signed bytes gets them back and books nothing; otherwise slot, legacy rows, budget, nonce and bytes are written together, or everything is rolled back. |
| CertificateStore.CertificateTables.Claim | backend/src/certificate-store.ts:134-147 | The successor slot passes to the caller unless another holds it with signed bytes that are not reclaimable. |
| CertificateStore.CertificateTables.TagLegacy | backend/src/certificate-store.ts:152-172 | Every legacy row of the scope is tagged with its full liability and added up; one unverifiable row of any scope stops the reservation. |
| CertificateStore.CertificateTables.FindAttempt | backend/src/certificate-store.ts:113-115 | The attempt stored for an intent, if there is one. |
| CertificateReservations.ReservedExactlyWhen | backend/src/certificate-store.ts:122-184 | With counters that add up, a request succeeds if and only if its budget is a positive 256-bit number and its intent is signed already, or the slot is open to it, every untagged row can be read, all that the scope owes (tagged or not) leaves room, and bytes can be built for the next nonce. |
| CertificateReservations.StoredTells | backend/src/certificate-store.ts:148-184 | A stored attempt has the bytes built for the next nonce, the slot is the caller's, older rows keep bytes and nonce and are tagged as their bytes say, and the scope's counter is all it owes. |
| CertificateReservations.OtherRequestsWriteNothing | backend/src/certificate-store.ts:122-184 | A repeated or refused request moves no attempt, slot, nonce or counter. |
| CertificateReservations.ReserveRefusalIsSo | backend/src/certificate-store.ts:122-184 | Each refusal of a reservation names something that is so. |
| CertificateBudgets.BudgetsStayExact | backend/src/certificate-store.ts:148-174 | Under a fixed ceiling per scope, after every run each counter equals the liabilities tagged with its scope and stays within the ceiling, legacy rows included. |
| CertificateBudgets.BudgetNeverFalls | backend/src/certificate-store.ts:116-121 | No run lowers a counter. |
| CertificateBudgets.SignedOnce | backend/src/certificate-store.ts:128-130 | An intent never gets a second attempt, and its bytes and nonce never change. |
| CertificateBudgets.NoncesIncrease | backend/src/certificate-store.ts:175-181 | Of two attempts stored for one deployment, the later has the larger nonce. |
| CertificateLines.IntentIdIsUnique | backend/src/certificate-issuance.ts:30-31 | With certificate ids free of the separator, an intent id names one version of one line. |
| CertificateLines.RunKeepsInv | backend/src/certificate-relay.ts:35-55 | Over every interleaving of prepare, check, reserve and observe steps, with stale checks, a signed successor holds its slot unless it failed, and every successor names a confirmed predecessor. |
| CertificateLines.OneLiveSuccessor | backend/src/certificate-relay.ts:33-42 | After every run, of two signed successors of one version at least one has failed for good. |
| CertificateStanding.SlotOpensExactlyWhen | backend/src/certificate-relay.ts:33-55 | A request made on a fresh look at the slot passes it if and only if nobody else holds it, or the holder signed nothing, is not on record, or failed for good. |
| CertificateLines.RunIsLater | backend/src/certificate-issuance.ts:116-146 | What the chain has settled stays settled and no version disappears, provided terminal observations are stable. |
| CertificateValidity.CurrentExactlyWhen | backend/src/certificate-lifecycle.ts:67-76 | A version reads as current if and only if it is confirmed, its source matches, the chain raises no doubt and no successor is signed. |
| CertificateStanding.DescribedAs | backend/src/certificate-issuance.ts:150-188 | What a version reads as, in full: awaiting replacement while the chain raises doubt, superseded by a confirmed signed successor, awaiting replacement beside one in flight, replacement failed when all signed ones failed, then disputed or changed as its source is, and only then current or awaiting confirmation by its own minting. |
| CertificateValidity.ConfirmedSupersedes | backend/src/certificate-issuance.ts:150-163 | A confirmed successor makes its predecessor superseded, however many other successors there are; while the chain names a successor not on record, the predecessor reads as awaiting its replacement. |
| CertificateValidity.NoneOutranksBest | backend/src/certificate-issuance.ts:152-157 | The successor that speaks for a version is outranked by none. |
| CertificateValidity.ConfirmedFormAPath | backend/src/certificate-issuance.ts:253-255 | Of two confirmed versions of a line, one lies on the path of predecessors of the other. |
| CertificateValidity.LooksAreReadings | backend/src/certificate-issuance.ts:117-143 | An entry whose state and signed bytes are looked up one after the other, at any moments after the line was listed, reports what was confirmed before as confirmed, and reports as confirmed only what is signed and stays confirmed. |
| CertificateValidity.AtMostOneCurrent | backend/src/certificate-issuance.ts:177-188 | In a reading of a line that other requests may change meanwhile, at most one version is current. |
| CertificateValidity.AtMostOneCurrentInRuns | backend/src/certificate-issuance.ts:116-188 | A line is listed after any run and each version looked up at its own moments while any further steps happen: at most one version reads as current. |
| CampaignPayments.CampaignBooks.ReconcilePayment | backend/src/crowdfunding.ts:90-123 | A verified report updates payment, campaign figures and outbox together; an unverified one changes nothing. |
| CampaignReports.ReconciledExactlyWhen | backend/src/crowdfunding.ts:90-97 | A report is accepted if and only if it is of this payment, in rupiah, of its whole amount, not suspected, and a refund it names is a part of the amount, a full refund all of it; each refusal names what is wrong. |
| CampaignReports.ReconciledTells | backend/src/crowdfunding.ts:97-123 | An accepted report pays the payment in full if money came in, refunds it as far as any report named, and gives it the status those figures call for; when they changed, the campaign gains the difference and one donation more or less, with an audit entry and an announcement of the new figures, and otherwise nothing else changes. |
| CampaignPaymentLaws.OrderAndRepetitionDoNotMatter | backend/src/crowdfunding.ts:97-120 | Two sequences of verified reports with the same members leave a payment with the same paid amount, refunded amount and status. |
| CampaignPaymentLaws.SettledAllEndsWith | backend/src/crowdfunding.ts:97-120 | After any verified reports: paid in full if any report pays, refunded by the largest refund reported, and the status those two and a closing report imply. |
| CampaignReports.AllReportsTell | backend/src/crowdfunding.ts:97-120 | After any believed reports a payment is paid in full if and only if some report says money came in, refunded by the largest refund any named, and its status follows from those and from whether any report closed it. |
| CampaignPaymentLaws.RunIsSound | backend/src/crowdfunding.ts:90-123 | After every run: refunded is within paid within amount, each campaign's collected amount is the sum of its payments' nets and its count the number of positive nets, and the latest announcement of a paid payment carries its figures. |
| CampaignReports.CampaignHolds | backend/src/crowdfunding.ts:90-123 | After every run a campaign has collected what was paid in less what was paid back, and counts the payments that leave something. |
| CampaignOutbox.NoTwoCallsTogether | backend/src/crowdfunding.ts:186-198 | With any number of workers, if every chain call ends within its lease, no two calls are in flight together. |
| CampaignOutbox.ConfirmedForGood | backend/src/crowdfunding.ts:196-199 | With no timing assumption, a confirmed event stays confirmed. |
| CampaignOutbox.OthersLeaseIsKept | backend/src/crowdfunding.ts:176-203 | Over every run in which nobody starts after the lease expired, a worker keeps its lease until it leaves, and while it takes no step the lease stays exactly as it is. |
| CampaignOutbox.ExpiredLeaseIsTaken | backend/src/crowdfunding.ts:176-181 | A worker that starts after the lease expired takes it over for five minutes if and only if some event is unconfirmed with its delay over, or forced. |
| CampaignOutbox.BatchIsFair | backend/src/crowdfunding.ts:178-180 | A batch holds at most thirty events, each unconfirmed and with its delay over (or forced), fewest attempts first; such an event is left out only by a full batch of events with no more attempts. |
| CampaignOutbox.BatchIsInOrder | backend/src/crowdfunding.ts:178-180 | Events of a batch with as many attempts come in the order they were recorded. |
| CampaignOutbox.RenewalTells | backend/src/crowdfunding.ts:186-192 | Before each call a worker makes sure that the lease is its own and renews it for five minutes; when it lost the lease or has nothing left it leaves without a call. |
| CampaignOutbox.FinishTells | backend/src/crowdfunding.ts:193-199 | A receipt confirms the event; a failed call puts it off by half a minute to an hour, unless it is confirmed already; no other event changes. |
| CampaignOutbox.DelaysDouble | backend/src/crowdfunding.ts:199 | The first delay is half a minute and each further one twice the last, up to an hour. |
| CampaignOutbox.DelaysGrow | backend/src/crowdfunding.ts:199 | Retry delays never shrink and stay between half a minute and an hour. |
| DonorAccessStore.AccessTables.IssueOtp | backend/src/donor-access-store.ts:338-397 | A code is sent only with a contact that can be reached, a minute after the last and not beyond five in the hour; earlier codes end. |
| DonorAccessStore.AccessTables.RecentSends | backend/src/donor-access-store.ts:348-376 | How many codes a contribution was sent within the window, and the first and last of them. |
| DonorAccessStore.AccessTables.VerifyOtp | backend/src/donor-access-store.ts:415-514 | A guess is compared only at a live, unexpired code with attempts left; only the code itself opens a session, of the code's contribution, and ends the code; any other guess opens none, and the fifth wrong one ends the code. |
| DonorAccessStore.AccessTables.GetSession | backend/src/donor-access-store.ts:516-548 | Only an unexpired, unrevoked session is returned, and only its last access changes. |
| DonorAccessStore.AccessTables.RevokeSession | backend/src/donor-access-store.ts:550-558 | Marks one session as revoked and changes nothing else. |
| DonorAccessStore.AccessTables.DecideRecovery | backend/src/donor-access-store.ts:962-1072 | An approval replaces the contact, bumps the version and ends every code and session of the contribution; a rejection changes only the request. |
| DonorAccessCodes.SessionsComeFromRightGuesses | backend/src/donor-access-store.ts:415-514 | After every run, every session was opened by a step that guessed six digits equal to the code of a challenge of its contribution, while that challenge was unused, unexpired and had attempts left, and lasts an hour from then. |
| DonorAccessCodes.OneSessionPerCode | backend/src/donor-access-store.ts:460-514 | Two steps of a run that open sessions are guesses at different challenges. |
| DonorAccessCodes.RightGuessOpens | backend/src/donor-access-store.ts:486-514 | The right guess at a live code opens one session of its contribution for an hour, uses the code up and changes nothing else. |
| DonorAccessCodes.AnswersTell | backend/src/donor-access-store.ts:415-514 | The answer is a session if and only if the guess is the code of a live challenge; a wrong guess at a live one is answered with the attempts that remain, and a guess that is no six digits or at a spent code with that. |
| DonorAccessCodes.WrongGuessCosts | backend/src/donor-access-store.ts:460-484 | A wrong guess at a live code costs one attempt, ends the code with the last one, and touches no other code. |
| DonorAccessCodes.SentExactlyWhen | backend/src/donor-access-store.ts:338-397 | A code is sent if and only if the contribution has a contact that can be reached, was sent none within the last minute and fewer than five within the last hour; it is then the only live one, for a quarter of an hour and five guesses. |
| DonorAccessCodes.SendRefusalIsSo | backend/src/donor-access-store.ts:348-376 | A refusal says what stands in the way, and when to come back: a minute after the latest code, or an hour after the oldest of the last hour. |
| DonorAccessCodes.RunKeepsMinuteApart | backend/src/donor-access-store.ts:348-362 | After every run, codes of one contribution were sent at least a minute apart. |
| DonorAccessCodes.UsableWithinAnHour | backend/src/donor-access-store.ts:516-548 | After every run a session is usable if and only if it was opened within the last hour and is not revoked. |
| DonorAccessCodes.RevokedForGood | backend/src/donor-access-store.ts:550-558 | A revoked session is not usable after anything that follows, and no other session is touched. |
| DonorAccessCodes.UndeliveredIsDead | backend/src/donor-access-store.ts:400-406 | A code whose delivery failed is never compared, and no other code is touched. |
| DonorAccessCodes.DecidedExactlyWhen | backend/src/donor-access-store.ts:962-1072 | A request is decided if and only if it is pending and its contribution is at the loaded version; an approval puts its contact in place of the old one at the next version, a rejection changes only the request. |
| DonorAccessLaws.OneLiveCode | backend/src/donor-access-store.ts:382-386 | After every run a contribution has at most one unconsumed code. |
| DonorAccessLaws.FiveCodesFiveGuesses | backend/src/donor-access.ts:27-38 | After every run, at most five codes were sent in any 3600-second window and at most five guesses compared per code. |
| DonorAccessLaws.ThirtyGuessesAnHour | backend/src/donor-access.ts:27-38 | After every run, at most thirty guesses at a contribution's codes were compared in any 3600-second window. |
| DonorAccessLaws.RecoveryCutsOff | backend/src/donor-access-store.ts:992-1017 | After an approved recovery, whatever follows, no earlier session is usable and no earlier code can be compared. |
| RevisionDelta.DiffById | shared/proposal-revision.ts:62-79 | The two loops over the versions, with their indexes by id, yield added, modified, unchanged and removed records in their order. |
| RevisionDelta.SameContentIgnoresKeyOrder | shared/proposal-revision.ts:60 | A record counts as unchanged exactly when its content differs in nothing but key order. |
| RevisionDelta.AppliedIsRevised | shared/proposal-revision.ts:62-98 | With unique ids, the earlier version with its delta applied has, id by id, exactly the revised records. |
| RevisionDelta.AppliedHasUniqueIds | shared/proposal-revision.ts:62-98 | Applying a delta leaves no id twice. |
| RevisionDelta.HeldAndUntouchedPartition | shared/proposal-revision.ts:85-98 | Every id of either version is either held back or unchanged, and never both. |
| RevisionDelta.DeltaIsInOrder | shared/proposal-revision.ts:62-79 | Added, unchanged and modified records come in the order of the revised version, removed ones in that of the earlier. |
| RevisionDelta.HeldBackExactlyWhen | shared/proposal-revision.ts:85-98 | An id is held back if and only if one version alone has it, or both have it with contents that differ in more than key order. |
| AidMeasures.SameContentSameMeasure | shared/proposal-beneficiary-list.ts:85-99 | Lines whose contents differ in nothing but key order count with the same amount towards the same total. |
| AidMeasures.MoneyIsMeasured | shared/proposal-beneficiary-list.ts:85-90 | A money line counts its approved rupiah, or the requested where none is approved, towards the one rupiah total. |
| AidMeasures.GoodsAreMeasured | shared/proposal-beneficiary-list.ts:91-99 | Any other line counts its approved, else its requested quantity, towards the total of its aid type and unit, with the names that stand in for empty ones. |
| RevisionTotals.CalculateTotalsByUnit | shared/proposal-beneficiary-list.ts:377-388 | The loop of decimal additions yields, for the rupiah total and every goods total, the exact sum of the lines' exact amounts. |
| RevisionTotals.TotalsMoveByDelta | shared/proposal-revision.ts:62-98 | For any measure that reads content alone, each total moves by exactly what is added, less what is removed, plus what modified records gain. |
| RevisionTotals.ProposalTotalsMoveByDelta | shared/proposal-beneficiary-list.ts:85-99 | So move the rupiah total and every goods total of a proposal. |
| Quantities.DecimalsAreExact | shared/exact-decimal.ts:4-41 | Decimal strings satisfy the laws of quantities that the floor and the closure rest on. |
| RevisionFloor.AccumulateRealizedPerLine | shared/proposal-revision.ts:101-117 | One pass over realizations yields running money and goods totals and the lines in order of first appearance. |
| RevisionFloor.IdrTotalIsRealized | shared/proposal-revision.ts:101-117 | A running total exists for exactly the lines paid, and is the sum of what they were paid. |
| RevisionFloor.ValidateRevisionFloor | shared/proposal-revision.ts:125-205 | Both checking loops together give the first refusal, money lines before goods lines. |
| RevisionFloor.FloorAcceptsExactly | shared/proposal-revision.ts:121-205 | A revision is accepted if and only if every line with something realized is still there with the same holder, kind and unit and covers what was realized. |
| ProposalRules.FloorExactlyWhen | shared/proposal-revision.ts:121-205 | A revision is accepted if and only if, for every id, money realized is within the approved (or, undecided, the requested) amount of a money line of the same recipient, and goods realized within that of a goods line of the same recipient and unit. |
| ProposalRules.FloorRefusalIsSo | shared/proposal-revision.ts:137-202 | A refused revision names a line with something realized and what is wrong with it. |
| RevisionFloor.BothKindsBlockEveryRevision | shared/proposal-revision.ts:137-202 | A line with both money and goods realized makes every revision refused. |
| RevisionFloor.UnchangedRevisionIsRefused | shared/proposal-revision.ts:137-202 | Such a line, and the revision that changes nothing, which is refused. |
| RemainderClosure.CalculateRemainderClosure | backend/src/disbursement.ts:1681-1793 | The accumulating loops yield one entry per line, the rupiah totals and the totals per kind and unit. |
| RemainderClosure.LineBalancesExactlyWhenCovered | backend/src/disbursement.ts:1717-1773 | Each line has its own entry, which is approved = realized + remainder if and only if it realized no more than its approved value. |
| ProposalRules.ClosureTellsEachLine | backend/src/disbursement.ts:1717-1773 | A closure has one entry per line, in order, with what is approved, what was realized, and as remainder exactly what the one leaves of the other, or nothing. |
| ProposalRules.MoneyTotalsAddUp | backend/src/disbursement.ts:1717-1737 | The rupiah totals are the sums over the entries of money lines. |
| ProposalRules.GoodsTotalsAddUp | backend/src/disbursement.ts:1738-1773 | The totals of an aid type and unit are the sums over the entries of exactly its lines. |
| RemainderClosure.MoneyBalancesExactlyWhenCovered | backend/src/disbursement.ts:1717-1737 | The rupiah totals balance if and only if no money line realized more than it was approved. |
| RemainderClosure.GoodsBalanceExactlyWhenCovered | backend/src/disbursement.ts:1738-1773 | The totals of a kind and unit balance if and only if none of its lines realized more than it was granted. |
| RemainderClosure.AcceptedClosureBalances | backend/src/disbursement.ts:1681-1793 | On a revision the floor accepts, with approved amounts set, every line, the rupiah totals and every goods total are approved = realized + remainder. |
| RemainderClosure.AcceptedClosureDropsNothing | backend/src/disbursement.ts:1681-1793 | On a revision the floor accepts that lists no id twice, realized totals are the sums of all realizations, each under the kind and unit its line has in the revision. |
| RemainderClosure.PaymentsCountOnceExactlyWhenListedOnce | backend/src/disbursement.ts:1717-1737 | The rupiah realized is never less than all money received, and equals it if and only if no paid line is listed twice. |
| RemainderClosure.DeliveriesCountOnceExactlyWhenListedOnce | backend/src/disbursement.ts:1738-1773 | So with the goods of a kind and unit. |
| RemainderClosure.DeliveryKeepsItsUnit | shared/proposal-revision.ts:158-202 | A revision the floor accepts keeps holder and unit of a goods line with deliveries; they stay under the same kind and unit if and only if the revision leaves the line's aid type alone. |
| RemainderClosure.ChangedKindMovesDelivery | backend/src/disbursement.ts:1745 | An accepted revision after which a delivery is totalled under another kind. |
| RemainderClosure.RelistedLineCountsTwice | shared/proposal-revision.ts:131-132 | An accepted revision that lists a paid line twice, and the closure that counts the payment twice. |
| RemainderClosure.UndecidedLineNeedNotBalance | backend/src/disbursement.ts:1498-1503 | An accepted revision with an undecided line whose closure does not balance. |
| ProposalRealization.ProposalBook.RecordRealizations | backend/src/disbursement-store.ts:3131-3256 | A batch of realizations is stored whole, each item against everything before it, or the first refusal (an invalid item, a line held back, a wrong recipient, form or unit, more than the right) leaves the proposal as it was. |
| ProposalRealization.ProposalBook.AppendItems | backend/src/disbursement-store.ts:3163-3252 | The loop against running totals gives the items as records, or the first refusal. |
| ProposalRealization.ValidateItems | backend/src/disbursement.ts:1576-1641 | Every item of a request is validated before any is stored. |
| ProposalRealization.CheckHeld | backend/src/disbursement-store.ts:3155-3162 | The first item on a line held back is found. |
| ProposalRules.ValidatedExactlyWhen | backend/src/disbursement.ts:1576-1641 | An item can be read if and only if it names line and recipient and brings a positive quantity in a unit, or, paid out, a positive amount; a payment is read without goods. |
| ProposalRules.BatchStoredExactlyWhen | backend/src/disbursement-store.ts:3131-3256 | A batch is stored if and only if every item can be read and is on a line not held back, and each, on top of those before it, is of a line of its recipient, in the line's form and unit, and within what the line may give; it is then stored whole and nothing else changes. |
| ProposalRules.RecordingRefusalIsSo | backend/src/disbursement-store.ts:3131-3256 | A batch is refused for an item that cannot be read, for one on a line held back, or for the first that may not be recorded in its turn, and the refusal says what is wrong with it. |
| ProposalRealization.ProposalBook.ProposeRevision | backend/src/disbursement-store.ts:4198-4298 | A revision is stored and its changed lines held back, unless another is under way or the floor refuses it. |
| ProposalRealization.ProposalBook.AmendRevision | backend/src/disbursement-store.ts:4504-4579 | A revision under way is replaced, with the lines it holds back, if the floor allows. |
| ProposalRealization.ProposalBook.DropRevision | backend/src/disbursement-store.ts:4352-4405 | A revision withdrawn or rejected holds nothing back any more. |
| ProposalRealization.ProposalBook.ApproveRevision | backend/src/disbursement-store.ts:4683-4751 | An approved revision replaces the lines with their approved values set, unless the floor refuses it. |
| ProposalRules.RevisionsExactlyWhen | backend/src/disbursement-store.ts:4198-4298 | A revision is stored if and only if none is under way, and one under way is replaced if and only if there is one, each if and only if it still covers everything realized. |
| ProposalRules.ApprovedExactlyWhen | backend/src/disbursement-store.ts:4683-4751 | The revision under way goes through if and only if it still covers everything realized; each line is then as revised with its approved value set to itself or to what was requested, and nothing is held back. |
| ProposalRules.HeldExactlyWhen | shared/proposal-revision.ts:85-98 | With no id twice, exactly the lines that differ between the versions are held back. |
| ProposalLife.RunStands | backend/src/disbursement-store.ts:3131-3256 | After every run of realizations and revisions, the line of each record is still there with the record's holder, form and unit, no line realized more than its right, and a revision under way is within the floor and differs from the version in force only in lines held back. |
| ProposalLife.DecisionFindsFloorKept | backend/src/disbursement-store.ts:4691-4700 | After every run, the floor check at the decision of a stored revision succeeds: what could break it was held back. |
| ProposalLife.RunRealizesOneForm | shared/proposal-revision.ts:34-39 | After every run no line has both money and goods realized. |
| ProposalLife.ClosureCountsWhatWasRecorded | backend/src/disbursement.ts:1681-1793 | Closing after every run shows all money recorded, and all goods under the unit they were recorded in and the aid type their line has now; each once if and only if no such line is listed twice. |
| ProposalLife.RecordedKindIsKeptExactlyWhen | backend/src/disbursement.ts:1745 | After every run a delivery is totalled under the aid type and unit it was recorded in if and only if its line still has that aid type. |
| ProposalLife.ClosureAfterRunBalances | backend/src/disbursement-store.ts:4901-4942 | If no revision of the run listed an id twice, closing after it counts everything recorded once, and every line, the rupiah totals and every goods total are approved = realized + remainder. |
| ProposalLife.RevisionCanMoveDelivery | backend/src/disbursement.ts:1745 | A run in which an approved revision moves a recorded delivery to the total of another aid type. |
| ProposalLife.RevisionCanCountTwice | backend/src/routes/disbursement.ts:3236-3256 | A run in which an approved revision lists a paid line twice and the closure counts its payment twice. |
| ProposalLife.HeldLinesAreHeldIds | shared/proposal-revision.ts:85-98 | However lines are read from the contents of records, a line the model holds back is among the ids the delta holds back. |
| BeneficiaryDraft.ValidateDraft | backend/src/disbursement.ts:256-287 | The loops over recipients and lines, with their sets of what was seen, report every fault at its row. |
| BeneficiaryDraft.NoDraftFaults | backend/src/disbursement.ts:182-287 | The validators find nothing if and only if every record is sound, ids and events are unique and every line names a listed recipient. |
| BeneficiaryFaultRules.FaultExactlyWhen | backend/src/disbursement.ts:182-287 | Each fault is reported at a row if and only if it is there: a blank text, a NIK that is not sixteen digits, an amount or quantity that is no number, a value without its basis, an unknown recipient, an id used before, or the same aid given before. |
| BeneficiaryTabular.GroupRows | backend/src/beneficiary-tabular-schema.ts:332-399 | The grouping loop, with its maps and sets, gives the recipients, the lines and each row's outcome; a rejected row shows neither recipient nor line. |
| BeneficiaryPlacementRules.ShownTells | backend/src/beneficiary-tabular-schema.ts:332-399 | Every row is shown: an invalid one with its issues; a valid one turned away if and only if it conflicts with a recipient listed already, or else reuses a line id, or else repeats an aid, with that reason; any other with the recipient it describes and the line it adds. |
| BeneficiaryPlacementRules.PlacedTells | backend/src/beneficiary-tabular-schema.ts:373-391 | A placed row adds its line as it stands to the recipient found by NIK, by id, or by name and description in any case, or to a newcomer with the row's own description; ids it leaves open are generated. |
| BeneficiaryRows.ValidRowIsSound | backend/src/beneficiary-tabular-schema.ts:218-300 | A row without issues stands for a recipient and a line that the draft validators accept, trimmed, with a known asnaf and nothing half filled; no draft fault goes unreported for want of a column. |
| BeneficiaryCellRules.RowTells | backend/src/beneficiary-tabular-schema.ts:256-318 | What a row stands for, cell by cell: identity and value by the kind stated or, left out, by the cells that are filled, asnaf in either spelling, relations and contact where filled, the shared period where the row has none; and when it stands for nothing. |
| BeneficiaryCellRules.IssueExactlyWhen | backend/src/beneficiary-tabular-schema.ts:218-295 | An issue is reported at a column with a code if and only if that cell is wrong in that way. |
| BeneficiaryRows.RowReadsBack | backend/src/beneficiary-template-generator.ts:139-171 | Writing such a recipient and line as a row and parsing the row gives them back, without issue. |
| BeneficiaryImport.ImportedDraftIsSound | backend/src/beneficiary-tabular-schema.ts:332-399 | With fresh generated ids, the accepted rows of any table form a draft without faults and with one recipient per NIK. |
| BeneficiaryRoundTrip.ExportedDraftComesBack | backend/src/beneficiary-template-generator.ts:173-185 | A faultless canonical draft, written as rows and imported, comes back unchanged and takes no generated id. |
| BeneficiaryRoundTrip.ReimportIsIdentity | backend/src/beneficiary-tabular-schema.ts:402-443 | Import, export and import again, for any table, gives the recipients and lines of the first import. |
| BeneficiaryPlacementRules.LinelessRowsTell | backend/src/beneficiary-template-generator.ts:173-184 | Exactly the recipients no line names get a row of their own, in order. |
| BeneficiaryPlacementRules.LinelessRowReadsBack | backend/src/beneficiary-template-generator.ts:139-156 | Such a row reads back as its recipient, and the one issue reported is the missing kind of aid. |

## Left out

- SQL, locking order, JSON columns and schema statements: tables are sequences and maps, a transaction is one step, and all rows belong to one institution.
- Validation of malformed amount text: amounts are natural numbers from the start.
- Full Unicode case folding and white space: `Trim`, upper and lower case cover ASCII only.
- Import drafts of contributions, documents, events, notes and actor columns.
- The computation of what an activity can spare (`calculateActivityAccountability`): its result is an input of each move.
- A missing proposal row when shares are recorded: an activity always has its roster, fixed for the run.
- The pseudonym stored with a share and the anonymity guard: they read the roster and move no money.
- JSON values with `toJSON`, array holes or negative zero, and white space in the parser.
- Chain calls, signature and authority checks, fee estimation, parsing of legacy transactions: bytes, liabilities and observations are inputs; a terminal observation is assumed stable.
- Custody recovery of certificates and its rows in the certificate tables.
- The early check for a live successor when a correction is planned: it only narrows what the reservation decides.
- Hashes and HMACs: a code guess is compared by equality, a request hash and a payload hash are opaque.
- Message delivery and its rate limits at the provider.
- `retryCampaignPayment` with its checkout lease and campaign updates: only the effect of a checkout on a payment's status is a step.
- Ties between outbox events with equal attempts are broken by position, which stands for creation time and id.
- Recipient names, decision data and the listing order of goods totals in a closure.
- The examination of a revision and its statuses: a revision under way may be amended, dropped or approved at any time, which allows more runs than the service does.
- Proposal versions as numbers, evidence and confirmation of realizations, cancellation, and the one initial decision, which sets every approved value.
- Documents attached to a report's rows, and its coverage notes.
- FundRuns.EmptyIsSound: does not model `createActivity`, only the state it leaves for a run to start from.
- Header resolution of spreadsheets (aliases, duplicate and unknown columns), totals of the preview, recurring-aid warnings, CSV and XLSX bytes.
- Proposal-level draft checks (program, purpose, period, person in charge), which no aid line or recipient depends on.
- `assessScope` and `correctionJustified`: what they say of the source is an input of a version's validity.
- RevisionDelta.DiffById: does not model the exception on contents without a canonical text; it takes two of them for the same, and the laws about contents and totals (`RevisionDelta.SameContentIgnoresKeyOrder`, `RevisionTotals.TotalsMoveByDelta`) are stated of contents that have one.
- FundBook.Book.ReallocateAllocation: requires that every allocation stands with a known activity and contribution, as foreign keys and every run of the ledger keep it.
- DonorAccessStore.AccessTables.DecideRecovery: does not model the history row, which `ContributionStore.ContributionTable.DecideRecovery` writes.
