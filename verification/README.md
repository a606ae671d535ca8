# Proofs about the property management system

Dafny models of the framework-free logic of the system: channel mapping, the audit chain, the
direct booking engine, the per-request database connection, the statement and report writers,
payments, the rolling price horizon, login and sessions, the booking revision feed, calendar
undo, KPI arithmetic, and permissions. Each module stands beside one or two source files and
says what those files promise, for all inputs and, where there is state, for all runs.

`dafny verify dfyconfig.toml` checks everything.

## How the model reads

- Dates are day numbers, instants are milliseconds, money is integer minor units. Strings are
  sequences of UTF-16 code units where units matter (`Texts`); confidences are real numbers.
- What the program keeps in tables or mutable objects is a class whose methods are tied to a
  function of the old state; the theorems are about those functions, so they hold for runs.
- Loops of the source are loops here. `Array.prototype.sort` is any stable sort: `Sorting`
  shows that a stable sort has one result, so nothing depends on its algorithm.
- Modules whose names end in `Rules`, `Steps`, `Terms`, `Edits` or `Looks` say what the others do over
  the plain inputs and rows, without the functions they are about.
- Hashes are parameters. The audit chain needs that hashes have no `|`, are not empty, and do
  not collide on the texts at hand; sessions need that the token hash is injective.
- The waiters of a request connection have equal time limits, which run out in the order of the
  checkouts.
- Random numbers, the clock, name similarity, locale collation, payment results, and which
  acknowledgements fail, before or after the provider took them, and which revisions arrive
  while the feed is read, are parameters too.
- The PDF and CSV writers are proved against readers written here from the standards: the
  trailer, cross-reference table, page tree, literal strings and stream lengths of ISO 32000-1,
  the quoted fields of RFC 4180.

## Where the code and its promises part

- Cutting entries off the end of the audit chain is not found by `verifyChain`
  (`AuditChain.RearrangedIffPrefix`).
- The worker that consumes `booking.revision_applied` recomputes availability without holds,
  so an event consumed while its nights are held puts a held room back on offer
  (`BookingWorker.ConsumeKeepsIff`, `BookingWorker.LateEventOversells`).
- A finalize that runs after its hold ran out can book a room twice
  (`BookingEngine.LateFinalizeSafeIff`, `BookingEngine.LateFinalizeCanOversell`).
- A claimed hold stays held until it is converted, so two confirmations that overlap both book
  it, although a hold is to be converted exactly once (`Confirmations.SecondBookingPossibleIff`,
  `Confirmations.OverlappingConfirmationsBookTwice`).
- A confirmation prices the nights from the offer of that moment although the guest was
  quoted before (`BookingEngine.BookingCarriesQuoteIff`, `BookingEngine.QuoteIsNotKept`).
- All holders of a request connection get one client object whose `release` each acquisition
  overwrites, so a release acts for the latest acquirer: a late or repeated one lets a waiter
  in beside it (`ConnectionQueue.ReleasePassesHolderIff`,
  `ConnectionQueue.LateReleasePassesHolder`, `ConnectionQueue.BoundIsMet`).
- The last night of a discounted stay can be negative (`HoldPricing.LastNightNonNegativeIff`,
  `HoldPricing.LastNightCanBeNegative`).
- A horizon job that was down for more than a year behind its last cell, or past its whole
  horizon, does not catch up to what daily runs would have written (`Horizon.CatchUpIff`,
  `Horizon.CatchUpOf365Differs`, `Horizon.HoleIff`, `Horizon.YesterdayStaysEmpty`).
- The comment on `refresh` says that reusing a rotated token revokes the session; the code
  answers that it is invalid and changes nothing (`Sessions.ReuseNeverRevokes`).
- `findExisting` looks at 49 pages and then reports that nothing exists
  (`Paging.DistinctOverlookedIff`, `Paging.LastOf4901`).
- A row without cells, which no report has, comes back from a CSV as a row of one empty cell
  (`Csv.RowsRoundTripIff`, `Csv.EmptyRowComesBackLonger`).
- The versions reported for an edit are too low when a list edits a cell twice
  (`CalendarUndo.ReportedVersionIff`, `CalendarUndo.RepeatedCellReportsTooLow`).
- Qualifiers behind `!` and `create` are ignored although the comment says that unknown ones
  throw (`Cells.UnknownQualifierFailsIff`, `Cells.IgnoredQualifier`).

## Model

| member | source | states |
|---|---|---|
| `Mapping.SuggestMappings` | packages/core/src/channels/mapping.ts:41-113 | the loops that collect, sort and pick return exactly the greedy choice over the sorted candidates |
| `Mapping.SuggestionsFormMatching` | packages/core/src/channels/mapping.ts:103-111 | each rate plan and each room::rate target is suggested at most once, with confidence at least 0.2 |
| `Mapping.EveryCandidateIsBlocked` | packages/core/src/channels/mapping.ts:100-111 | a candidate of confidence 0.2 or more that is not suggested conflicts with a suggestion of at least its confidence |
| `Mapping.SuggestionsAreHalfOptimal` | packages/core/src/channels/mapping.ts:100-112 | the total confidence is at least half that of any other conflict-free choice of such candidates |
| `Mapping.HalfIsTight` | packages/core/src/channels/mapping.ts:41-112 | the factor cannot be improved: two plans and two rates of the same names and one remembered mapping, for which the suggestions are worth exactly half of the best choice of candidates |
| `Sorting.StableSortIsUnique` | packages/core/src/channels/mapping.ts:100-102 | a list has only one stable sort, so what is proved about sorted lists holds for whatever stable algorithm `Array.prototype.sort` is |
| `Mapping.SuggestionsAreOffered` | packages/core/src/channels/mapping.ts:55-99 | only pairs of one of our plans and a rate the channel offers are suggested |
| `Mapping.RememberedMappingWins` | packages/core/src/channels/mapping.ts:58-68 | a plan whose accepted mapping is still offered gets a suggestion of confidence 1 for that target, or the target went to another plan of confidence 1 |
| `MappingRules.EveryPairIsWeighed` | packages/core/src/channels/mapping.ts:63-98 | for every plan without a remembered mapping, every room and every rate of it: when the pair scores 0.2 or more (half the room name, 0.35 of the rate name, 0.15 for and 0.1 against the occupancy, 0.9 for the only pair, within 0 and 1), the plan or the rate is suggested with at least that score |
| `MappingRules.SuggestionsAreScored` | packages/core/src/channels/mapping.ts:63-112 | every suggestion is worth 0.2 or more and is such a pair with exactly its score, or the latest accepted mapping of its plan that is still offered |
| `MappingRules.LatestAcceptedWins` | packages/core/src/channels/mapping.ts:55-68 | the latest accepted mapping of a plan that is still offered is suggested with confidence 1 and nothing else is for the plan, unless another plan of confidence 1 has its rate |
| `MappingRules.SuggestionsInOrder` | packages/core/src/channels/mapping.ts:100-112 | suggestions come by falling confidence and, where equal, in the order of their plans |
| `Mapping.DiffMappings` | packages/core/src/channels/mapping.ts:221-240 | the loop over both maps computes exactly the starts, stops and changes |
| `Mapping.DiffIsExact` | packages/core/src/channels/mapping.ts:228-238 | a row is in startsSelling, stopsSelling or changed if and only if its plan is new, gone, or sells something else |
| `Mapping.DiffPatches` | packages/core/src/channels/mapping.ts:221-240 | applying a diff to the old rows sells what the new rows sell, plan by plan |
| `MappingRules.DiffReports` | packages/core/src/channels/mapping.ts:221-240 | over the rows themselves: a plan starts, stops, or changes exactly when its last row is new, gone, or has another room, rate, occupancy or derivation |
| `CanonicalJson.StringReads` | packages/core/src/audit/chain.ts:5-10 | an escaped string is read back by the rules of section 7 of RFC 8259, from any text that follows it |
| `CanonicalJson.ValueIsUnique` | packages/core/src/audit/chain.ts:4-11 | a printed value is decodable in one way: equal texts, whatever follows, come from equivalent values |
| `CanonicalJson.CanonicalIffEquivalent` | packages/core/src/audit/chain.ts:4-11 | two values print alike if and only if they are equal up to key order and dropped undefined members |
| `CanonicalJson.KeyOrderIsIrrelevant` | packages/core/src/audit/chain.ts:7-10 | permuting the members of an object and adding undefined ones does not change its text |
| `CanonicalJson.KeysAscend` | packages/core/src/audit/chain.ts:7-9 | keys are printed in strictly ascending code-unit order (section 3.2.3 of RFC 8785) |
| `AuditChain.PreimageIsUnique` | packages/core/src/audit/chain.ts:16-23 | the hashed text determines previous hash, sequence number and entry |
| `AuditChain.ChainIsValidIff` | packages/core/src/audit/chain.ts:16-48 | a chain is valid if and only if every entry has its number counted from one, the hash of the one before (the first the empty text), and as hash the digest of that hash, its number and its canonical text with bars between |
| `AuditChain.VerifyChain` | packages/core/src/audit/chain.ts:32-48 | accepts exactly valid chains; on rejection `checked` is the length of the longest valid prefix and the reported number is that of the first bad entry |
| `AuditChain.SameEndSameHistory` | packages/core/src/audit/chain.ts:32-48 | two accepted chains with the same last hash have the same length and canonically equal entries |
| `AuditChain.RewriteIsFound` | packages/core/src/audit/chain.ts:41-43 | rewriting what one entry records makes the chain break at that entry |
| `AuditChain.RearrangedIffPrefix` | packages/core/src/audit/chain.ts:38-46 | deleting, repeating or reordering entries of an accepted chain is accepted if and only if a prefix is left: cutting off the end goes unnoticed |
| `AuditChain.AppendIsTheOnlyExtension` | packages/core/src/audit/chain.ts:16-23 | one entry extends a valid chain if and only if it has the next number, the last hash, and the chain hash of its content |
| `BookingEngine.StepKeeps` | packages/jobs/src/booking-engine.ts:257-584 | every hold, confirmation, expiry sweep, cancellation and tick of the clock keeps the index sound and no night oversold |
| `BookingEngine.RunsAreSafe` | packages/jobs/src/booking-engine.ts:257-362 | in every run no night has more booked and live-held than rooms, and the stored availability never exceeds a recount |
| `BookingSteps.NoNightIsOversold` | packages/jobs/src/booking-engine.ts:257-584 | in every run the booking rows confirmed for a night and the hold rows live on it are together at most the rooms |
| `BookingSteps.CreateHoldDoes` | packages/jobs/src/booking-engine.ts:257-309 | a hold is made if and only if the stay is sold and every night has a room in the index; it keeps the quote, lives 15 minutes and takes one room from each of its nights |
| `BookingSteps.ConfirmAnswers` | packages/jobs/src/booking-engine.ts:419-521 | a paid confirmation of a held hold books if and only if the hold has not run out, or every night has a room and the offer a price a night; otherwise it answers NotAvailable, unpaid PaymentDeclined, and changes nothing |
| `BookingSteps.ConfirmOfOthers` | packages/jobs/src/booking-engine.ts:426-438 | confirming a converted hold names its booking, any other fails as gone; nothing changes |
| `BookingSteps.ConfirmDoes` | packages/jobs/src/booking-engine.ts:491-584 | a confirmation that books adds one booking of the stay at the price of the moment or of the hold less the discount, converts the hold to it, and leaves each night what is left beside it |
| `BookingSteps.ExpireHoldsDoes` | packages/jobs/src/booking-engine.ts:327-362 | the sweep expires exactly the held holds that have run out, and every one of their nights shows what is left again |
| `BookingSteps.GuestCancelDoes` | packages/jobs/src/booking-engine.ts:1042-1064 | an allowed cancellation unconfirms the booking and gives its room back on every night |
| `BookingSteps.ExpiredHoldStillBooks` | packages/jobs/src/booking-engine.ts:516-521 | a hold that ran out at the instant of its confirmation is booked while the stay is on offer |
| `BookingEngine.ConfirmLeavesIndexExact` | packages/jobs/src/booking-engine.ts:572-583 | right after a confirmation the index equals the recount on every night of the stay |
| `BookingEngine.ConfirmIsIdempotent` | packages/jobs/src/booking-engine.ts:426-438 | once a confirmation has finished with its one booking, confirming the hold again, whatever is asked or paid then, names the same booking and changes nothing |
| `BookingEngine.BookingCarriesQuoteIff` | packages/jobs/src/booking-engine.ts:501-526 | the booking is worth the quoted room price less the discount if and only if the stay is off the offers or still asks what was quoted |
| `BookingEngine.QuoteIsNotKept` | packages/jobs/src/booking-engine.ts:501-526 | a stay quoted at 100 is booked at 120 when the offer asks 120 at the confirmation |
| `BookingEngine.DeriveSoundIff` | packages/jobs/src/worker/availability-derive.ts:47-70 | the background recompute, which ignores holds, keeps the index sound if and only if no live hold covers the touched nights |
| `BookingEngine.DerivedIndexOversells` | packages/jobs/src/worker/availability-derive.ts:53-70 | where the last room of a night is under a live hold, one recompute of that night lets the next hold oversell it, which is refused otherwise |
| `BookingEngine.LateFinalizeSafeIff` | packages/jobs/src/booking-engine.ts:479-521 | a finalize that runs after its claim books a hold live at the claim, and such a booking, or one of a stay still on offer, oversells no night if and only if the hold row is still live or every night has a spare room |
| `BookingEngine.LateFinalizeCanOversell` | packages/jobs/src/booking-engine.ts:479-521 | a run after which a late finalize and the next confirmation make two bookings for the one room |
| `BookingWorker.ConsumeKeepsIff` | packages/jobs/src/worker/availability-derive.ts:20-70 | consuming the event of a booking keeps the index sound and no night oversold if and only if no live hold covers the nights of that booking |
| `BookingWorker.QuietRunsAreSafe` | packages/jobs/src/worker/availability-derive.ts:20-70 | every run of desk and consumer in which each event is consumed while its nights are unheld keeps the invariant |
| `BookingWorker.LateEventOversells` | packages/jobs/src/worker/availability-derive.ts:20-70 | a run from one empty room: a guest books and cancels, a second holds, the event of the cancellation is consumed, and a third holds the same room |
| `Confirmations.SecondBookingPossibleIff` | packages/jobs/src/booking-engine.ts:419-480 | at any moment a second booking of one hold is possible if and only if its row is still held, or two claims are open or finalized |
| `Confirmations.OneHoldOneBooking` | packages/db/src/repositories/booking-engine.ts:421-452 | a run in which nobody claims the held row while another claim is open makes at most one booking of the hold |
| `Confirmations.OverlappingConfirmationsBookTwice` | packages/db/src/repositories/booking-engine.ts:425-452 | two confirmations that both claim before either finalizes make two bookings, and the row names the second |
| `ProtocolRules.ConfirmationSteps` | packages/jobs/src/booking-engine.ts:419-521 | a claim goes through exactly while the row is held and leaves it so, a declined payment ends the attempt, an accepted finalize books and converts whatever the row is |
| `ProtocolRules.ConvertedStays` | packages/db/src/repositories/booking-engine.ts:421-452 | a converted row stays converted in every run, and a row once not held is never held again |
| `ProtocolRules.BookingIsPublished` | packages/jobs/src/booking-engine.ts:491-584 | a confirmation queues one event of its stay exactly when it makes a booking |
| `BookingDesk.ActiveHoldsByDate` | packages/core/src/booking-engine/search.ts:175-198 | the loop over holds and nights adds up, for every date, the rooms of the live holds that cover it |
| `BookingDesk.Desk.RecomputeAvailability` | packages/jobs/src/availability.ts:18-67 | rewrites the cells of the stay from a recount, leaves all others, and counts cells and overbooked nights |
| `BookingDesk.Desk.SearchAvailable` | packages/core/src/booking-engine/search.ts:29-36 | finds a room if and only if every night of the stay has one in the index |
| `BookingDesk.Desk.CreateHold` | packages/jobs/src/booking-engine.ts:257-309 | the new tables are the step of the state machine; refused exactly when search does not offer the stay |
| `BookingDesk.Desk.ExpireHolds` | packages/jobs/src/booking-engine.ts:327-362 | every due hold is expired, counted once, and its nights recomputed |
| `BookingDesk.Desk.Confirm` | packages/jobs/src/booking-engine.ts:419-480 | the new tables and the answer are those of the state machine |
| `BookingDesk.Desk.Finalize` | packages/jobs/src/booking-engine.ts:491-583 | booking, recompute, conversion and recompute together are one confirmation step |
| `BookingDesk.Desk.GuestCancel` | packages/jobs/src/booking-engine.ts:1042-1064 | the booking stops counting and its nights are recomputed |
| `BookingDesk.NeverOverbooked` | packages/jobs/src/availability.ts:52-61 | while the invariant holds a recompute reports no overbooked night |
| `BookingDesk.OverbookedAre` | packages/jobs/src/availability.ts:52-61 | the nights reported as overbooked are those with more booked and held than rooms |
| `HoldPricing.NightlyFrom` | packages/jobs/src/booking-engine.ts:713-723 | the loop splits the room price into the even nightly amounts |
| `HoldPricing.ApplyDiscount` | packages/jobs/src/booking-engine.ts:725-743 | the loop gives each night its floored share and the last night the rest |
| `HoldPricing.EvenSplitConserves` | packages/jobs/src/booking-engine.ts:713-723 | the nights add up to the room price |
| `HoldPricing.DiscountConserves` | packages/jobs/src/booking-engine.ts:725-743 | the discounted nights add up to the total less the discount, for any amounts |
| `HoldPricing.EarlyNightIs` | packages/jobs/src/booking-engine.ts:725-743 | every night but the last loses its share of the discount, rounded down |
| `HoldPricing.EarlyNightsWithin` | packages/jobs/src/booking-engine.ts:725-743 | every night but the last stays between zero and its price, and less than one unit above its pro-rata value |
| `HoldPricing.LastNightExactly` | packages/jobs/src/booking-engine.ts:725-743 | the last night is its pro-rata value less everything flooring left on the others |
| `HoldPricing.LastNightWithin` | packages/jobs/src/booking-engine.ts:725-743 | the last night is never above its pro-rata value, and less than one unit per other night below it |
| `HoldPricing.LastNightNonNegativeIff` | packages/jobs/src/booking-engine.ts:725-743 | the last night is not negative if and only if what flooring left behind does not exceed its pro-rata value |
| `HoldPricing.LastNightCanBeNegative` | packages/jobs/src/booking-engine.ts:725-743 | three nights of 1 with discount 2 end in a night of -1 |
| `HoldPricing.HoldMoneyConserved` | packages/jobs/src/booking-engine.ts:713-743 | the nights booked from a hold add up to exactly room price less discount |
| `ConnectionQueue.HoldersAtMostOnePlusTimeouts` | packages/db/src/client.ts:118-153 | when nobody releases twice, in every interleaving at most one holder more than there were timed-out waiters |
| `ConnectionQueue.HoldersBounded` | packages/db/src/client.ts:118-153 | in every interleaving the holders are at most one plus the timed-out waiters plus the repeated releases |
| `ConnectionQueue.BoundIsMet` | packages/db/src/client.ts:124-153 | for every number of time-outs and repeated releases an interleaving reaches exactly that bound; one repeated release alone makes two holders |
| `ConnectionQueue.ServedAscends` | packages/db/src/client.ts:124-132 | in every interleaving checkouts get the connection in the order they were made |
| `ConnectionQueue.FirstInFirstOut` | packages/db/src/client.ts:124-142 | while nobody has timed out or released twice, one holds at a time and each is served after the one before has released |
| `ConnectionQueue.ReleasePassesHolderIff` | packages/db/src/client.ts:137-152 | a release lets a checkout pass someone who goes on holding if and only if another than the latest acquirer calls it while that one holds and was not let pass before |
| `ConnectionQueue.OvertakesHolderOnly` | packages/db/src/client.ts:118-153 | a checkout is served beside an earlier holder only when a release of another let it pass that holder, or the checkout right behind the holder timed out |
| `ConnectionQueue.LateReleasePassesHolder` | packages/db/src/client.ts:129-152 | a run in which everyone releases at most once and the release of the first holder lets the fourth checkout in beside the third |
| `ConnectionQueue.NeverStalls` | packages/db/src/client.ts:124-142 | in every interleaving, while someone waits and nobody holds, some waiter can be served |
| `ProtocolRules.ConnectionSteps` | packages/db/src/client.ts:118-137 | what each step of a checkout needs and changes: it is served when the one before lets it pass, and times out while it does not, after all before it have settled |
| `ProtocolRules.ReleaseStep` | packages/db/src/client.ts:137-152 | anyone who was served may release at any time; it is always the latest one served that lets the next pass |
| `ConnectionQueue.ScopedConnection.Checkout` | packages/db/src/client.ts:118-128 | a checkout queues behind the current tail |
| `ConnectionQueue.ScopedConnection.TurnHasCome` | packages/db/src/client.ts:123-132 | the promise a checkout awaits is resolved if and only if the one before it lets it pass |
| `ConnectionQueue.ScopedConnection.Settle` | packages/db/src/client.ts:129-137 | a waiter is served in turn, or times out and lets the next one pass |
| `ConnectionQueue.ScopedConnection.Release` | packages/db/src/client.ts:137-152 | a release, by whoever holds the client, resolves the promise of the latest acquirer |
| `StatementPdf.SplitPages` | packages/jobs/src/statement-pdf.ts:10-13 | the loop cuts the lines into the pages |
| `StatementPdf.PagesKeepLines` | packages/jobs/src/statement-pdf.ts:10-13 | the pages concatenated are the lines, and only the last page is not full |
| `PdfStrings.LiteralReads` | packages/jobs/src/statement-pdf.ts:62-71 | an escaped line read as a PDF literal string gives the characters the page is to show |
| `PdfStrings.PlainIsShownAsIs` | packages/jobs/src/statement-pdf.ts:62-71 | a line of WinAnsi characters is shown unchanged |
| `ReportRules.CharacterIsShown` | packages/jobs/src/statement-pdf.ts:62-71 | WinAnsi characters are shown as they are, the arrow in ASCII, the euro sign by its code, any other character as one question mark |
| `PdfFile.WriteDocument` | packages/jobs/src/statement-pdf.ts:49-58 | the loops over objects and offsets write the document |
| `PdfFile.EntryIs20Bytes` | packages/jobs/src/statement-pdf.ts:57 | a cross-reference entry has 20 bytes if and only if its offset has at most ten digits, and then holds it |
| `PdfFile.TableReads` | packages/jobs/src/statement-pdf.ts:55-58 | startxref gives the offset of the table, which announces one entry per object and the free one |
| `PdfFile.EntryReads` | packages/jobs/src/statement-pdf.ts:50-57 | the entry of each object gives the exact offset where the object starts |
| `PdfFile.ObjectReads` | packages/jobs/src/statement-pdf.ts:51-58 | every object is recovered from the bytes through startxref and the table (section 7.5.4 of ISO 32000-1) |
| `PdfFile.RootReads` | packages/jobs/src/statement-pdf.ts:57-58 | the trailer behind the last entry names the catalog |
| `PdfFile.Latin1` | packages/jobs/src/statement-pdf.ts:73-77 | writes the low byte of every unit, which for a document loses nothing |
| `PdfPages.StreamReads` | packages/jobs/src/statement-pdf.ts:36-39 | each /Length is the byte count of its stream |
| `PdfPages.PagesRead` | packages/jobs/src/statement-pdf.ts:20-48 | walking from the root over catalog and page tree gives the page objects in order, as many as /Count says |
| `PdfPages.PageStreamReads` | packages/jobs/src/statement-pdf.ts:36-44 | the content stream a page object refers to is recovered from the bytes |
| `StatementPdf.PageReads` | packages/jobs/src/statement-pdf.ts:28-45 | a page read from the bytes shows the title (first page), its lines in order and its number |
| `StatementLooks.StatementSettings` | packages/jobs/src/statement-pdf.ts:28-45 | read from the bytes, every text of a page is set in its font and size: the title in Helvetica of 16, lines in Courier of 9 or Helvetica of 10, page numbers in Helvetica of 8 |
| `StatementLooks.PageNamesFonts` | packages/jobs/src/statement-pdf.ts:22-45 | every page names the page tree as its parent and the objects of Helvetica and Courier as its two fonts |
| `StatementPdf.WrittenStatementReads` | packages/jobs/src/statement-pdf.ts:6-60 | the whole statement, read from its bytes by walking from the root to each content stream, gives back every line in order |
| `StatementPdf.WritePdf` | packages/jobs/src/statement-pdf.ts:6-60 | the bytes written are those of the document |
| `Csv.RowReads` | packages/jobs/src/analytics.ts:907-919 | a row read by rules 5 to 7 of section 2 of RFC 4180 gives back its cell texts, whatever quotes, commas and line feeds they hold |
| `ReportRules.CellsSay` | packages/jobs/src/analytics.ts:907-911 | a cell of words is the words, one without a value is empty, and a number is read back from its cell |
| `ReportRules.QuotedIff` | packages/jobs/src/analytics.ts:907-911 | a cell is quoted if and only if it holds a quote, a comma or a line feed, and is written as it is otherwise |
| `Csv.RowsRoundTripIff` | packages/jobs/src/analytics.ts:915-918 | all rows are recovered cell by cell if and only if none of them is empty |
| `Csv.EmptyRowComesBackLonger` | packages/jobs/src/analytics.ts:915-918 | one row without cells is read back as a row of one empty cell |
| `Csv.FileReads` | packages/jobs/src/analytics.ts:912-918 | the data part of a file is found behind the two description lines, when those hold no line feed |
| `Money.Allocate` | packages/core/src/shared/money.ts:145-171 | the loops compute the allocation or the error |
| `Money.AllocationConserves` | packages/core/src/shared/money.ts:145-171 | the parts add up to exactly the whole, of either sign |
| `Money.PartIsShare` | packages/core/src/shared/money.ts:152-170 | each part is its exact share rounded down or up, and a zero ratio gets nothing |
| `Money.LargerRatiosFirst` | packages/core/src/shared/money.ts:156-169 | a part is rounded up only if those of larger ratios are |
| `AllocationRules.PartIsExact` | packages/core/src/shared/money.ts:145-171 | each part exactly: its share rounded down, and one more when fewer parts are ahead of it, by ratio and then by place, than units are left over |
| `AllocationRules.AllocationFailsIff` | packages/core/src/shared/money.ts:146-152 | it fails exactly without ratios, with a negative one, or when all are zero |
| `Payments.PlanPayments` | packages/core/src/booking-engine/payment-rules.ts:80-102 | the loop computes the plan, or the error of allocate |
| `Payments.PlanIsSound` | packages/core/src/booking-engine/payment-rules.ts:59-108 | instalments are positive, in due order, never before the booking, never more than the total, and with uncoveredMinor make up the total |
| `PaymentTerms.PlanFollowsRules` | packages/core/src/booking-engine/payment-rules.ts:54-102 | the rules that are enabled and meant for the property and channel take, by position and identifier, what they ask for of what is left; each amount is an instalment due on the day of its rule |
| `PaymentTerms.InstalmentIsOfRule` | packages/core/src/booking-engine/payment-rules.ts:59-99 | every instalment is one of such a rule, due on the day of the booking, or the days of the rule before or after arrival but not before the booking; a fixed amount is taken in full or the plan collects everything |
| `Payments.RemainderCollectsAll` | packages/core/src/booking-engine/payment-rules.ts:94-99 | with an applicable remainder rule the plan collects everything |
| `Payments.PlanForgetsOrder` | packages/core/src/booking-engine/payment-rules.ts:83-85 | rules with distinct ids give the same plan in any stored order |
| `Payments.PercentIsShare` | packages/core/src/booking-engine/payment-rules.ts:90-94 | a percentage up to 100 wants its exact share of the total, rounded down or up |
| `PaymentTerms.WantedIsShare` | packages/core/src/booking-engine/payment-rules.ts:88-94 | a percentage is its share of the total rounded down, from one half on rounded up, and the whole from 100 % on |
| `Payments.PlanFailsIff` | packages/core/src/booking-engine/payment-rules.ts:86-99 | the function throws if and only if a negative percentage is reached while something is left to collect |
| `Payments.SoundRulesNeverFail` | packages/db/migrations/0021_m9_payment_rls.sql:17 | no rule the table can hold makes planning throw: its amounts are zero or more, and without an applicable negative percentage there is always a plan |
| `Payments.NegativePercentFails` | packages/core/src/booking-engine/payment-rules.ts:86-99 | what the function does with a rule the table refuses: one of minus one basis point makes the plan of a stay of 100 throw |
| `Horizon.SeedHorizon` | packages/core/src/inventory/horizon.ts:7-17 | writes each of the days once, in order, with the defaults |
| `Horizon.ExtendHorizon` | packages/core/src/inventory/horizon.ts:23-39 | writes every day after the last seeded one up to the target once, in order, with the values of 364 days earlier or the defaults |
| `Horizon.Plan.Extend` | packages/jobs/src/horizon.ts:33-60 | the stored table after the job is its extension, and the count is the number of new cells |
| `Horizon.ExtendedIs` | packages/jobs/src/horizon.ts:36-59 | for every table the job adds exactly the days after the last stored one and after yesterday up to the target; a new day has the values of 364 days earlier, else those of the last day, else 100.00, one night, open; stored days stay |
| `Horizon.CatchUpIff` | packages/jobs/src/horizon.ts:32-60 | one catch-up run of k days leaves what k daily runs leave if and only if the days over a year behind carry the last stored value |
| `Horizon.CatchUpIsDaily` | packages/jobs/src/horizon.ts:32-60 | a catch-up of at most 364 days always does |
| `Horizon.LongCatchUpIff` | packages/jobs/src/horizon.ts:36-46 | with a year of cells a longer catch-up does if and only if the first k - 364 days of that year have the value of its last day |
| `Horizon.CatchUpOf365Differs` | packages/jobs/src/horizon.ts:36-46 | for a plan seeded on day 0 with day 366 closed, one catch-up on day 365 differs from 365 daily runs |
| `Horizon.CarriedRepeats` | packages/core/src/inventory/horizon.ts:34-36 | values repeat with period 364 and keep their weekday |
| `Horizon.HoleIff` | packages/jobs/src/horizon.ts:36 | a run leaves the table without a hole if and only if the last stored day is yesterday or later |
| `Horizon.YesterdayStaysEmpty` | packages/jobs/src/horizon.ts:36 | a plan seeded on day 0 whose job runs again on day 731 gets a cell for that day and none for day 730 |
| `Horizon.HoleStays` | packages/jobs/src/horizon.ts:32-60 | a hole is never filled by later runs |
| `Lockout.Account.Login` | packages/core/src/identity/service.ts:137-186 | the account and the answer after an attempt are those of the state machine |
| `LoginRules.AttemptIsAnswered` | packages/core/src/identity/service.ts:137-186 | a locked account refuses every attempt and stays as it is; otherwise the right password is accepted and clears count and lock, and a wrong one is counted |
| `LoginRules.WrongPasswordLocksIff` | packages/core/src/identity/service.ts:144-161 | a wrong password locks exactly from the given number of failures on, for a time that doubles with each |
| `Lockout.GuessesAreSpaced` | packages/core/src/identity/service.ts:144-161 | in every run without a success the n-th wrong password compared comes at least b*(2^(n-m)-1) minutes after the m-th |
| `Lockout.BoundIsMet` | packages/core/src/identity/service.ts:144-161 | guessing at the end of each lock meets that bound exactly |
| `LoginRules.GuessesAreSpacedAfterSuccess` | packages/core/src/identity/service.ts:144-186 | after any history that ends in a success, later guesses are spaced as against a new account |
| `Sessions.SessionStore.Refresh` | packages/core/src/identity/service.ts:234-254 | the stored sessions and the answer after a refresh |
| `LoginRules.RefreshIsAnswered` | packages/core/src/identity/service.ts:234-254 | the token of a session is refused when it ran out or was revoked, revokes it from another device, and is otherwise exchanged with a new full life; no other session changes |
| `LoginRules.RefreshedInTimeLives` | packages/core/src/identity/service.ts:246-253 | a session refreshed in time from its own device lives on through any number of refreshes |
| `LoginRules.SessionsAreEnded` | packages/core/src/identity/service.ts:256-262 | revoking ends one session, signing out every session of the user not revoked before |
| `Sessions.StepKeepsInv` | packages/core/src/identity/service.ts:234-262 | no two sessions ever share a refresh hash |
| `Sessions.RotatedTokenIsDead` | packages/core/src/identity/service.ts:246-253 | in every run after a rotation the old token is refused and its use changes no session |
| `Sessions.RevokedTokenIsRefused` | packages/core/src/identity/service.ts:239 | a revoked session stays revoked and its token is refused in every later state |
| `Sessions.RefreshRevokesIff` | packages/core/src/identity/service.ts:233-245 | a refresh revokes a session if and only if the current token of a live session comes from another device |
| `Sessions.ReuseNeverRevokes` | packages/core/src/identity/service.ts:233-238 | reusing a rotated token never revokes the session, against the comment on refresh |
| `RevisionFeed.Provider.EmitRevision` | packages/connectivity/src/fake/fake-provider.ts:798-810 | the state after an emission: latest revisions, unacked ones, ledger and queued webhooks |
| `FeedRules.EmitDoes` | packages/connectivity/src/fake/fake-provider.ts:798-810 | an emission makes the revision the latest of its booking, unacknowledged and last in the ledger, and queues the webhook that announces it |
| `RevisionFeed.Provider.AckBookingRevisions` | packages/connectivity/src/fake/fake-provider.ts:838-847 | acknowledges in order up to the first unknown identifier |
| `FeedRules.AcksUpToUnknown` | packages/connectivity/src/fake/fake-provider.ts:838-847 | a list is acknowledged exactly up to the first identifier never emitted, known ones again included |
| `RevisionFeed.RunsKeepInv` | packages/connectivity/src/fake/fake-provider.ts:798-847 | in every run the emitted revisions are the disjoint union of the unacked and the acked ones |
| `RevisionFeed.RunsStayUpToDate` | packages/connectivity/src/fake/fake-provider.ts:798-810 | in every run each booking has its latest emitted revision, and the queued webhooks announce the last revisions in order, each once |
| `FeedRules.QueuedSinceFlush` | packages/connectivity/src/fake/fake-provider.ts:798-810 | in every run the queued webhooks announce, in order, exactly what was emitted since the last flush |
| `RevisionFeed.AckIsIdempotent` | packages/connectivity/src/fake/fake-provider.ts:841-843 | acknowledging again changes nothing but the log |
| `RevisionFeed.PagingIsComplete` | packages/connectivity/src/fake/fake-provider.ts:812-836 | paging to the end gives each unacked revision of the property once, oldest first |
| `FeedRules.PageHolds` | packages/connectivity/src/fake/fake-provider.ts:830-835 | page p holds the entries from 10 (p - 1) on, ten at most, and names the next page if and only if there is more |
| `FeedRules.OldestFirst` | packages/connectivity/src/fake/fake-provider.ts:818-828 | the feed of a property lists its unacknowledged revisions by instant and then by number |
| `Ingest.IngestProperty` | packages/core/src/reservations/ingest.ts:39-87 | whatever acknowledgements fail, before or after the provider took them, and whatever revisions arrive meanwhile: nothing leaves the feed unstored, and a run that ends by itself has seen once and stored every revision that the feed had had when its last pass over it began, a pass no longer than the pages of all revisions; with few revisions it ends before the limit of rounds |
| `Ingest.Round` | packages/core/src/reservations/ingest.ts:59-85 | before each page that is read everything known earlier in the feed was seen; a page without a next one means all that is known was seen |
| `Ingest.NextRound` | packages/core/src/reservations/ingest.ts:59-85 | a round with the revisions that arrive before it: whatever they are, every revision known when the pass began was seen before the next page, and all of them when there is none |
| `Ingest.Handle` | packages/core/src/reservations/ingest.ts:66-83 | a revision not seen before is counted once as duplicate, acknowledged again, applied or stale, stored before it is acknowledged and marked when that went through; no other revision is lost |
| `IngestRules.RevisionIsCounted` | packages/core/src/reservations/ingest.ts:69-82 | a revision is counted once: as duplicate when stored and acknowledged, acknowledged again when only stored, applied or stale when new; but for a duplicate one acknowledgement or one failure is counted too |
| `IngestRules.RevisionIsStored` | packages/core/src/reservations/ingest.ts:70-81 | stored is what was stored and the revision; an entry is acknowledged when it was before or when the acknowledgement of its revision went through |
| `IngestRules.TableGrowsByNew` | packages/core/src/reservations/ingest.ts:92-106 | the table grows by one for each revision counted as applied or stale, and by none for any other |
| `IngestRules.AckIsTaken` | packages/core/src/reservations/ingest.ts:144-165 | an acknowledgement the provider takes is that of the one revision, whether or not its answer arrives; any other changes nothing |
| `Paging.ListAll` | packages/connectivity/src/channex/provider.ts:365-393 | returns the whole list if and only if the server reports totals or one page holds it |
| `Paging.FindExisting` | packages/connectivity/src/channex/provider.ts:333-363 | returns the first match among the items searched |
| `Paging.FoundIsFirst` | packages/connectivity/src/channex/provider.ts:340-361 | what is found is the first of all items that matches |
| `Paging.FoundIff` | packages/connectivity/src/channex/provider.ts:340-361 | something is found if and only if an item among those searched matches |
| `Paging.NothingOverlookedIff` | packages/connectivity/src/channex/provider.ts:340-361 | for every list: findExisting finds something whenever some item matches, for every predicate, if and only if the items it never looks at repeat searched ones |
| `Paging.DistinctOverlookedIff` | packages/connectivity/src/channex/provider.ts:340-361 | of distinct items it overlooks none, for every predicate, if and only if there are at most 4900 of them (100 without a reported total) |
| `Paging.LastOf4901` | packages/connectivity/src/channex/provider.ts:340-361 | the last of 4901 items is not found |
| `PushResults.PushResult` | packages/connectivity/src/channex/provider.ts:1431-1475 | the loop matches warnings to entries in order |
| `ProviderRules.WarningIsPlaced` | packages/connectivity/src/channex/provider.ts:1450-1462 | a warning belongs to the first entry of its key, not taken before, that sent a field it names, else to the first of its key, else to the index it gives, else to none |
| `ProviderRules.WarningIsKept` | packages/connectivity/src/channex/provider.ts:1445-1470 | a warning with fields and a place rejects that place by its first field, any other one is kept as text |
| `PushResults.NoWarningLost` | packages/connectivity/src/channex/provider.ts:1445-1467 | every warning is a rejection or kept as text |
| `PushResults.AcceptedPlusRejected` | packages/connectivity/src/channex/provider.ts:1455-1470 | when entries are only echoed none is rejected twice, and the accepted count and the rejected ones make up what was sent |
| `PushResults.EveryEchoRejects` | packages/connectivity/src/channex/provider.ts:1454-1466 | when no key is echoed more often than it was sent every echo rejects an entry of its key |
| `Webhooks.WebhookQueue.Pick` | packages/connectivity/src/fake/fake-provider.ts:219-230 | the first rule that concerns the operation, is not exhausted and passes its chance fires |
| `ProviderRules.FirstFiringRuleIsPicked` | packages/connectivity/src/fake/fake-provider.ts:219-230 | the first rule that concerns the operation, is not exhausted and has its random number within its chance gives the fault and is counted; every one before it with a chance draws a number |
| `Webhooks.PickKeepsTimes` | packages/connectivity/src/fake/fake-provider.ts:221-226 | no rule fires more often than its limit |
| `Webhooks.Shuffle` | packages/connectivity/src/fake/fake-provider.ts:1299-1306 | the in-place swaps give the shuffle of the drawn numbers, which is a permutation |
| `ProviderRules.EveryOrderIsPossible` | packages/connectivity/src/fake/fake-provider.ts:1299-1306 | a list can come out of a shuffle, for some random numbers below one, if and only if it is a permutation of what went in |
| `Webhooks.WebhookQueue.FlushWebhooks` | packages/connectivity/src/fake/fake-provider.ts:1263-1283 | without a sink nothing happens; with one the state after is that of the batch taken, possibly shuffled, and delivered webhook by webhook |
| `Webhooks.FlushAccounts` | packages/connectivity/src/fake/fake-provider.ts:1263-1283 | the queue is emptied; the sink gets a permutation of it, in order unless reordered, each webhook zero, one or two times; deliveries and drops are the webhooks and the duplicates |
| `ProviderRules.BatchIsTaken` | packages/connectivity/src/fake/fake-provider.ts:1263-1267 | with two or more queued the order meets its fault, and only the fault for it shuffles, from the next random number on; fewer draw nothing |
| `ProviderRules.WebhookMeetsFault` | packages/connectivity/src/fake/fake-provider.ts:1269-1281 | a webhook is dropped and counted, delivered twice, or delivered once by the fault picked for its delivery |
| `ProviderRules.FlushWithoutFaults` | packages/connectivity/src/fake/fake-provider.ts:1263-1283 | without faults for webhooks a flush delivers exactly what was queued, once and in order |
| `Webhooks.DeliveriesBalance` | packages/connectivity/src/fake/fake-provider.ts:1268-1281 | deliveries and drops are the webhooks and the duplicates |
| `Webhooks.ArrivesUpToTwice` | packages/connectivity/src/fake/fake-provider.ts:1275-1280 | no webhook arrives more than twice for each time it was queued |
| `Webhooks.LossIsBounded` | packages/connectivity/src/fake/fake-provider.ts:219-230 | with a limit on every dropping rule no run of queueing, flushes and other operations loses more webhooks than the limits add up to |
| `ProviderRules.QueuedAreAccounted` | packages/connectivity/src/fake/fake-provider.ts:1253-1283 | at any moment of a run each webhook queued is waiting, delivered at least once, or counted as dropped |
| `CalendarUndo.Calendar.ApplyCellEdits` | apps/web/src/server/ari.ts:30-71 | all edits are written and their inverse recorded, or on any conflict nothing happens |
| `CalendarEdits.EditsAreWrittenIff` | packages/db/src/repositories/calendar.ts:188-222 | edits of plans of the property are written if and only if every cell is stored and, where the editor names a version, in that version; otherwise nothing is, and each editor with an old version gets the stored row |
| `CalendarEdits.SecondEditorIsRefused` | packages/db/src/repositories/calendar.ts:188-222 | of two editors who saw the same version of a cell the second is refused and told what the first wrote |
| `CalendarEdits.EditsShow` | apps/web/src/server/ari.ts:44-71 | after written edits a field shows what the last edit that gives it a value says, and every other field what it showed |
| `CalendarEdits.EditsRecord` | apps/web/src/server/ari.ts:44-71 | versions grow by one for each edit of a cell, other cells stay, and the operation is recorded for the property |
| `CalendarUndo.Calendar.UndoOperation` | apps/web/src/server/ari.ts:111-144 | the recorded inverse is written, its own inverse recorded, the operation marked |
| `CalendarEdits.UndoRecords` | apps/web/src/server/ari.ts:111-144 | an undo marks the operation, records its own inverse for the property, and leaves all other operations |
| `CalendarUndo.InverseRestores` | apps/web/src/server/ari.ts:46-53 | applying an inverse at any later time gives every touched field its recorded value, absent as null, and leaves every other field |
| `CalendarUndo.UndoRestores` | apps/web/src/server/ari.ts:111-129 | undo restores what every cell showed, for any list of changes, repeated cells included |
| `CalendarUndo.UndoThenRedo` | apps/web/src/server/ari.ts:30-144 | undoing the undo shows what the edit had made |
| `CalendarUndo.UndoneOnce` | apps/web/src/server/ari.ts:118-121 | after a successful undo, in every later run, a further undo of the operation is refused and changes nothing |
| `CalendarUndo.ReportedVersionIff` | packages/db/src/repositories/calendar.ts:191-222 | the version an edit reports is the stored one if and only if its cell occurs once in the list |
| `CalendarUndo.RepeatedCellReportsTooLow` | packages/db/src/repositories/calendar.ts:191-222 | two edits of one cell both report version 2 and leave version 3 |
| `Kpis.KpisBlend` | packages/core/src/analytics/kpis.ts:222-253 | totals of a concatenation are the sums, and every rounded KPI of two ranges together lies between its two values |
| `KpiRules.TotalsAreSums` | packages/core/src/analytics/kpis.ts:222-233 | the totals are the sums of each column of the days |
| `KpiRules.FiguresAre` | packages/core/src/analytics/kpis.ts:234-253 | each figure is the nearest integer, halves up, to its quotient of totals, and missing without a positive divisor; the net rate is after commission and withheld tax |
| `KpiRules.MixIs` | packages/core/src/analytics/kpis.ts:367-384 | the mix lists every channel once, most nights first and then by name, with its shares of all nights and revenue and its net revenue a night |
| `Kpis.RevparIsOccupancyTimesRate` | packages/core/src/analytics/kpis.ts:244-246 | RevPAR equals occupancy times ADR within 10000 plus half the rate, in ten-thousandths of a unit |
| `Kpis.NightSharesSum` | packages/core/src/analytics/kpis.ts:367-384 | night shares sum to 10000 within half a basis point a channel |
| `Kpis.RevenueSharesSum` | packages/core/src/analytics/kpis.ts:367-384 | so do revenue shares |
| `Rows.RowsAreSafe` | packages/authz/src/rows.ts:17-170 | no read, own or named set of a row holds a sensitive permission |
| `CellRules.CellReads` | packages/authz/src/cell.ts:39-48 | a mark and a qualifier are read back from a cell whatever blanks stand before, between and behind them |
| `CellRules.QualifierIsOneLine` | packages/authz/src/cell.ts:46-47 | a qualifier that goes on in another line makes the cell unreadable, whatever its mark |
| `CellRules.TickAndBangMean` | packages/authz/src/cell.ts:69-79 | `✓` allows the row without what is sensitive, or reading and a named subset; `!` the whole row with step-up |
| `CellRules.ReadMeans` | packages/authz/src/cell.ts:80-89 | `R` allows reading, with a named subset behind `+`, or with a filter; anything else fails |
| `CellRules.CircleMeans` | packages/authz/src/cell.ts:90-98 | `○` allows nothing and makes the row, a named subset, or the row with a filter grantable |
| `CellRules.RingMeans` | packages/authz/src/cell.ts:99-103 | `⊙` allows the own subset, or reading, for own rows or those of a filter |
| `CellRules.ReadRingMeans` | packages/authz/src/cell.ts:104-111 | `R⊙` allows reading own rows or those of a filter, or own rows and a named subset |
| `Cells.SensitiveNeedsStepUp` | packages/authz/src/cell.ts:39-117 | a cell allows a sensitive permission only with step-up |
| `Cells.NothingBeyondRow` | packages/authz/src/cell.ts:70-116 | no cell grants or makes grantable anything its row does not know |
| `Cells.UnknownQualifierFailsIff` | packages/authz/src/cell.ts:33-38 | an unknown qualifier fails unless the mark ignores qualifiers (`!`, and `create` in a row with that subset) |
| `Cells.IgnoredQualifier` | packages/authz/src/cell.ts:33-38 | the cell `! limitd` of payment instruments allows the permission in full although `limitd` is unknown |
| `Roles.BuildRole` | packages/authz/src/roles.ts:46-73 | the sets and maps of a role are what its cells add up to, or the error of its first bad row |
| `RoleRules.RoleAllowsIff` | packages/authz/src/roles.ts:46-65 | a role allows what some cell of it allows, asks for step-up where some cell that allows does, and makes grantable what some cell does |
| `RoleRules.RoleFilterIs` | packages/authz/src/roles.ts:59-69 | a filter is that of the last cell with one, where no cell allows the permission without a filter |
| `RoleRules.RoleLimitIs` | packages/authz/src/roles.ts:54-58 | a scope limit is that of the last cell that allows the permission with one |
| `RoleRules.CellsAreRead` | packages/authz/src/roles.ts:46-53 | each cell of a role is the one the matrix has for it in that row, read with the sets of the row |
| `Roles.BuildRoles` | packages/authz/src/roles.ts:43-77 | every role of the matrix is built, two are empty, or some role has the error |
| `Roles.SensitiveAsksForStepUp` | packages/authz/src/roles.ts:54-58 | in every table the matrix compiles to, a sensitive permission a role allows asks for step-up |
| `Roles.FilteredIff` | packages/authz/src/roles.ts:67-69 | an allowed permission keeps a row filter if and only if every cell that allows it has one |
| `Roles.StepUpIsAllowed` | packages/authz/src/roles.ts:54-65 | step-up and scope limits are only on allowed permissions, filters only on allowed or grantable ones |
| `Evaluate.Evaluate` | packages/authz/src/evaluate.ts:70-110 | the loop with its early return gives the verdict |
| `Evaluate.AllowedIff` | packages/authz/src/evaluate.ts:86-105 | access if and only if an unexpired covering grant gives the permission and none denies it |
| `AccessRules.AccessIff` | packages/authz/src/evaluate.ts:49-106 | written out over unexpired grants whose scope is the organization, the target, or a group with the target property: access if and only if one gives the permission by override or by a role without a narrower limit, and none denies it; and the reason of every refusal |
| `AccessRules.StepUpIff` | packages/authz/src/evaluate.ts:100-101 | step-up is asked for if and only if the role of a grant that gives the permission asks for it |
| `AccessRules.RowFilterIs` | packages/authz/src/evaluate.ts:102-109 | access is limited to rows if and only if every grant that gives the permission limits it, and then by the filter of the first |
| `AccessRules.GrantsElsewhereGiveNothing` | packages/authz/src/evaluate.ts:52-60 | grants on other properties, on groups without the property and in other organizations never give anything on a property |
| `Evaluate.OnlyTheSetMatters` | packages/authz/src/evaluate.ts:86-109 | order and repetition of grants change neither verdict, reason, step-up nor the presence of a filter |
| `Evaluate.MoreGrantsNeverNarrow` | packages/authz/src/evaluate.ts:86-109 | one more grant without a denial never takes access away nor filters what was unfiltered |
| `Evaluate.DenyWins` | packages/authz/src/evaluate.ts:90-92 | a denial of a live grant decides |
| `Evaluate.SensitiveOnlyByOverride` | packages/authz/src/evaluate.ts:93-102 | with compiled roles a sensitive permission without step-up comes only from overrides of grants |

## Left out

- Repositories, SQL, row-level security, HTTP calls, queues, mails and pages: the tables they keep are plain values or fields here.
- Mapping: the reasons attached to suggestions, `validateMappings`, `coverageWarnings`, and how `nameSimilarity` scores names; scores are arbitrary reals, so floating-point ties are not modelled.
- CanonicalJson: numbers other than integers below 10^21, dates and other objects with `toJSON`.
- AuditChain: that SHA-256 has no collisions; the theorems ask for none among the texts compared.
- BookingEngine: OTA bookings, blocks, out-of-order rooms and changes of the room count; rates, restrictions, party size and promo codes are one input of a step; payment is one too, and the phases of a confirmation come apart only in the late finalize and in `Confirmations`; folio lines, mails and tokens.
- BookingEngine: holds of more than one room, which the booking engine never makes; `BookingDesk.ActiveHoldsByDate` adds up any number of rooms.
- BookingEngine: two requests interleaving inside one transaction; a step is atomic.
- BookingWorker: modifications of a booking, whose nights an event also touches; an event delivered twice, which the source recognises and skips.
- Confirmations: the other tables of a confirmation, which `BookingEngine` has; here it is the row of one hold and the confirmations of it.
- HoldPricing: floating-point products beyond 2^53.
- ConnectionQueue: the idle timer, which a release arms even when a waiter is queued, and with it the end of a connection that is still in use; errors of the connection itself.
- StatementPdf: which lines are set in Courier is a parameter; files of ten billion bytes and more, whose offsets have eleven digits, are read back by none of the theorems.
- Csv: numbers other than integers below 10^21; column names and the description, which are written as they are; carriage returns, which are not quoted.
- Payments: the calendar behind day numbers, the currency, the default rule; the collation is assumed to be a total order of distinct ids.
- Money: amounts and ratios beyond 2^53, where products are rounded.
- Horizon: the loop over organisations and plans, the seeding of availability and the push that follows; time zones (today is an input).
- Lockout: unknown addresses, the second factor and its challenge links; two attempts read and written at the same instant; locks so long that the instant overflows.
- Sessions: step-up and sign-up; random tokens are assumed new.
- RevisionFeed: the payload of revisions, the other operations of the fake provider and its injected call faults.
- Ingest: how a revision changes the projected booking (whether it is newer is an input), faults of the feed call, which end a run early, and the sweep that acknowledges again later; pages have ten revisions as in the fake provider.
- Webhooks: a sink that throws, which would lose the rest of the batch.
- PushResults: the texts of warnings and task identifiers.
- Paging: a server whose list changes between two pages.
- CalendarUndo: derived plans, whose cells are recomputed after an edit; bulk edits; pushes; that cells of a plan outside the property are refused is modelled, its query is not.
- Kpis: the other figures of the module (length of stay, medians, pickup, pace, forecast, comparison), which add nothing harder; halves that floating-point division moves.
- Cells: labels and filter names found on the prototype of a plain object, such as `constructor`.
- Roles: custom roles stored by members; the matrix text itself and its parser.
- Evaluate: expiry as text instead of an instant; which of several filters is named when they differ is the first one's, as in the code.
