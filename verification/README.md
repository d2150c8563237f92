# SettleTrace, modelled and verified

SettleTrace reconciles captured payments with settlement lines and ledger lines. It ingests webhooks and files, matches
in tiers, logs exceptions, keeps a hash-chained audit log, serves exceptions page by page and asks a language model for
explanations behind a budget and a circuit breaker. This project models the parts whose correctness is decided by the
code and proves what they promise, for all inputs, all interleavings and all runs. `dafny verify dfyconfig.toml` checks
everything.

| file | models |
|---|---|
| `EditDistance.dfy` | the two-row edit-distance loop, its recursive meaning, edit scripts, the strings it is right for |
| `Recon.dfy` | domain types, the three deterministic tiers, the classifiers |
| `Tables.dfy` | the engine's tables, the candidate queries, what their time windows leave out |
| `Engine.dfy` | one run as the sequence of rows it writes; what complete and broken-off runs leave behind |
| `RunEffect.dfy` | what a complete run leaves in the tables, record by record, in terms of the stored rows |
| `MatchingRun.dfy` | the engine's loops and writers, the report, a store whose writes start to fail |
| `History.dfy` | whole histories: serialised runs, write by write, with ingestion and resolution in between |
| `AuditChain.dfy` | the hash chain, its storage round trip, concurrent writers |
| `IngestStore.dfy`, `Ingestion.dfy` | the in-process store and its transaction; cache, pipeline, queue |
| `Budget.dfy`, `Breaker.dfy`, `AiLayer.dfy` | the spend cap, the circuit breaker, their two clients |
| `Locker.dfy` | the Redis window lock |
| `Paging.dfy` | keyset pagination over a changing table |
| `Luhn.dfy` | card-number screening |
| `Remote.dfy` | what a caller can see of a remote write: acknowledged, failed, or effective and reported as failed |
| `Sequences.dfy` | filtering, mapping, uniqueness and sorting over sequences |

Times are integers (nanoseconds), money is an integer in paise, SQL queries are functions over sequences of rows with the
predicates and order of the SQL text. Failing writes, lost messages, cache evictions, the ranker and the model's answers
are parameters or steps that the theorems quantify over. Hash, keyed hash, JSON, time format, hexadecimal and parsing are
function-valued parameters; what is assumed of them is a named predicate (`Sound`, `Stable`, `Typed`, `ParsesTo`).

Code that changes state is a class whose methods are proved against functions of the old state; the theorems are about
those functions. Protocols are state machines with one step per remote operation.

## Where the code does less than it says

Each of these is proved, with the condition under which the code is right.

- The edit-distance loop indexes its rows with byte offsets. Against every single-byte left string it is right for exactly
  the single-byte right strings (`LoopExactIff`), to every single-byte right string for exactly the left strings with no
  multi-byte rune before the last (`LoopExactLeftIff`). So a settlement line keeps the payments it settles within four
  edits of each other exactly when the line's normalised identifier is single-byte (`LineSharingIff`); every other line
  settles payments that are far apart (`SharedLineFarApart`).
- The day-distance test negates a saturated duration; payments and lines more than 292 years apart can count as close.
  `WithinDaysExact`, `LedgerLineIsLoaded` and `LedgerWindowIff` say exactly when that shows, `OverflowBreaksLedgerWindow`
  that it does.
- The ledger side is not guarded against repetition: a run adds an outcome to a ledger line exactly when the line is
  unmatched in its range, so re-running a window logs each open ledger exception again (`LedgerLineLoggedAgain`), while
  payments stay quiet (`RepeatedRunIsQuiet`, `RerunIsQuiet`).
- The reasons NO_CANDIDATE and AMOUNT_MISMATCH depend on the query window (`ReasonAgreesIff`, `ReasonDependsOnWindow`), and
  the evidence of a ledger mismatch on the row order (`LedgerEvidenceIff`).
- The memory store's comment says an injected fault resets; it does not (`FaultNeverClears`, `TxCommitsOrNothing`).
- A raw event that lands in a call in which no audit entry does, because the commit goes unanswered or the audit write
  fails, is never audited, however often it is redelivered; there are no other gaps (`GapsAreLosses`, `GapNeverCloses`).
- Settlement lines that differ only in line type share an idempotency key; the second is dropped as a duplicate
  (`SecondLineTypeIsDropped`; `RowArrivesIff` for all records).
- With another file in between, redelivery converges exactly when what the two files leave, each delivered alone, agrees
  wherever both leave an entry (`OvertakenConvergesIff`, `FileOrderIff`; `LandOrderIff` for two single records).
- A call refused by the open breaker keeps its budget reservation (`Explain`, field `idle`): a charge for an explanation
  that is never produced, which the comment in internal/ai/budget.go rules out for a call refused by the budget. A call that fits beside every accepted one is turned away
  exactly when the pending charges, rollbacks under way included, take up the difference (`TurnedAwayIff`,
  `SpuriousRejection`).
- The half-open trial of the breaker is not exclusive: the bound for sequential calls holds of all runs with at most w calls
  under way exactly when w is one (`SequentialBoundIff`); `RateBound` is the bound for any w.
- Nothing but the lock keeps two runs apart, and the default is no lock. Overlapping runs give a payment two outcomes exactly
  when the second loads it while the first still has its outcome to write (`OverlappingRunsIff`, `SimultaneousRunsIff`).
- The lock's release is GET then DEL. It deletes another client's live lock exactly when a key is live and since the GET its
  own key expired or somebody's DEL ran (`ReleaseDeletesForeignLockIff`); the second can happen to a release that is on time
  (`OnTimeReleaseDeletesForeignLock`). Two clients are within their ttl only if somebody deleted in between
  (`HolderOwnsKeyIff`, `TwoHoldersNeedDelete`, `LateDeleteAdmitsTwo`).
- On a changing table the last page can be empty: exactly when no row is listed under its cursor any more (`EmptyPageIff`,
  `EmptyLastPage`). On a static one it never is (`StaticPagesAreNotEmpty`).
- The comment on card-number screening speaks of any run of 13 to 19 digits; longer runs are checked in pieces of 19
  (`RejectsIff`, `LongRunAccepted`).

## Model

| member | source | states |
|---|---|---|
| `EditDistance.Metric` | internal/recon/matcher.go:113-131 | The edit distance is zero exactly on equal strings, symmetric, and satisfies the triangle inequality |
| `EditDistance.DTriangle` | internal/recon/matcher.go:118-126 | The triangle inequality for all prefixes of any three strings |
| `EditDistance.DistanceIsShortestScript` | internal/recon/matcher.go:113-131 | Some script of insertions, deletions and replacements of exactly that length rewrites one string into the other, and no shorter one does |
| `EditDistance.ScriptLowerBound` | internal/recon/matcher.go:113-131 | Any edit script between two strings is at least as long as their distance |
| `EditDistance.ShortestScript` | internal/recon/matcher.go:118-126 | Returns a script of exactly that length for any two prefixes, whatever text follows them |
| `EditDistance.NextRow` | internal/recon/matcher.go:119-128 | The inner loop fills a fresh row to the row specified by the recurrence, at byte offsets |
| `EditDistance.Levenshtein` | internal/recon/matcher.go:113-131 | On single-byte strings the two-row loop returns the edit distance; on any strings, the specified byte-offset value |
| `EditDistance.LoopIsDistance` | internal/recon/matcher.go:113-131 | The byte-offset value is the recursive edit distance for all single-byte strings |
| `EditDistance.LoopExactIff` | internal/recon/matcher.go:113-131 | The loop is the edit distance against every single-byte left string if and only if the right string is single-byte |
| `EditDistance.LoopExactLeftIff` | internal/recon/matcher.go:113-131 | The loop is the edit distance to every single-byte right string if and only if no rune of the left string before the last is multi-byte |
| `EditDistance.WrongPastMultiByte` | internal/recon/matcher.go:122-126 | Past a multi-byte rune of the right string the result is bounded by the number of runes after it, whatever the left string |
| `EditDistance.MultiByteEndMatchesAnything` | internal/recon/matcher.go:122-130 | A right string ending in a multi-byte rune is at loop distance zero or less from every non-empty string |
| `EditDistance.LoopAtLeastDistance` | internal/recon/matcher.go:113-131 | Against a single-byte right string the loop never falls below the edit distance, whatever the left string |
| `EditDistance.SameTailMatches` | internal/recon/matcher.go:118-126 | A right string with a multi-byte rune is at loop distance zero or less from everything that ends like it behind its last such rune |
| `EditDistance.CloseToSameIff` | internal/recon/matcher.go:113-131 | Any two strings within loop distance 2 of the same right string are within 4 edits of each other if and only if that string is single-byte |
| `EditDistance.LoopOnEqual` | internal/recon/matcher.go:113-131 | Equal strings, multi-byte or not, are at loop distance zero or less |
| `EditDistance.WidthIsEncodedLength` | internal/recon/matcher.go:118-126 | The step of a byte offset is the length of the rune's UTF-8 encoding |
| `Recon.Tier1TryMatch` | internal/recon/matcher.go:12-27 | Matches if and only if exactly one candidate has the payment's id, net amount and window, and then that one |
| `Recon.Tier2TryMatch` | internal/recon/matcher.go:33-47 | Matches if and only if exactly one candidate has the net amount, the window and an id within distance 2, and then that one |
| `Recon.TierLTryExactMatch` | internal/recon/matcher.go:53-64 | Matches if and only if exactly one payment has the ledger line's reference and gross amount within three days, and then that one |
| `Recon.TierLClassify` | internal/recon/matcher.go:67-74 | The reason is a mismatch if and only if some payment with the reference is within three days; the evidence names the first such payment |
| `Recon.ClassifyPayment` | internal/recon/matcher.go:77-91 | Ambiguous exactly when two candidates fit amount and window, with the number that do; no candidate exactly when none was offered |
| `Recon.WithinDaysExact` | internal/recon/matcher.go:99-105 | The saturating test accepts exactly the times that many days apart, plus left times earlier by the whole duration range |
| `Recon.NormalizeIff` | internal/recon/matcher.go:107-110 | Two identifiers have the same normal form if and only if, without '-', '_' and ' ', they differ only in letter case |
| `Recon.Tier2IgnoresFormatting` | internal/recon/matcher.go:33-47 | Payments whose identifiers differ only in letter case and separators get the same line from Tier 2 |
| `Recon.FormattingIsIgnored` | internal/recon/matcher.go:33-47 | A line that fits amount and window and whose id differs from the payment's only in letter case and separators passes Tier 2 |
| `Recon.LineTests` | internal/recon/matcher.go:12-47 | The tests of both tiers spelled out: credit, fee and tax make up the amount, and settlement lies from capture to the end of the SLA |
| `Recon.ExactIsBounded` | internal/recon/matcher.go:12-47 | Every candidate Tier 1 accepts is acceptable to Tier 2, for any identifiers |
| `Recon.Tier2AfterTier1` | internal/recon/matcher.go:12-47 | A Tier 2 match after a Tier 1 refusal means no exact candidate was offered at all |
| `Recon.PaymentOrderIndependent` | internal/recon/matcher.go:12-91 | Permuting the candidates changes neither match nor exception of a payment |
| `Recon.LedgerOrderIndependent` | internal/recon/matcher.go:53-74 | Permuting the payments changes neither the ledger match nor reason and amount of the exception |
| `Recon.LedgerEvidenceIff` | internal/recon/matcher.go:67-74 | Every order of the payments gives the same ledger exception if and only if all payments it refers to agree on id and amount |
| `Recon.SharedLineIsClose` | internal/recon/matcher.go:12-47 | Two payments matched to one line by Tier 1 or 2 have equal net amounts and captures no further apart than the larger SLA, and, if the line's normalised id is single-byte, normalised ids within distance 4, whatever their own ids |
| `Recon.FarIdentifiersNeverShare` | internal/recon/matcher.go:12-47 | If all normalised ids are pairwise more than 4 apart a line assigned twice has a multi-byte normalised id |
| `Recon.SharedLineFarApart` | internal/recon/matcher.go:33-47 | Every line with a multi-byte normalised id settles two payments with ids more than 4 apart |
| `Recon.LineSharingIff` | internal/recon/matcher.go:12-47 | All payments a line settles, with any candidates, are within distance 4 of each other if and only if its normalised id is single-byte |
| `Recon.WideIdentifierCanBeSafe` | internal/recon/matcher.go:108-110 | A multi-byte id whose normalised form is single-byte |
| `Tables.SettlementWindow` | internal/matcher/dispatcher.go:81-102 | Tier 1, Tier 2 and the ambiguous verdict on lines settled in [start, end + sla) equal those on all lines of the method |
| `Tables.ReasonAgreesIff` | internal/recon/matcher.go:77-91 | The reason on the loaded lines is that on all lines of the method if and only if two loaded lines fit amount and window or the window holds a line whenever the table does |
| `Tables.ReasonDependsOnWindow` | internal/recon/matcher.go:77-91 | A table in which the two reasons differ |
| `Tables.SettlementDays` | internal/matcher/dispatcher.go:16-35 | Four days for cards, three for netbanking, two for wallets, one for UPI, five for anything else |
| `Tables.PaymentsReturned` | internal/store/mysql.go:201-252 | The queries return exactly the payments captured in the range, the first only those without match row and open exception, by capture time |
| `Tables.CandidatesReturned` | internal/store/mysql.go:255-276 | Returns exactly the lines of the method settled in the range, by settlement time |
| `Tables.LedgersReturned` | internal/store/mysql.go:282-303 | Returns exactly the ledger lines without a payment booked in the range, by booking time |
| `Tables.LedgerLineIsLoaded` | internal/matcher/dispatcher.go:142-166 | A ledger line that passes the three-day test with a loaded payment is loaded unless their difference saturates; in any window shorter than the duration range, if and only if it does not |
| `Tables.LedgerWindowIff` | internal/matcher/dispatcher.go:142-182 | For any ledger line, exactly when Tier L on the loaded payments equals Tier L on the whole table, and when the two reasons agree, in terms of the payments outside the window that pass its test |
| `Tables.StrayIsSaturated` | internal/recon/matcher.go:99-105 | For a line booked in [start, end) a payment outside the window passes the day test if and only if their difference saturates |
| `Tables.LedgerWindow` | internal/matcher/dispatcher.go:142-182 | For lines booked in [start, end), Tier L and its classifier on the loaded payments equal those on the whole table, or some captured payment is late enough to saturate the difference |
| `Tables.LedgerWindowIsTight` | internal/matcher/dispatcher.go:142-182 | For every other booking time the query loads, a table in which the loaded line is called an orphan although its one payment exists |
| `Tables.OverflowBreaksLedgerWindow` | internal/recon/matcher.go:99-105 | For every booking time in the range and every capture past the saturation point, a table in which the two verdicts differ |
| `Engine.OutcomesAfter` | internal/store/mysql.go:306-337 | Writes add exactly as many outcomes to a record as there are match and exception rows for it among them |
| `Engine.PointerIsFinal` | internal/store/mysql.go:394-404 | Once a ledger line points at a payment no write of any run changes it |
| `Engine.PlanTouches` | internal/matcher/dispatcher.go:75-182 | A complete run writes one outcome per visited row of a record and none for any other |
| `Engine.VisitedOnce` | internal/store/mysql.go:201-213 | A run visits each payment at most once, only without an outcome, and always if captured in the window without one |
| `Engine.RunKeepsConsistent` | internal/matcher/dispatcher.go:61-109 | A run stopped after any number of writes leaves every payment at most one of match row and open exception, and every ledger pointer backed by a match row |
| `Engine.CompleteRunDecides` | internal/matcher/dispatcher.go:75-109 | After a complete run every payment captured in [start, end) has exactly one outcome |
| `Engine.RepeatedRunIsQuiet` | internal/store/mysql.go:201-213 | Repeating a complete run writes no payment row |
| `Engine.LedgerLineLoggedAgain` | internal/matcher/dispatcher.go:150-182 | A complete run adds one outcome to a ledger line if and only if it is unmatched and booked in the run's range |
| `Engine.RunsAgree` | internal/matcher/dispatcher.go:80-140 | Two complete runs from equal tables, with any rankers, row orders and map orders, write the same rows up to reason and evidence of payment exceptions and evidence of ledger exceptions |
| `Engine.VisitOrderWritesSameRows` | internal/matcher/dispatcher.go:80-182 | Whatever the ranker, the multiset of rows both sides write does not depend on the order of payments, ledger lines and map keys |
| `Engine.CandidateOrderIff` | internal/matcher/dispatcher.go:75-140 | Another order of the candidates leaves the rows of the settlement side unchanged if and only if the ranker shows the same for every visited payment that is not matched |
| `Engine.RankerOnlyRelabels` | internal/matcher/dispatcher.go:117-140 | A ranker never changes record or amount of an exception, and changes its reason, from mismatch to ambiguous, if and only if it ranks candidates of which fewer than two fit amount and window |
| `Engine.RunMatchesLikeWholeTable` | internal/matcher/dispatcher.go:81-102 | What a run writes for a payment is the match against every line of its method, or an exception if there is none |
| `Engine.RunBooksLikeWholeTable` | internal/matcher/dispatcher.go:142-182 | What a run decides for a ledger line booked in [start, end) is what Tier L over every captured payment gives, unless the time difference saturates |
| `RunEffect.PaymentAfterRun` | internal/matcher/dispatcher.go:75-140 | What a complete run leaves about every payment: for one captured in the window without outcome an exact match row if exactly one candidate has its id, makes up its amount and settles in time, else a bounded one if exactly one nearly does, else an open exception, each with its audit entry; for any other nothing new |
| `RunEffect.LoggedException` | internal/recon/matcher.go:77-91 | Reason, amount at risk and evidence of that exception, with and without a ranking |
| `RunEffect.LedgerAfterRun` | internal/matcher/dispatcher.go:150-182 | What a complete run leaves about every ledger line: for an unmatched one in range, if exactly one loaded payment has its reference and amount within three days, the line points at that payment and has a match row and audit entry, else an open exception that names the first payment it refers to or calls it an orphan; for any other nothing new |
| `RunEffect.MatchedLineIsNotLoaded` | internal/store/mysql.go:282-303 | A line a run loads points at no payment, so matched lines are not loaded again |
| `MatchingRun.SumCounts` | internal/matcher/report.go:35-50 | The loop over a counter map sums all counters, in any iteration order |
| `MatchingRun.TotalBumped` | internal/matcher/report.go:24-32 | Counting one more raises the total by one, for new and known keys |
| `MatchingRun.Report.RecordMatched` | internal/matcher/report.go:24-27 | One match counter and the total grow by one, the exception counters stay |
| `MatchingRun.Report.RecordException` | internal/matcher/report.go:29-32 | One exception counter and the total grow by one, the match counters stay |
| `MatchingRun.GroupByMethod` | internal/matcher/dispatcher.go:334-340 | Each group is the loaded rows of that method in order, and every method present has a group |
| `MatchingRun.GroupsPartition` | internal/matcher/dispatcher.go:80-108 | Visiting the groups in any order visits every loaded row as often as it was loaded |
| `MatchingRun.MatchingEngine.RecordPaymentMatch` | internal/matcher/dispatcher.go:185-214 | Performs a prefix of match row and audit entry, all of it on success, the failing write effective or not, and counts only then |
| `MatchingRun.MatchingEngine.RecordLedgerMatch` | internal/matcher/dispatcher.go:218-254 | Performs a prefix of match row, ledger pointer and audit entry, all of it on success, the failing write effective or not, and counts only then |
| `MatchingRun.MatchingEngine.RecordException` | internal/matcher/dispatcher.go:257-280 | Performs a prefix of exception row and audit entry, all of it on success, the failing write effective or not, and counts only then |
| `MatchingRun.MatchingEngine.SettleOne` | internal/matcher/dispatcher.go:85-106 | Performs a prefix of the one decision planned for the payment and counts it |
| `MatchingRun.MatchingEngine.BookOne` | internal/matcher/dispatcher.go:167-180 | Performs a prefix of the one decision planned for the ledger line and counts it |
| `MatchingRun.MatchingEngine.RunSettlementSide` | internal/matcher/dispatcher.go:75-109 | In some order of all loaded payments, performs a prefix of their planned writes; all of them on success |
| `MatchingRun.MatchingEngine.RunLedgerSide` | internal/matcher/dispatcher.go:150-182 | Performs a prefix of the planned writes of all loaded ledger lines; all of them on success |
| `MatchingRun.MatchingEngine.RunWindow` | internal/matcher/dispatcher.go:61-70 | Performs a prefix of the plan for its loads, all of it on success, keeps the outcome invariant either way, also when the failing write took effect; on success every payment captured in the window has exactly one outcome, the report's counters equal the match rows by confidence and the exception rows by reason, and their sum the audit entries |
| `History.StepKeepsOk` | internal/matcher/dispatcher.go:61-280 | Loading, deciding, writing one row, failing, finishing, ingesting and resolving each keep the invariant that a payment has, is owed or is queued for at most one outcome |
| `History.HistoryIsConsistent` | internal/matcher/dispatcher.go:61-280 | At every point of every history of serialised runs every payment has at most one of match row and open exception |
| `History.FinishedRunDecides` | internal/matcher/dispatcher.go:75-109 | A run that finishes in a history, with any ingestion and any resolution that does not close this payment's exception between its writes, leaves every payment captured in its window when it began with exactly one outcome |
| `History.RerunIsQuiet` | internal/store/mysql.go:201-213 | Beginning the same run again in a history, with no payment ingested and no exception of a payment closed, finds no payment to visit |
| `History.DecisionMatchesTable` | internal/matcher/dispatcher.go:81-109 | In a history with nothing ingested since the run began a payment is decided as matching against every line of its method says |
| `History.LedgerDecisionMatchesTable` | internal/matcher/dispatcher.go:150-182 | Likewise a ledger line booked in [start, end), against every captured payment, unless the time difference saturates |
| `History.ResolutionReopens` | internal/store/mysql.go:201-213 | Resolving an open exception takes away one outcome of its record |
| `History.OverlappingRunsIff` | cmd/matching-engine/main.go:53-65 | For any two windows, any moment at which the second run loads and any interleaving of their writes, a payment has at most one outcome if and only if the first had none to write for it any more or the second did not load it |
| `History.SimultaneousRunsIff` | cmd/matching-engine/main.go:53-65 | Two runs that load from the same tables leave a payment at most one outcome if and only if not both load it |
| `AuditChain.Verify` | internal/audit/hash.go:34-50 | Returns -1 if and only if every entry is sealed and names its predecessor; otherwise the index that ends the longest valid prefix |
| `AuditChain.EncodeInjective` | internal/audit/hash.go:22-31 | The joined encoding determines its four parts when hash, event type and time hold no separator |
| `AuditChain.ChainBinding` | internal/audit/hash.go:22-50 | Two accepted chains with the same last hash have equal length and equal contents row by row, or, at the position returned, a row of each sealed with one hash over two different inputs, everything after them agreeing |
| `AuditChain.TamperingNeedsCollision` | internal/audit/hash.go:34-50 | A chain of another length, or differing in row i, that still ends in the remembered hash has such a colliding pair, in chains of equal length at row i or later |
| `AuditChain.TimestampRoundTrip` | internal/store/mysql.go:341-392 | The truncated time survives storage; an untruncated one does if and only if it is a whole microsecond |
| `AuditChain.SealedRowExtends` | internal/store/mysql.go:341-392 | A row sealed against the current last hash extends a log that reloads into an accepted chain to another such log |
| `AuditChain.GoodLogIsUnforked` | internal/audit/hash.go:34-50 | No two rows of such a log share a predecessor |
| `AuditChain.UnlockedWritersFork` | internal/store/mysql.go:341-392 | Two rows sealed against the same last hash make a log that is not accepted |
| `AuditChain.UntruncatedSealFails` | internal/store/mysql.go:341-392 | Sealing a time that is not a whole microsecond gives a different hash after reload, or a collision |
| `AuditChain.SealedRowRecords` | internal/store/mysql.go:341-392 | The row inserted reloads to a sealed entry with the request's event type, its time cut to the microsecond, a payload that marshals like the decoded one, and the hash read before |
| `AuditChain.AuditLog.WriteAuditEntry` | internal/store/mysql.go:341-392 | Appends a row that records the request, or on undecodable payload, repeated hash or failing commit changes nothing; reports success only when acknowledged; keeps the log reloadable and accepted |
| `AuditChain.AuditLog.LoadAuditEntries` | internal/store/audit_mysql.go:27-59 | All rows in order, or an error exactly when some payload does not decode |
| `AuditChain.StepKeepsDbOk` | internal/store/mysql.go:341-392 | Every step of any number of concurrent writers keeps the committed log good and every pending row fitting it |
| `AuditChain.InterleavedWritersKeepChain` | internal/store/mysql.go:341-392 | In every interleaving of reads, inserts, commits and rollbacks the committed log reloads into one chain that Verify accepts |
| `IngestStore.MemoryStore.InsertRawEvent` | internal/store/memory.go:62-75 | Inserts under a new key; a taken key or a fault leaves the table as it was |
| `IngestStore.MemoryStore.InsertNormalized` | internal/store/memory.go:78-132 | The row goes to its own table unless its identity is taken; other tables and earlier rows stay |
| `IngestStore.MemoryStore.InTx` | internal/store/memory.go:41-59 | All effects of the transaction or none, the write counter included |
| `IngestStore.TxCommitsOrNothing` | internal/store/memory.go:41-59 | A transaction commits if and only if the key is new, there is a row and two writes are left; otherwise the store is unchanged |
| `IngestStore.FaultNeverClears` | internal/store/memory.go:32-59 | Over any sequence of transactions a set fault allows at most half its count of records, and once fewer than two writes are left nothing ever changes |
| `IngestStore.LandKeepsPaired` | internal/ingestion/pipeline.go:101-114 | Committing a record keeps every raw event with a row of its identity and every row with a raw event |
| `IngestStore.SettlementKeyIdentifies` | internal/store/memory.go:92-104 | The joined key tells settlement, entity and line type apart when the ids hold no separator |
| `Ingestion.Pipeline.PersistRecord` | internal/ingestion/pipeline.go:96-127 | New tables, audit trail, cache and verdict are those specified, for every behaviour of the cache and for a commit and an audit write that work, fail or take effect and are reported as failed |
| `Ingestion.Pipeline.Process` | internal/ingestion/pipeline.go:56-93 | State and result are those of a pass that stops at the first failing record; a bad signature or payload changes nothing |
| `Ingestion.Pipeline.ProcessQueue` | internal/ingestion/worker.go:47-79 | State, deleted messages and outcome are those of the specified batch, for every failure of the object store and a delete that works, fails or takes effect and is reported as failed |
| `Ingestion.PersistKeeps` | internal/ingestion/pipeline.go:96-127 | Whatever fails, committed events stay, only committed keys are cached, and only a committed key is reported applied or duplicate |
| `Ingestion.PassCounts` | internal/ingestion/pipeline.go:76-88 | Over a file that is worked off the applied count is the number of keys added and the rest are duplicates |
| `Ingestion.AnswerMeans` | internal/ingestion/pipeline.go:56-93 | Rejected if and only if not admitted or a record fails; duplicate if and only if worked off, not empty and no key added; otherwise applied with the number of keys added |
| `Ingestion.AdmittedIff` | internal/ingestion/pipeline.go:63-75 | Admitted if and only if it parses and, from a webhook, carries the keyed hash of its body under a secret that is set |
| `Ingestion.ForgeryIsInert` | internal/ingestion/pipeline.go:63-71 | A webhook whose signature is not the keyed hash of its body is rejected and changes nothing |
| `Ingestion.MessageBody` | internal/ingestion/worker.go:52-71 | A message without a body is processed with the object it names, any other with its own body |
| `Ingestion.MarkedKeyIsAnswered` | internal/ingestion/pipeline.go:97-100 | A marked key is answered as a duplicate from the cache without asking the store |
| `Ingestion.DeletedIffAnswered` | internal/ingestion/worker.go:64-78 | An answered message is deleted if and only if its delete takes effect, and the batch goes on if and only if it is acknowledged or the message was rejected |
| `Ingestion.KeyIdentifies` | internal/ingestion/idempotency.go:11-13 | The idempotency key tells source, external id and event type apart |
| `Ingestion.DeletedOnlyAfterCommit` | internal/ingestion/worker.go:47-79 | A message is deleted only if it was admitted and all its record keys are committed, whatever fails in the batch |
| `Ingestion.DeletedIffAdmitted` | internal/ingestion/worker.go:47-79 | When nothing fails exactly the admitted messages are deleted |
| `Ingestion.CallsAgree` | internal/ingestion/cache.go:17-85 | Two fault-free call sequences that differ in cache contents, cache behaviour and clock give the same statuses, tables and audit entries |
| `Ingestion.CacheIsTransparent` | internal/ingestion/cache.go:33-85 | Evictions, outages and lost marks change no status, table or audit entry compared with no cache, and only committed keys are cached |
| `Ingestion.LandedTwice` | internal/ingestion/pipeline.go:76-93 | Landing two prefixes of a file one after the other is landing the longer one |
| `Ingestion.PassLands` | internal/ingestion/pipeline.go:76-127 | Whatever fails, the tables after a pass are those of some prefix of the file |
| `Ingestion.RedeliveryConverges` | internal/ingestion/pipeline.go:76-127 | However often a file failed at whatever record or write, one more fault-free delivery reaches the tables of a single fault-free pass |
| `Ingestion.LandOrderIff` | internal/store/memory.go:62-132 | Two records reach the same tables in either order if and only if they do not compete for a key or for the row of one identity |
| `Ingestion.FileOrderIff` | internal/ingestion/pipeline.go:76-127 | Two files reach the same tables in either order if and only if what they leave, each delivered alone, agrees wherever both leave an entry |
| `Ingestion.OvertakenConvergesIff` | internal/ingestion/pipeline.go:76-127 | A file cut off by any faults and overtaken by another reaches the tables of the undisturbed order if and only if the whole first file and the other on top of the part that landed agree wherever both leave an entry |
| `Ingestion.EventsAndRowsStayPaired` | internal/ingestion/pipeline.go:101-114 | Over every sequence of calls with any failures, each raw event has a row of its identity, each row a raw event, and events never change |
| `Ingestion.RowArrivesIff` | internal/store/memory.go:62-132 | After a fault-free delivery the row's identity is present if and only if the key was new or it was present before; its content if and only if it was first; a new key's raw event holds exactly the record and the time |
| `Ingestion.SecondLineTypeIsDropped` | internal/ingestion/parse.go:178-184 | Of two settlement lines differing in line type the second is reported duplicate and its identity stays absent |
| `Ingestion.GapsAreLosses` | internal/ingestion/pipeline.go:101-125 | After a pass the events without audit entry are those before it plus exactly the one that landed in a call in which no audit entry did |
| `Ingestion.GapNeverCloses` | internal/ingestion/pipeline.go:119-155 | No later call, redelivery included, gives such an event an audit entry |
| `Budget.StepKeepsOk` | internal/ai/budget.go:71-97 | Every Redis operation of every call keeps the counter equal to the outstanding charges and the granted costs within the cap |
| `Budget.AcceptedWithinCap` | internal/ai/budget.go:71-97 | In every interleaving, lost rollbacks included, the accepted costs and those of the calls made never exceed the cap |
| `Budget.QuietCounter` | internal/ai/budget.go:71-97 | With no call in flight the counter is the accepted costs plus those of lost rollbacks and failed-but-applied increments |
| `Budget.ModelCallsWithinCap` | internal/ai/explainer.go:114-137 | Model calls made times their estimated cost stay within the cap |
| `Budget.TurnedAwayIff` | internal/ai/budget.go:71-97 | In every interleaving a call is turned away if and only if at its increment accepted, pending and own cost exceed the cap; one that fits beside the accepted ones if and only if the pending costs take up the difference |
| `Budget.SpuriousRejection` | internal/ai/budget.go:85-95 | An interleaving in which that happens |
| `Budget.BudgetTracker.CheckAndReserve` | internal/ai/budget.go:71-97 | Accepts if and only if counter plus cost is within the cap; the key's counter changes only by a kept reservation, a lost rollback or an increment that took effect and was reported as an error; other keys not at all |
| `Breaker.CircuitBreaker.Allow` | internal/ai/breaker.go:45-55 | Refuses if and only if at least threshold failures were recorded since the last success and the last of them is less than a cooldown ago |
| `Breaker.CircuitBreaker.RecordFailure` | internal/ai/breaker.go:69-79 | Keeps the fields equal to what the whole history of outcomes implies, with one more failure in a row |
| `Breaker.FailsIsStreak` | internal/ai/breaker.go:58-79 | The failure count is the number of failures since the last success, and an open breaker remembers the last of them |
| `Breaker.RateBound` | internal/ai/breaker.go:45-79 | With at most w calls under way at a time, m * w failures in a row past the threshold take at least m cooldowns from the threshold-th on |
| `Breaker.FewUnderWay` | internal/ai/breaker.go:45-79 | Runs in which at most w calls are under way whenever an outcome is recorded are those the bound speaks of |
| `Breaker.SequentialBoundIff` | internal/ai/breaker.go:45-79 | n failures past the threshold take at least n cooldowns, in all runs with at most w calls under way, if and only if w is one |
| `AiLayer.Guarded.Explain` | internal/ai/explainer.go:102-163 | Which outcome occurs exactly when; calls the model only with a reservation and the breaker's consent, offers the log exactly one row on every path past the budget check, lost or not, and records the outcome with the breaker; sequential calls stay sequential |
| `AiLayer.Guarded.Compose` | internal/ai/qa/answer.go:139-198 | Calls the model if and only if budget, breaker and encoding allow it, on the same budget and breaker as Explain; text exactly if called and grounded; an empty answer counts as a failure; a grant not used stays reserved |
| `AiLayer.Guarded.SpentWithinCap` | internal/ai/qa/answer.go:146-178 | Over any mix of both clients the cost of the model calls on a key is within the cap |
| `AiLayer.Guarded.FailuresAreSpaced` | internal/ai/explainer.go:123-157 | Over any sequential mix of both clients n failures past the threshold take at least n cooldowns |
| `Locker.StepKeepsOk` | internal/matcher/locker.go:30-50 | Each lock operation, expiry and crash keeps every client within its ttl the owner of the key |
| `Locker.MutualExclusion` | internal/matcher/locker.go:30-50 | In every interleaving two clients within their ttl are the same client, or some DEL came after its client's ttl |
| `Locker.HolderOwnsKeyIff` | internal/matcher/locker.go:30-50 | In every interleaving a client within its ttl owns the key if and only if nobody has deleted since its SETNX, and another is let in beside it if and only if somebody has and no key is live |
| `Locker.TwoHoldersNeedDelete` | internal/matcher/locker.go:30-50 | Whenever two clients are within their ttl a DEL ran between their SETNX |
| `Locker.ReleaseDeletesForeignLockIff` | internal/matcher/locker.go:38-49 | In every interleaving a release meets another client's live lock at its DEL if and only if a key is live and since its GET its own key expired or some DEL ran |
| `Locker.OnTimeReleaseDeletesForeignLock` | internal/matcher/locker.go:38-49 | An interleaving in which the latter happens to a release whose own key did not expire |
| `Locker.OverrunReleaseIsHarmless` | internal/matcher/locker.go:38-49 | A release begun after the ttl deletes nothing |
| `Locker.LateDeleteAdmitsTwo` | internal/matcher/locker.go:38-49 | An interleaving with a late DEL after which two clients are inside within their ttl |
| `Paging.ListExceptions` | internal/api/server.go:94-150 | A bad request exactly on a malformed cursor, a server error exactly on a store failure, otherwise the page the walk theorems speak of: the one for the request's limit and cursor |
| `Paging.SortedSelection` | internal/store/mysql.go:441-484 | The query result is strictly descending by amount and id and holds exactly the selected rows |
| `Paging.QueryReturnsFirst` | internal/store/mysql.go:441-484 | The query returns the first unresolved rows below the cursor, as many as asked for, 50 if asked for none |
| `Paging.PageHolds` | internal/api/server.go:115-150 | A page is in order, holds only listed rows, and every listed row is on it or below its cursor |
| `Paging.NextIsLower` | internal/api/server.go:145-148 | The next cursor is strictly below the last one and bounded, so every walk ends |
| `Paging.WalkNeverRepeats` | internal/api/server.go:94-150 | Each request sending the cursor of the previous response, over any table changes and limits in between, the rows returned are strictly descending, so none comes twice |
| `Paging.WalkReturnsLiveRows` | internal/store/mysql.go:441-484 | Every row returned was unresolved in the table when its page was read |
| `Paging.WalkIsComplete` | internal/api/server.go:94-150 | A row present and unresolved throughout the walk is returned |
| `Paging.StaticWalkIsSortedList` | internal/store/mysql.go:441-484 | On a static table the pages concatenate to the sorted unresolved list, whatever their sizes |
| `Paging.PagesAreFull` | internal/api/server.go:101-130 | Every page but the last has as many rows as the request's limit if that is from 1 to 200, else 50 |
| `Paging.StaticPagesAreNotEmpty` | internal/api/server.go:115-130 | On a static table a page is empty if and only if it is the first and there is nothing to list |
| `Paging.EmptyPageIff` | internal/api/server.go:115-130 | A page is empty if and only if no row of the table at that moment is listed under its cursor, and is then the last |
| `Paging.EmptyLastPage` | internal/api/server.go:115-130 | A table that changes between two requests so that the last page is empty |
| `Luhn.LuhnValid` | internal/schema/pan.go:41-59 | True if and only if all bytes are digits and the positional sum, every second digit from the right doubled, is a multiple of ten |
| `Luhn.CheckDigitIff` | internal/schema/pan.go:41-59 | For any digits exactly one check digit makes them valid: the one that makes up the sum, last digit doubled first and doubled digits by cross sum, to a multiple of ten |
| `Luhn.OneDigitChanged` | internal/schema/pan.go:41-59 | Replacing one byte of a valid string keeps it valid if and only if nothing changed |
| `Luhn.NeighboursSwapped` | internal/schema/pan.go:41-59 | Swapping neighbours of a valid string keeps it valid if and only if they are equal or a nine and a zero |
| `Luhn.StripSeparators` | internal/schema/pan.go:26-38 | Keeps exactly the bytes that are neither space nor hyphen nor white space, in order |
| `Luhn.KeptBytes` | internal/schema/pan.go:26-38 | Which bytes those are |
| `Luhn.RejectPossiblePan` | internal/schema/pan.go:15-23 | Rejects if and only if some digit run found in the stripped payload is valid |
| `Luhn.RejectsIff` | internal/schema/pan.go:12-23 | Rejects if and only if, separators aside, one of the pieces of 13 to 19 digits of its digit runs, cut every 19, is valid |
| `Luhn.RejectsValidRun` | internal/schema/pan.go:15-23 | A valid digit run of 13 to 19 digits is always rejected |
| `Luhn.LongRunAccepted` | internal/schema/pan.go:12-23 | A run of 20 digits whose last 19 are valid and that is accepted |
| `Luhn.SeparatorsDoNotMatter` | internal/schema/pan.go:15-38 | Cutting a payload anywhere and inserting any separators leaves the verdict unchanged |

## Left out

- Generated values: match group ids, row ids and created-at times of match, exception and log rows are not modelled; the agreement theorems hold up to them.
- Integer width: amounts are unbounded, so a 64-bit wrap-around of the net amount is not captured.
- Lock tokens are taken to be distinct; the code draws them from a nanosecond clock.
- Normalisation lowers the ASCII letters and the two other runes that lower to one; the remaining letters stay as they are, which keeps them multi-byte as lowering does. Invalid UTF-8 is not modelled.
- Query errors of the engine: a failing read ends a run like a failing next write, so it adds no reachable table.
- Evidence JSON, payload marshalling, base64 and JSON of the page cursor, SHA-256, HMAC and hexadecimal: library code, taken as parameters or as identity.
- Field-by-field parsing and validation of payloads: parsing is a function from payload to records or a rejection.
- Key expiry and float rounding of the budget counter, and negative costs: money is an exact real and the key outlives the batch.
- InnoDB lock internals: the tail read of the audit log is one exclusive lock, also on an empty log.
- Concurrent transactions on the in-process store: it is single-threaded.
- The MySQL ingest tables share the first-writer-wins semantics of the in-process store; driver errors whose text mentions duplicates are not modelled.
- Moving landing files between directories, queue and object-store adapters, HTTP routes other than the exception list, process wiring, summaries, prompts and the scoring service: input and output around the modelled logic.
- Exception resolution is only an environment step that closes a row.
