# DuckStream: delivery model and proofs

DuckStream turns a registered `SELECT` into an endless stream. It compiles the query to a plan and
then polls `WHERE (w) AND cursor > ? ORDER BY cursor ASC LIMIT ?`, moving its cursor only after a
batch was sent. This project models that loop, the compiler and the REGISTER command in front of it,
the ingest buffer that feeds the tables, and the registry, stream table and wire format around it,
and proves how the incremental loop relates to the one-shot query it stands for.

## How the modules fit together

| modules | what they hold |
|---|---|
| `Rows` | rows, three-valued conditions, filtering, sorted arrangements, the one-shot query |
| `CursorStream`, `Delivery`, `AtLeastOnce`, `ExactlyOnce`, `Drain`, `DrainTies` | one query's stream as a transition system over inserts and polls, and the laws of its runs |
| `Polling`, `Decimal` | what one poll computes and how it refines the transition system |
| `Execution`, `Lifecycle` | the executor object with its row loop, polling loop, `Start`, `Stop` and `GetState`, and the life machine its methods are steps of |
| `Fleet` | many executors over one table, with a poll split into read, send and state update |
| `Text`, `SqlText`, `GroupBy`, `BlankKeywords`, `StreamPlan`, `ParseRoundTrip` | Go's string functions, normalization, keyword search, the parenthesis scan, and clause extraction |
| `Compilation`, `PollingText`, `Meaning` | which statements get a plan, the text a plan sends and how it reads back, and what the polls then deliver |
| `Targets` | what the parser makes of any text after FROM, said on its characters |
| `FrontEndLimits`, `NestedSelects`, `FromSeparators`, `WhereSeparators`, `ShortTexts` | statements the front end accepts, cuts, rejects, misreads or panics on against its documentation, and shared facts on short statements |
| `Repl`, `ReplRoundTrip`, `ReplLanguage` | the REGISTER pattern as a backtracking matcher, its round trip, and its language |
| `Ingest` | the ingest buffer as an object and as an interleaving of critical sections |
| `Registry`, `Sessions`, `SendRace`, `Wire` | the manager, the per-client stream table and fan-out, sends that overlap, framing |
| `EndToEnd` | from the acknowledged rows of a run to the bytes of its stream and the rows a client reads |

A poll's answer is *any* sorted arrangement of the pending rows, so ties come back in any order. A
poll may read fewer rows than LIMIT (an early end of the iteration), individual rows may fail to
scan, the cursor cell may fail to parse, and a failed send may still have reached a client. Each
theorem names the assumptions it needs: unique cursors (`UniqueCursors`), rows becoming visible in
increasing cursor order (`InOrderRun`), every row scanned (`Clean`), every cursor readable
(`Parses`), full reads and successful sends (`Perfect`). Without any of the first three, the ledger
(`LedgerHolds`) still accounts for every matching row the cursor has passed.

## Where the documentation and the code differ

The model follows the code.

- Delivery "exactly once" and "no data loss" (docs/queries.md:30, docs/STARTMODE_INITIALIZATION.md) fail in
  two ways. A send that fails after reaching a client is repeated, without any tie:
  `ExactlyOnce.RowArrivesTwice`, and `ExactlyOnce.ReceivedOnceIff` says exactly when clients have received
  the acknowledged log. Ties at the end of a batch are lost: `Drain.TiedRowIsLost`, with
  `Drain.PollLosesNothingIff` and `DrainTies.DrainLosesNothingIff` saying exactly when a poll and a whole
  drain lose nothing.
- BEGINNING is documented as "stream all historical data" (docs/STARTMODE_INITIALIZATION.md:181) but
  starts above 0: `Drain.DeliversAllIff` says that a drained stream delivers every matching row with a
  cursor iff all those cursors lie above its start.
- The cap on streams is tested and raised in separate steps. When sends of several queries overlap it is
  exceeded (`SendRace.TwoQueriesExceedCap`); `SendRace.CapWithOverlap` gives the bound that does hold
  and `SendRace.BoundIsReached` shows that no smaller one does.
- A TIMESTAMP stream starts at Go's zero time, not at the Unix epoch (internal/query/executor.go:92).
- `FROM BEGINNING` (docs/queries.md:39) is not a clause of the REGISTER pattern; it stays in the SQL
  text: `ReplRoundTrip.FromBeginningStaysInSql`.
- A SQL text ending in `FROM`, other white space than one blank, `NOW` is cut by the pattern but not
  seen by the separate mode test: `ReplRoundTrip.TabbedClauseIsLost`.
- Subqueries are documented as rejected. Nothing before the first ` FROM ` is inspected, and after it only
  the text behind the first `(`: `StreamPlan.SubqueryAgreesIff` says exactly when the scan finds a nested
  SELECT that is there. `NestedSelects.InnerSelectIsPlanned` and `NestedSelects.NestedSelectIsPlanned`
  give statements with a nested SELECT, in the projection and in the WHERE text, that get plans.
- The projection is documented as kept as written. A run of white space inside it cuts off its end
  (`FrontEndLimits.ProjectionLosesItsEnd`), and white space before the statement shifts the cut
  (`FrontEndLimits.LeadingSpaceShiftsProjection`).
- Validation does not mind a FROM in other letters or between other white space than blanks. Parsing goes by
  the first literal ` FROM `, wherever it stands: without a WHERE clause it reports invalid SQL
  (`FromSeparators.SeparatorDecides`); with one it may find ` FROM ` in the WHERE text and read what
  follows as the table (`FromSeparators.SeparatorOrTextDecides`). `FromSeparators.OtherTableIsPlanned` is a
  statement on T that streams C.
- A WHERE that does not stand between two blanks is seen by validation but not by the parser of the filter:
  the statement is accepted, and the plan streams every row (`WhereSeparators.WhereSeparatorDecides`,
  `WhereSeparators.FilterIsLost`).
- The demo client takes each read for a whole frame. A frame that the read cut short is completed with
  bytes left in the buffer by earlier reads: `Wire.ShortReadIsCompleted`.
- `SELECT FROM T` is a run-time panic, not an error: `FrontEndLimits.SelectFromPanics`.
- The parentheses put around the WHERE text hold it together exactly when its own parentheses are
  balanced and never close too early: `PollingText.BuiltReadsBackIff`, with the planned statement
  `FrontEndLimits.EscapingIsPlanned` for which they do not.

## Model

| member | source | states |
|---|---|---|
| `Rows.OrderedUnique` | internal/query/streamplan.go:350-356 | when cursors tell rows apart, ORDER BY has one possible answer |
| `CursorStream.PollAccounts` | internal/query/executor.go:216-231 | of a sorted answer, the rows up to the last scanned cursor are the batch, the failed scans at or below it, and the unread ties, counting duplicates |
| `CursorStream.AcknowledgedRange` | internal/query/executor.go:206-258 | the cursor read back from a batch is its last row's and lies above the old one; the matching rows between the two are exactly batch, failed scans and cut-off ties |
| `CursorStream.LedgerStep` | internal/query/executor.go:206-258 | each step, with any outcome, keeps the ledger: matching rows in (start, cursor] = acknowledged + late + unscanned + passed-over ties, and RowsSent is the log's length |
| `CursorStream.LedgerHolds` | internal/query/executor.go:165-259 | the ledger holds after every run of inserts, failed queries and polls, with any ties, truncations, scan failures and send outcomes |
| `Delivery.CursorFollowsAcknowledgement` | internal/query/executor.go:248-257 | cursor and count move only when rows are acknowledged, and then the cursor strictly increases to the last acknowledged row |
| `Delivery.NoDoubleAcknowledgement` | internal/query/executor.go:178-184 | in any insert order no row is acknowledged more often than it occurs in the table, the log is sorted, and RowsSent is its length |
| `Delivery.EveryRunAccounted` | internal/query/executor.go:165-259 | both laws hold in every state a newly opened stream can reach |
| `Delivery.LateRowArrivedLate` | internal/query/executor.go:250-257 | a row recorded as late was inserted at a moment when the cursor had already reached it |
| `Delivery.UndeliveredRowIsLate` | internal/query/executor.go:216-258 | with unique cursors and no failed scan, a matching row at or below the cursor that was not delivered was inserted after the cursor passed it |
| `Delivery.LateRowNeverDelivered` | internal/query/executor.go:178-184 | in such a run a row inserted at or below the cursor of that moment is never delivered |
| `Delivery.UndeliveredIff` | internal/query/executor.go:165-259 | in such a run a matching row at or below the cursor is undelivered iff it was inserted when the cursor had already reached it |
| `Delivery.IncrementalEqualsOneShot` | internal/query/executor.go:165-259 | in every reachable state, under unique cursors becoming visible in order, the acknowledged batches concatenate to the one-shot answer for (start, cursor] |
| `Delivery.RangeStable` | internal/query/streamplan.go:347-356 | inserts in cursor order never change the one-shot answer for a range that ends at an existing row |
| `AtLeastOnce.ReceivedIsGapFree` | internal/query/executor.go:233-258 | with ambiguous sends, the first copies of what clients received are a sorted, gap-free prefix of all matching rows above start, reach at least the cursor, and extend the acknowledged log |
| `AtLeastOnce.RetryComparable` | internal/query/executor.go:239-258 | a batch that failed and its retry, with only in-order inserts between, are one a prefix of the other |
| `AtLeastOnce.OneShotSplits` | internal/query/streamplan.go:347-356 | one-shot answers for adjoining ranges concatenate to the answer for the whole range |
| `ExactlyOnce.ReceivedOnceIff` | internal/query/executor.go:233-258 | in every run, with ties, truncations and scan failures, clients have received exactly the acknowledged log iff every poll with rows failed to encode, failed to send without reaching a client, or succeeded and reached one |
| `ExactlyOnce.ExactlyOnceIff` | internal/query/executor.go:165-259 | under in-order inserts with unique cursors, what clients received is the one-shot answer for (start, cursor] iff every poll ended in one of those ways |
| `ExactlyOnce.RowArrivesTwice` | internal/query/executor.go:239-246 | one row without ties arrives twice after a send that failed late and its retry |
| `Drain.PollPassesOver` | internal/query/executor.go:206-231 | the rows a fully read, successful poll neither sends nor leaves pending are exactly those tied with its last row but cut off by LIMIT |
| `Drain.PollLosesNothingIff` | internal/query/executor.go:250-257 | such a poll loses nothing iff the answer fits the batch or the next pending row has another cursor |
| `Drain.TiedRowIsLost` | internal/query/executor.go:250-257 | two rows with one cursor and BatchSize 1: one is delivered and nothing stays pending |
| `DrainTies.DrainLosesNothingIff` | internal/query/executor.go:165-259 | draining a fixed table with full, successful polls delivers everything that matched iff, in sorted order, the rows on both sides of every multiple of BatchSize have different cursors |
| `Drain.DrainAccounts` | internal/query/streamplan.go:347-356 | over a whole drain of a fixed table with any ties, delivered + passed over + unscanned = all that matched |
| `Drain.DrainRate` | internal/query/executor.go:165-259 | with unique cursors, k full polls of n pending rows deliver exactly min(n, k * BatchSize) more and leave the rest pending |
| `Drain.DrainTerminates` | internal/query/executor.go:165-259 | ceil(n / BatchSize) such polls drain n pending rows and deliver all n |
| `Drain.DrainedStaysFixed` | internal/query/executor.go:233-259 | once drained, further polls send nothing and change nothing |
| `Drain.DrainedStream` | internal/query/executor.go:165-259 | a drained stream has acknowledged every matching row above its start, in cursor order |
| `Drain.StartModeSplit` | internal/query/executor.go:87-140 | the drained BEGINNING stream is the sorted matching history at registration followed by the drained NOW stream; they coincide when MAX is NULL |
| `Drain.DeliversAllIff` | internal/query/executor.go:87-97 | a drained stream delivered every matching row that has a cursor iff all those cursors lie above its start |
| `Decimal.ParseInvertsFormat` | internal/query/executor.go:278-283 | a printed integer is read back iff it fits in 64 bits, and is an error otherwise |
| `Decimal.ParseInt64Iff` | internal/query/executor.go:278-283 | a text is read as a number iff it is digits with at most one sign in front, denotes that number in base ten, and the number fits in 64 bits |
| `Polling.NowStartsAtMax` | internal/query/executor.go:87-140 | with a 64-bit integer cursor, FROM NOW starts at the table's largest cursor, or at the initial value when there is none |
| `Polling.StartCursorIs` | internal/query/executor.go:87-140 | BEGINNING starts at 0 whatever MAX is; only NOW with a failing MAX fails; NULL, empty or unreadable MAX starts at 0; otherwise at its value, read as a timestamp iff the cursor type names TIMESTAMP in any letter case |
| `Polling.PollRefinesStep` | internal/query/executor.go:165-259 | for any legal answer, truncation, scan failures and outcome, a poll refines the stream's step, and the global counter grows by the acknowledged rows |
| `Polling.PollSendsBatch` | internal/query/executor.go:216-246 | the frames handed to the sender are the scan reports, then the batch's rows in order, then an error report if encoding or sending failed; each sent row has exactly the answer's columns, each with its own cell of that row |
| `Polling.RowPairs` | internal/query/executor.go:222-225 | a row map's keys are exactly the columns, and under each name stands the cell of the last column of that name |
| `Polling.PollPairs` | internal/query/executor.go:206-246 | a poll sends a batch iff its columns and some row could be read and encoding worked, and the batch pairs the columns with the cells of the scanned rows, in order |
| `Polling.PollReports` | internal/query/executor.go:165-246 | each kind of error is reported iff it occurred: failed query, unreadable columns, missing cursor column, failed scans, failed encoding, failed send |
| `Polling.PollCountsErrors` | internal/query/executor.go:233-289 | the error metric grows by one for each error frame, and by one more for a batch that was not encoded or sent |
| `Execution.Executor.constructor` | internal/query/executor.go:41-51 | a new executor is not running, has no state and an open stop channel |
| `Execution.Executor.Start` | internal/query/executor.go:53-140 | a second Start changes nothing; otherwise a fresh open channel, and either a fresh state with a goroutine, at 0 from the beginning and at the value of a readable MAX from now, or, iff MAX failed for NOW, one error report, not running and no new state; it is the life machine's Start step |
| `Execution.Executor.Stop` | internal/query/executor.go:291-298 | closes the channel exactly when running, never twice; it is the life machine's Stop step |
| `Execution.Executor.GetState` | internal/query/executor.go:307-318 | a fresh copy of cursor and count, null exactly when there is no state |
| `Execution.Executor.CollectRows` | internal/query/executor.go:206-231 | the row loop collects exactly the scannable rows in order, every column with its own cell, reports one error per failed scan, and keeps the parsed cursor cell of the last scanned row |
| `Execution.Executor.Poll` | internal/query/executor.go:165-259 | one poll changes cursor, count, metrics and sent frames exactly as its meaning says, on every error path, and the rows of a batch it hands over pair the columns with the scanned cells |
| `Execution.Executor.Wake` | internal/query/executor.go:151-161 | one turn of the goroutine's loop is one step of the life machine, with the same frames, and exits on the cancelled context or the closed channel and only then, leaving cursor, count and row metric alone |
| `Execution.RunDelivers` | internal/query/executor.go:206-258 | for every run of ticks and inserts, the batches of the successful sends carry, in order, exactly the rows the run acknowledges, every column with its own cell |
| `Execution.Executor.Ticks` | internal/query/executor.go:151-160 | over any number of ticks, with inserts in between, the object's cursor, count and row metric follow the stream's run, and each poll hands over the frames its meaning gives |
| `Execution.Executor.RunLoop` | internal/query/executor.go:142-162 | the same, with the rows sent being those acknowledged, until the loop is observed or takes one of its two exits with the terminal frame of that exit |
| `Execution.Executor.Observe` | internal/query/executor.go:53-318 | from Start through any run to GetState: the copy's cursor is the stream's, its RowsSent is the length of the acknowledged log, the batches sent carry that log cell by cell, and under in-order inserts that log is the one-shot answer from the start, which is 0 for BEGINNING, up to the copy's cursor |
| `Fleet.NonInterference` | internal/query/executor.go:164-259 | whatever other executors do and whatever is inserted in the middle of a poll, a member's logs, cursor and count are those of a legal run of its query alone |
| `Fleet.CreatedRunsAlone` | internal/query/executor.go:65-81 | from its creation on, an executor lives as a freshly opened stream over the table of that moment |
| `Fleet.CounterConservation` | internal/metrics/metrics.go:25-27 | the global rowsSent is at all times the sum of RowsSent over all executors ever created plus the batches sent but not yet counted |
| `Fleet.CountersFromStart` | internal/query/executor.go:248-257 | the counter law holds in every schedule that begins with no executors and a counter at zero |
| `Text.CharCodes` | internal/query/streamplan.go:88-121 | the classes `\s` and `\w`, TrimSpace's white space and ToUpper by ASCII code |
| `SqlText.NormalizeIsNormal` | internal/query/streamplan.go:114-121 | normalized text is upper case, single-blank, trimmed, and never longer than the input |
| `SqlText.NormalizeFixes` | internal/query/streamplan.go:114-121 | normalization leaves exactly the normal texts unchanged, and is idempotent |
| `SqlText.NormalizeIgnoresLayout` | internal/query/streamplan.go:114-121 | letter case and the width of an existing gap do not change the normalized text |
| `SqlText.KeywordIsMaximalWord` | internal/query/streamplan.go:92-103 | the pattern `\bK\b` matches iff K is one of the text's maximal words |
| `SqlText.KeywordTestIsExact` | internal/query/streamplan.go:88-126 | the keyword test on normalized text holds iff some maximal word of the original text is the keyword in any letter case |
| `GroupBy.GroupByTestIsExact` | internal/query/streamplan.go:95-97 | the GROUP BY pattern matches the normalized text iff it matches the original in capitals: normalization neither hides nor creates a match |
| `StreamPlan.StartsWithSelectIff` | internal/query/streamplan.go:148-149 | the trimmed text starts with SELECT iff SELECT stands in it with nothing but white space before |
| `StreamPlan.ScanForSelect` | internal/query/streamplan.go:137-157 | the loop returns true iff at some point more parentheses are opened than closed and SELECT follows the first "(", white space aside |
| `StreamPlan.HasSubqueries` | internal/query/streamplan.go:129-158 | the same for the text after the first " FROM ", and false without one |
| `StreamPlan.SubqueryWitness` | internal/query/streamplan.go:129-158 | a positive answer always points at a parenthesis after FROM that SELECT follows, white space aside |
| `StreamPlan.SubqueryIffFirstParen` | internal/query/streamplan.go:143-152 | with no ")" before the first "(", the answer is whether SELECT follows that first "(" |
| `StreamPlan.SubqueryAgreesIff` | internal/query/streamplan.go:129-158 | for every normalized text, the scan agrees with "some parenthesis in the text opens a SELECT" iff a text of that kind has, after its first " FROM ", a SELECT right after the first parenthesis and at some point more parentheses opened than closed |
| `NestedSelects.LaterSubqueryIsMissed` | internal/query/streamplan.go:147-150 | in a SELECT statement whose first parenthesis does not open a SELECT, no later one is noticed |
| `NestedSelects.NestedSelectIsAccepted` | internal/query/streamplan.go:88-111 | a full statement with `IN (SELECT ...)` after the first parenthesis passes validation |
| `NestedSelects.NestedSelectIsPlanned` | internal/query/streamplan.go:35-85 | that statement gets a plan whenever its table can be streamed |
| `NestedSelects.InnerSelectIsPlanned` | internal/query/streamplan.go:35-85 | `SELECT (SELECT A from F) FROM T` gets a plan with the projection `(SELECT A` whenever T can be streamed |
| `StreamPlan.VerdictIgnoresLayout` | internal/query/streamplan.go:88-111 | the validation verdict does not depend on letter case or gap width |
| `StreamPlan.VerdictByWords` | internal/query/streamplan.go:88-111 | the whole verdict in terms of the original text: JOIN, GROUP BY, DISTINCT and OVER as maximal words in any letter case, in this order, then the scan |
| `StreamPlan.ParsePanicsIff` | internal/query/streamplan.go:161-177 | parsing panics iff both keywords are found and the first "SELECT " ends past the first " FROM " |
| `Compilation.CompilePanicsIff` | internal/query/streamplan.go:35-45 | the compiler panics iff validation accepts the text and its first "SELECT " ends past its first " FROM " |
| `BlankKeywords.BlankKeywordIff` | internal/query/streamplan.go:114-121 | normalized text holds a blank-separated keyword iff the original holds it in some letter case between white space, with something visible on both sides |
| `BlankKeywords.LeadingKeywordIff` | internal/query/streamplan.go:114-121 | normalized text holds a keyword before a blank iff the original holds it in some letter case before white space and something visible |
| `Targets.ParseErrorsIff` | internal/query/streamplan.go:161-208 | for every SQL each parse error has exactly its own reasons: no inner FROM; no SELECT before visible text, no literal " FROM " or nothing visible after it; a target that is not one table |
| `Targets.ParsedTable` | internal/query/streamplan.go:200-217 | the table of any parsed SQL is the first visible token after its first literal " FROM " |
| `Targets.ParsedProjection` | internal/query/streamplan.go:170-177 | its projection is the original text, trimmed, between the places SELECT and FROM have in the normalized text |
| `Targets.TargetDecides` | internal/query/streamplan.go:161-219 | for every text after FROM: nothing visible is a missing FROM; a comma before every inner WHERE, or "(" as first visible character, is the single-table error; anything else parses, its table being the first visible token |
| `Targets.TargetIsRefusedIff` | internal/query/streamplan.go:195-198 | for `SELECT p FROM s [WHERE w]` with any visible s without a WHERE of its own: the single-table error iff s has a comma or starts with "(", and otherwise a parse with the first token of s as table |
| `Targets.CompileRefusesTarget` | internal/query/streamplan.go:35-45 | the compiler answers such a target with that error unless validation objects first |
| `FrontEndLimits.EmptyProjectionPanics` | internal/query/streamplan.go:177 | a text normalizing to one that starts with `SELECT FROM ` makes the parser panic, and the compiler iff validation accepts it |
| `FrontEndLimits.SelectFromPanics` | internal/query/streamplan.go:177 | `SELECT FROM T` passes validation and panics |
| `ParseRoundTrip.ParsePrinted` | internal/query/streamplan.go:161-219 | a printed statement gives back table and WHERE text exactly, in original case, and the projection cut to its collapsed length |
| `ParseRoundTrip.ParseInvertsPrintingIff` | internal/query/streamplan.go:161-219 | parsing inverts printing iff the projection has no run of two or more white-space characters |
| `FrontEndLimits.ProjectionLosesItsEnd` | internal/query/streamplan.go:175-177 | the printable projection `a,  b` is read as `a,` |
| `FrontEndLimits.LeadingSpaceShiftsProjection` | internal/query/streamplan.go:175-177 | with any white space before a printed statement the projection is what stands from the eighth character on, as long as the collapsed projection; table and WHERE text are the same |
| `FrontEndLimits.LeadingBlankCutsProjection` | internal/query/streamplan.go:175-177 | one blank in front costs the collapsed projection its last character |
| `FromSeparators.ParseWithSeparator` | internal/query/streamplan.go:161-219 | with any letter case of FROM and any white space around it the verdict is unchanged, and the table is read after the first literal " FROM " that follows the projection; without one, or with nothing after it, the SQL is invalid |
| `FromSeparators.SeparatorDecides` | internal/query/streamplan.go:179-183 | without a WHERE clause the statement parses as printed iff its separator contains " FROM ", and fails with invalid SQL otherwise |
| `FromSeparators.SeparatorOrTextDecides` | internal/query/streamplan.go:179-219 | with a WHERE clause it parses as printed iff its separator contains " FROM "; otherwise what follows the next " FROM " (in the WHERE text, unless the table is itself called FROM) is read as the table, and the SQL is invalid when there is none |
| `FromSeparators.OtherTableIsPlanned` | internal/query/streamplan.go:35-85 | `SELECT A from T WHERE B = ' FROM C '` gets a plan that streams C |
| `WhereSeparators.WhereTextIs` | internal/query/streamplan.go:213-217 | the WHERE text is the trimmed text after the first WHERE between two blanks, in any letter case, and empty without one |
| `WhereSeparators.WhereSeparatorDecides` | internal/query/streamplan.go:161-219 | with any white space around WHERE and any letter case the verdict and the table are those of the printed statement, but the WHERE text is read only from between two blanks; otherwise the filter is what follows a blank-separated WHERE inside the text, or none |
| `WhereSeparators.FilterIsLost` | internal/query/streamplan.go:35-85 | a statement whose WHERE follows a line break gets a plan without a filter |
| `Compilation.CursorIff` | internal/query/streamplan.go:275-311 | the search finds the one column to follow: the hint, else id, else created_at when there is no id, and none when there is none |
| `Compilation.CursorTypeIff` | internal/query/streamplan.go:314-328 | a cursor type is allowed iff it names TIMESTAMP, or is BIGINT or INT64, in any letter case |
| `Compilation.TableErrorIff` | internal/query/streamplan.go:275-328 | each error about a table has its own reason: no columns, the hinted column missing, neither id nor created_at, a cursor column of another type; and there is a plan iff none applies |
| `Compilation.CompileStops` | internal/query/streamplan.go:35-85 | compilation answers with the validation error, the parse error or the missing table, in this order, and plans iff nothing is wrong |
| `Compilation.PrintedIsPlannedIff` | internal/query/streamplan.go:35-85 | a printed statement gets a plan iff validation accepts it, its table exists, and the column to follow exists with an allowed type |
| `Compilation.PrintedPlanIs` | internal/query/streamplan.go:74-84 | that plan holds the printed table and WHERE text, the projection as cut, and the column to follow with its type |
| `Compilation.PlanIsSound` | internal/query/streamplan.go:35-85 | every accepted plan passed validation, carries the parsed clauses, and follows the right column of an existing table |
| `PollingText.ClosingIff` | internal/query/streamplan.go:339-344 | the parenthesis put after a text matches the one put before it iff the text's own unquoted parentheses are balanced and never close too early |
| `PollingText.BuiltReadsBackIff` | internal/query/streamplan.go:336-359 | the text sent reads back as `SELECT projection FROM table WHERE (filter) AND cursor > ? ORDER BY cursor ASC LIMIT ?` with the plan's parts, the whole WHERE text or TRUE inside its parentheses, iff that text is so closed |
| `FrontEndLimits.EscapingIsPlanned` | internal/query/streamplan.go:339-344 | a statement whose WHERE text closes a parenthesis early gets a plan, and the text sent does not read back |
| `Meaning.StatementSelectsPending` | internal/query/streamplan.go:336-359 | under three-valued logic and the comparison read from the text, the plan's statement selects exactly the rows the stream has still to see: a true filter and a non-NULL cursor above the parameter |
| `Meaning.PollAnswersText` | internal/query/executor.go:188-194 | a poll's answer is legal in the stream model iff the database may give it, in the direction the text asks for, to the text sent, read back |
| `Meaning.CompilationPreservesMeaning` | internal/query/streamplan.go:35-85 | draining the plan of an accepted `SELECT p FROM t [WHERE w]` delivers, in order and counting duplicates, what the query returns restricted to cursor > start; and the text built from the plan selects exactly the rows those polls see, wherever the cursor stands |
| `Repl.TailIff` | internal/repl/repl.go:34 | the optional clauses match exactly four token shapes, and the captured column is the third token |
| `ReplRoundTrip.AcceptedLine` | internal/repl/repl.go:111-131 | an accepted line's tokens are REGISTER QUERY, id, AS, the SQL's and a clause tail's; the SQL is the shortest one-line text that leaves such a tail |
| `ReplLanguage.RegistersIff` | internal/repl/repl.go:34-131 | a line is accepted iff it belongs to the pattern's language: REGISTER QUERY, a word, AS, one line of text and a clause tail, in any letter case and with any gaps; the mode is NOW iff the line holds "FROM NOW" in any letter case |
| `ReplRoundTrip.TestSeesSql` | internal/repl/repl.go:126-128 | without a printed FROM NOW, the mode test sees "FROM NOW" iff the SQL contains it |
| `ReplRoundTrip.RegisterRoundTripIff` | internal/repl/repl.go:111-131 | for every command, parsing its printed form gives it back iff it is well formed and its SQL has no "FROM NOW" (BEGINNING), no cursor-clause suffix (no cursor) and no FROM NOW suffix (neither clause) |
| `ReplRoundTrip.TabbedClauseIsLost` | internal/repl/repl.go:126-128 | a SQL without "FROM NOW" and without cursor suffix that does not survive, because its tab-separated FROM NOW matches the pattern |
| `ReplRoundTrip.FromBeginningStaysInSql` | internal/repl/repl.go:28-34 | `FROM BEGINNING` is read as part of the SQL |
| `Ingest.Client.InsertEvents` | internal/duckdb/client.go:78-106 | all or nothing: every event stored in order and counted, or no change; it succeeds iff nothing failed or the batch is empty |
| `Ingest.IngestHandler.Append` | internal/duckdb/ingest.go:57-60 | the event joins the end of the buffer; a flush is due iff the new length has reached the batch size or the last flush is at least the timeout ago; it is one Accept step of the interleaving model |
| `Ingest.IngestHandler.Swap` | internal/duckdb/ingest.go:108-113 | hands out the whole buffer and leaves it empty; it is one SwapOut step |
| `Ingest.IngestHandler.InsertBatch` | internal/duckdb/ingest.go:115-124 | the batch is stored whole or dropped whole; it is one Insert step |
| `Ingest.IngestHandler.Flush` | internal/duckdb/ingest.go:108-129 | the buffer is emptied even when its transaction fails, and then its events are gone |
| `Ingest.IngestHandler.Handle` | internal/duckdb/ingest.go:47-64 | one request alone: the buffer is empty afterwards iff the size or the timeout asks for it, and then the whole buffer with the event went out; otherwise the event waits |
| `Ingest.AcceptDecides` | internal/duckdb/ingest.go:57-60 | in the interleaving model an accepted event leaves its handler waiting to flush iff the size is reached or the time is up |
| `Ingest.NothingLost` | internal/duckdb/ingest.go:57-125 | over every interleaving each accepted event is in exactly one of buffer, undecided batch, table or failed batch, and swapped batches followed by the buffer are the acceptance order |
| `Ingest.BufferBound` | internal/duckdb/ingest.go:57-113 | the buffer never exceeds BatchSize - 1 plus the handlers that decided to flush but have not swapped, so it is below BatchSize when none is pending |
| `Ingest.Reachable` | internal/duckdb/ingest.go:24-31 | both invariants hold in every state reachable from a new handler |
| `Registry.Manager.constructor` | internal/query/manager.go:35-43 | a new manager is empty and satisfies the registry invariant |
| `Registry.Manager.Register` | internal/query/manager.go:46-80 | which outcome is returned when, with the compiler's panic apart from its errors; nothing changes unless the query is admitted, and then exactly one entry is added, holding the compiled plan and a new executor that stands at its start cursor with nothing sent; registered - unregistered stays the registry's size within the cap |
| `Registry.Manager.FirstSnapshot` | internal/query/manager.go:46-80 | right after a registration the query is shown unless MAX failed for NOW, at 0 from the beginning and at the value of a readable MAX from now, with nothing sent |
| `Registry.Manager.Unregister` | internal/query/manager.go:82-98 | removes exactly that entry, cancels and stops it, closes an open channel once, and counts it |
| `Registry.Manager.List` | internal/query/manager.go:100-109 | every registered query exactly once |
| `Registry.Manager.GetAllQueryStates` | internal/query/manager.go:130-146 | one fresh snapshot for each query whose executor has a state, and no other |
| `Lifecycle.PollSendsNoTerminal` | internal/query/executor.go:165-259 | no poll, on any path, sends Completed or "context cancelled" |
| `Lifecycle.LifecycleSafe` | internal/query/executor.go:142-162 | in every history of an executor, Stop never closes a closed channel, the goroutine attempts one terminal frame when it exits and none before, and nothing follows it |
| `Lifecycle.EveryLifeIsSafe` | internal/query/executor.go:41-84 | this holds in every history of a new executor, which so attempts at most one terminal frame |
| `Sessions.Session.OpenStreamSync` | internal/quic/server.go:253-259 | refuses at the cap; below it the counter grows even when the open then fails |
| `Sessions.Session.SendToQuery` | internal/quic/server.go:289-313 | the send's effect on streams, counter and result: cap first, then at most one open, then one write |
| `Sessions.StreamsWithinCap` | internal/quic/server.go:289-313 | when sends do not overlap, however they succeed or fail, a session never holds more query streams than its cap |
| `Sessions.StreamIsQueryLog` | internal/quic/server.go:294-312 | each query has its own stream, holding exactly the data that got out for that query, in order |
| `Sessions.FanOut` | cmd/main.go:26-34 | sessions are tried in order up to the first success; the tried ones changed as their sends say, the others are untouched |
| `Sessions.FanOutOutcome` | cmd/main.go:26-34 | a reported success put out at least one copy, a reported failure any number up to the sessions tried |
| `SendRace.AloneIsSend` | internal/quic/server.go:289-313 | a call whose steps nothing interleaves does what the sequential send says |
| `SendRace.CapWithOverlap` | internal/quic/server.go:253-259 | over every interleaving of at most q calls in flight, counted streams plus calls about to count never exceed cap - 1 + q, and no more streams are stored than counted; so the cap holds when calls do not overlap |
| `SendRace.BoundIsReached` | internal/quic/server.go:253-259 | for every cap and every q some interleaving counts cap - 1 + q streams |
| `SendRace.TwoQueriesExceedCap` | internal/quic/server.go:289-308 | two queries that overlap count and store two streams under a cap of one |
| `SendRace.CapSilences` | internal/quic/server.go:290-292 | once the counter has reached the cap, frames written from then on are at most those of the calls then past their first check |
| `SendRace.LateCallsFail` | internal/quic/server.go:290-292 | every call that starts after that moment is refused |
| `SendRace.LastStreamStarves` | internal/quic/server.go:289-313 | in every interleaving of at most q calls, a table with as many streams as the cap has one that got at most q frames |
| `SendRace.LastQueryStarves` | internal/query/executor.go:142-162 | when each query has one call in flight, as its goroutine has, such a table has a stream that was written at most once |
| `Wire.PutUint32` | internal/protocol/encoder.go:29 | writes the big-endian length in place and nothing else |
| `Wire.EncodeRowBatch` | internal/protocol/encoder.go:21-33 | fills a fresh buffer with type, length and a copy of the payload, of type 0x01 |
| `Wire.EncodeCompleted` | internal/protocol/encoder.go:35-40 | the empty frame of its type, of type 0x02 |
| `Wire.EncodeError` | internal/protocol/encoder.go:42-49 | the frame holding the message text, of type 0x03 |
| `Wire.EncodeHeartbeat` | internal/protocol/encoder.go:51-56 | the empty frame of its type, of type 0x04 |
| `Wire.LengthRoundTrip` | internal/protocol/encoder.go:29 | the length field is read back modulo 2^32 |
| `Wire.OrDisjoint` | cmd/demo/main.go:174 | or-ing numbers whose bits do not overlap is adding them |
| `Wire.ShiftOrIsReadLength` | cmd/demo/main.go:174 | the decoder's shift-and-or of four bytes is the number with those big-endian digits |
| `Wire.SplitInvertsConcat` | internal/protocol/encoder.go:21-56 | any concatenation of frames splits back into the same messages |
| `Wire.ConcatInvertsSplit` | internal/protocol/encoder.go:21-56 | whatever splits is the concatenation of what it splits into |
| `Wire.UniquelyDecodable` | internal/protocol/encoder.go:21-56 | equal byte streams come from equal message lists |
| `Wire.ParseRecoversIff` | cmd/demo/main.go:167-175 | a read that holds the whole first frame recovers it iff the payload is at most 2^32 - 6 bytes, and panics beyond |
| `Wire.ParseMessageIs` | cmd/demo/main.go:167-175 | fewer than five bytes are passed on, a length beyond the buffer or 2^32 - 6 panics, and anything else is a message of that kind with that many bytes of the buffer |
| `Wire.ShortReadIsCompleted` | cmd/demo/main.go:155-175 | a frame cut short by the read is completed with what the buffer held behind it |
| `EndToEnd.StreamSplits` | internal/quic/server.go:289-313 | however other queries' sends fall between, the bytes of a query's stream split into exactly the messages it sent whose bytes got out, in order |
| `EndToEnd.ClientReadsLogIff` | internal/query/executor.go:142-259 | for every run of a query's loop, the rows a client reads from its stream's bytes are exactly the acknowledged ones, in order, iff no batch was written with an error |
| `EndToEnd.ClientReadsAnswerIff` | internal/query/executor.go:53-259 | under in-order inserts with unique cursors they are the one-shot answer for (start, cursor] iff no batch was written with an error |

## Left out

- DuckDB, database/sql, JSON, QUIC, TLS, HTTP routing, the dashboard and configuration parsing: SELECT is a filter, sort and limit over rows, row cells and payloads are opaque, and the answers of the database (rows, MAX, schema) are parameters.
- Timestamp layouts: the parser of timestamp text is the parameter `time`, and timestamps are integers counted from Go's zero time.
- SQL expressions: a WHERE text means whatever the parameter `meaning` says; only that outer white space does not matter and that TRUE is true is assumed, and nothing is said of ORDER BY or LIMIT after the table name.
- Characters beyond ASCII: Go folds and trims some other Unicode letters and spaces.
- Catalog failures other than a missing table or an empty schema: a failing existence check or DESCRIBE is one more registration error.
- The 64-bit wrap-around of RowsSent and of the global counters.
- `Meaning.CompilationPreservesMeaning`: assumes a projection without white-space runs, because `ParseRoundTrip.ParseInvertsPrintingIff` shows that the code cuts any other, and a WHERE text that is not blank; its clause on the text sent is about closed WHERE texts, because `PollingText.BuiltReadsBackIff` shows that no other reads back.
- `PollingText.BuiltReadsBackIff`: the reader knows single and double quotes but not SQL comments, and takes a cursor column name on one line.
- `ParseRoundTrip.ParseInvertsPrintingIff`: covers projections without a blank-separated FROM or WHERE keyword and comma-free table tokens, the texts the parser is meant for.
- `Lifecycle.LifecycleSafe`: an executor is started once, as the manager does; a restarted executor could have two goroutines reading one channel field.
- `SendRace.CapWithOverlap`: streams opened by the client, which also count and are uncounted when they end, are not part of the session model.
- `Sessions.Session.SendToQuery`: one call alone; `SendRace` models overlapping calls. A write puts out the whole frame or nothing.
- `EndToEnd.ClientReadsLogIff`: one session whose sends do not overlap, while the loop runs; it assumes that JSON carries the batches sent unchanged and that each payload's length fits 32 bits.
- The cap on clients: its counter is decremented twice for each ended session (internal/quic/server.go:105-110, 211-215).
- Table-targeted ingest, the ingestion log, GetStreamID, lag metrics, metrics.Reset, the other console commands, and unknown start modes.
