# Serasa enrichment worker, modelled in Dafny

This project models the data pipeline of `ProcessWorker` in `serasa_app.py`. The worker
opens a ZIP archive and reads the CSV export of support tickets inside it. It does four things:

- picks a CPF for every ticket (`preencher_cpf`);
- normalises the CPF and marks it valid or not;
- looks the valid CPFs up in batches at a user service, falling back to one request per CPF when a batch request fails;
- left-joins what it found onto the tickets, adds the hashed account id and the registration status, drops duplicate rows and projects to eight columns.

While it works it emits `progress` signals, and it ends with `finished` (the table) or `error`
(the message). The user can cancel through `cancel()`, which sets a flag. The worker polls that flag
before every batch and before every single-CPF lookup. When it sees the flag set, it discards
everything, emits progress 0 and then `finished` with an empty table.

Modules, in dependency order:

- `Wrappers`: `Option` (a possibly null cell) and `Outcome` (a call that succeeds or raises).
- `Normalizer`: the CPF fallback chain, the normalisation chain
  `fillna('') → remove non-digits → zfill(11) → last 11`, the validity test, and the list of valid CPFs.
- `Batching`: the batch comprehension `[cpfs[i:i+n] for i in range(0, len(cpfs), n)]`.
- `Merge`: the left join on `cpf`, `account_id`, `status`, `drop_duplicates` and the projection.
- `Enrichment`: the lookup loop as reference functions over a trace of events. The trace holds
  the signals the run emits and the requests it sends. `Fallback` is the per-CPF loop, `Step`
  is one turn of the batch loop and `Enrich` is the whole loop.
- `Pipeline`: `RunSpec` is the reference definition of one whole run, with lemmas about every run.
- `Worker`: the class `ProcessWorker`. Its `batchSize` field defaults to 10, and its methods `Cancel` and
  `Run` change the fields `isCancelled` and `events` with `while` loops and early `return`s.
  Each method is proved to produce exactly the trace its reference function prescribes.

The environment of a run is an `Env` value:

- the cancel flag as it stands when the run starts;
- `requests`: `requests[k]` says that `cancel()` was called after checkpoint `k - 1` and before
  checkpoint `k`, where checkpoints are the flag polls numbered in order. `Run` applies such a call by
  calling `Cancel()` itself just before it polls the flag, so that when a concurrent `cancel()`
  arrives is a parameter rather than a thread;
- `service`: the batch endpoint and the single-CPF endpoint, as total functions that return
  `Success(value)` or `Failure` (any exception: a timeout or a malformed body for either endpoint,
  and a non-200 status for the batch endpoint; the single-CPF endpoint does not check the status).

SHA-256 is the parameter `hash`, and reading the archive is the parameter `source`.

## Model

| member | source | states |
|---|---|---|
| Normalizer.Usable | serasa_app.py:51-55 | a CPF cell can be used when it is not null, not `''` and not `"'-"`; `FirstUsable` and `FillCpf` state the chain built on it |
| Normalizer.FirstUsable | serasa_app.py:50-56 | the fallback chain gives the first usable candidate (present, not `''`, not `"'-"`), or the default when none is usable |
| Normalizer.FillCpf | serasa_app.py:50-56 | `preencher_cpf` is the first usable of 'CPF', 'CPF.1', '[RA] CPF', or 'CPF' unchanged when none is usable |
| Normalizer.Digits | serasa_app.py:66 | removing the non-digits leaves only digits, never lengthens, and keeps a digit-only string unchanged |
| Normalizer.DigitsChar | serasa_app.py:66 | one character is kept exactly when it is a digit |
| Normalizer.DigitsAppend | serasa_app.py:66 | removing the non-digits works character by character: it distributes over concatenation, so the digits that remain are those of the input, in order |
| Normalizer.Normalise | serasa_app.py:63-69 | a normalised CPF is always exactly 11 digit characters |
| Normalizer.ZFill | serasa_app.py:67 | `str.zfill(11)` on a digit string: '0' on the left up to eleven characters, a longer string unchanged; `PadKeepsLastDigits` states it |
| Normalizer.TakeLast | serasa_app.py:68 | `str[-11:]`: the last eleven characters, or the whole string when shorter; `PadKeepsLastDigits` states it |
| Normalizer.Pad | serasa_app.py:67-68 | `zfill(11)` then `[-11:]`; `PadKeepsLastDigits` and `PadZero` state its result |
| Normalizer.PadKeepsLastDigits | serasa_app.py:67-68 | `zfill(11)` then `[-11:]` ends with the last (up to 11) characters of the digits and is '0' before them |
| Normalizer.NormaliseKeepsLastDigits | serasa_app.py:63-69 | the normalised CPF ends with the last (up to 11) digits of the cell, in order, and is '0' before them |
| Normalizer.IsValid | serasa_app.py:71-74 | `cpf_valido`: 11 digits matching `^\d{11}$` and not `00000000000`; on a normalised CPF this is exactly "not all zeros", as `NormaliseValidity` states |
| Normalizer.NormaliseValidity | serasa_app.py:71-74 | a normalised CPF is valid exactly when it is not `00000000000`, that is, when one of the last eleven digits of the input is not '0' |
| Normalizer.PadZero | serasa_app.py:67-73 | the padded form is all zeros exactly when every kept digit is '0' |
| Normalizer.NormaliseIdempotent | serasa_app.py:63-69 | normalising a normalised CPF changes nothing |
| Normalizer.NormaliseExamples | serasa_app.py:63-69 | `"123"` becomes `"00000000123"`, and a null cell becomes `"00000000000"` |
| Normalizer.NormalisePlaceholder | serasa_app.py:63-74 | the placeholder `"'-"` normalises to `"00000000000"`, which is not valid |
| Normalizer.NormaliseRow | serasa_app.py:58-83 | a selected row's CPF is the normalised form of the filled CPF cell, so it has 11 digits; `cpf_valido` holds exactly when the CPF is not all zeros; ID, request date and ticket form pass through; the resolution date is null |
| Normalizer.NormaliseTable | serasa_app.py:58-83 | the selected table: `NormaliseRow` of every row, in order, none dropped; `ValidCpfsOfTable` states it |
| Normalizer.ValidCpfs | serasa_app.py:100 | the lookup list holds exactly the CPFs of the valid rows and is no longer than the table |
| Normalizer.ValidCpfsAppend | serasa_app.py:100 | the lookup list keeps table order: it distributes over concatenation of tables |
| Normalizer.ValidCpfsOfTable | serasa_app.py:100 | every CPF sent to lookup is valid, and a row's CPF is in the list exactly when it is valid; the table keeps every row |
| Batching.Chunk | serasa_app.py:109 | there are ceil(N/B) batches (`N <= count*B < N+B`), none empty, none longer than B, all but the last exactly B |
| Batching.ChunkFlatten | serasa_app.py:109 | concatenating the batches in order gives back the CPF list |
| Batching.ChunkAt | serasa_app.py:109 | batch `j` is exactly the slice `cpfs[j*B:(j+1)*B]` |
| Batching.ChunkMember | serasa_app.py:109 | every CPF of every batch comes from the list |
| Merge.MatchesOf | serasa_app.py:155 | the results joined to a row are exactly those with its CPF |
| Merge.JoinRow | serasa_app.py:155 | a row gives at least one join row, and every one keeps that row |
| Merge.JoinRowFacts | serasa_app.py:155 | a row with no match joins exactly once, with null id and name; a row with matches joins with each matching result, and every join row of it carries a matching result |
| Merge.JoinRowMatches | serasa_app.py:155 | a row with no match gives exactly one join row, with null id and name; a row with matches gives one join row per match, the `i`-th carrying the `i`-th match |
| Merge.MatchesOfAppend | serasa_app.py:155 | the matches of a CPF in two result lists are those in the first, then those in the second |
| Merge.LeftJoin | serasa_app.py:155 | the left join loses no row: every row appears with null enrichment when nothing matches and with each matching result otherwise, and every join row comes from a table row and a result with its key |
| Merge.LeftJoinAppend | serasa_app.py:155 | the left join keeps table order: it distributes over concatenation of tables |
| Merge.LeftJoinSingle | serasa_app.py:155 | a one-row table joins to exactly that row's join rows, so with `JoinRowMatches` and `LeftJoinAppend` each row contributes its own join rows, once each, in table order |
| Merge.AccountId | serasa_app.py:157-163 | `calcular_sha256`: null for a null id, else `hash(id)`; `MergedRows` states it for every merged row |
| Merge.Status | serasa_app.py:164 | CADASTRADO when `name` is present, SEM CADASTRO when it is null; `MergedRows` states it for every merged row |
| Merge.Derive | serasa_app.py:157-164 | one join row with its `account_id` and `status` columns added; `MergedRows` states the rules |
| Merge.DeriveAll | serasa_app.py:163-164 | the two `apply` calls over the whole joined table, row by row in order; `MergedRows` and `MergedCoversRows` state it |
| Merge.DropDuplicates | serasa_app.py:165 | after `drop_duplicates` no two rows are equal, and the same rows remain |
| Merge.DropDuplicatesOfDistinct | serasa_app.py:165 | `drop_duplicates` leaves a table without repeats unchanged |
| Merge.Merged | serasa_app.py:155-165 | `df_merged`: the left join, the derived columns, then `drop_duplicates`; `MergedRows` and `MergedCoversRows` state it |
| Merge.MergedRows | serasa_app.py:155-165 | the merged table has no two equal rows; `account_id` is null exactly when `userID` is null and is the digest of `userID` otherwise; `status` is CADASTRADO exactly when `name` is present and SEM CADASTRO exactly when it is null |
| Merge.MergedCoversRows | serasa_app.py:155-165 | every table row is in the merged table: with null columns and SEM CADASTRO when unmatched, and with each match's id, digest and status otherwise |
| Merge.Project | serasa_app.py:167 | the selection of the eight exported columns; `MergeTableRows` states what each exported row carries |
| Merge.MergeTable | serasa_app.py:155-167 | `df_final`: join, derived columns, `drop_duplicates`, then the projection; stated by `MergeTableRows`, `MergeTableUnmatched`, `MergeTableMatched` and `UnmatchedTable` |
| Merge.MergeTableRows | serasa_app.py:155-167 | every exported row keeps a table row's CPF, ID and dates, and follows the `account_id` and `status` rules |
| Merge.MergeTableUnmatched | serasa_app.py:155-167 | a table row with no matching result is exported with null id and digest and SEM CADASTRO |
| Merge.UnmatchedTable | serasa_app.py:147-167 | with no results, every exported row has null id and digest and SEM CADASTRO, and every table row is exported that way |
| Merge.MergeTableMatched | serasa_app.py:155-167 | a matched row is exported with the result's id, its digest and its status |
| Merge.MatchesOfUnique | serasa_app.py:155 | with at most one result per CPF, a row joins at most one result |
| Merge.LeftJoinOneToOne | serasa_app.py:155 | with at most one result per CPF, the left join keeps the table's rows one for one, in order |
| Merge.TwoMatchesJoin | serasa_app.py:155 | a row with two matching results joins twice, once with each, in result order |
| Merge.TwoMatchesMerged | serasa_app.py:155-165 | two matching results with different names survive `drop_duplicates` as two merged rows |
| Merge.ProjectionKeepsRepeats | serasa_app.py:165-167 | duplicates are dropped before the projection, so two results for one CPF with one id and two different (present) names give two equal exported rows |
| Enrichment.Percent | serasa_app.py:144-145 | a progress value is within 0..100 |
| Enrichment.PercentMonotone | serasa_app.py:144-145 | progress never goes down as more batches are done |
| Enrichment.PercentComplete | serasa_app.py:144-145 | progress is 100 after the last batch |
| Enrichment.Pcts | serasa_app.py:111-145 | the progress values of batches `i+1..j`, one `Percent` each; `PctsAt` and `PctsRising` state them |
| Enrichment.PctsAt | serasa_app.py:111-145 | the progress reports of the batch loop are one per batch, `Percent(idx, total)` in batch order |
| Enrichment.PctsRising | serasa_app.py:144-145 | the reported values stay in 0..100, never go down, and the last batch reports 100 |
| Enrichment.Found | serasa_app.py:130-141 | a single lookup appends `{cpf: queried CPF, userID: id, name: name}` when it succeeds and nothing when it raises; `FallbackYieldMembers` states it |
| Enrichment.FallbackYield | serasa_app.py:124-141 | reference definition: what an uncancelled fallback appends, one result per successful lookup in batch order; `FallbackRunsThrough` ties `Fallback` to it |
| Enrichment.BatchYield | serasa_app.py:119-141 | reference definition: what one batch turn appends, the batch reply's whole list or the fallback's yield; `StepResults` ties `Step` to it |
| Enrichment.EnrichYield | serasa_app.py:111-141 | reference definition: what the whole loop appends, every batch's yield in batch order; `EnrichResults` ties `Enrich` to it |
| Enrichment.Fallback | serasa_app.py:124-141 | the per-CPF fallback loop as a function of its environment; `FallbackShape`, `FallbackRunsThrough` and `FallbackStops` state it |
| Enrichment.Step | serasa_app.py:118-145 | one batch turn after its flag poll; `StepResults`, `StepProgress`, `StepTerminal`, `StepChecks` and `StepQueries` state it |
| Enrichment.Enrich | serasa_app.py:111-145 | the batch loop from a given batch and checkpoint; the `Enrich…` lemmas state it |
| Enrichment.FallbackRunsThrough | serasa_app.py:124-141 | a fallback that no checkpoint stops looks every CPF up in order, appends each success and skips each failure, and uses one checkpoint per CPF, none of which sees the flag |
| Enrichment.FallbackStops | serasa_app.py:124-129 | a fallback that a checkpoint stops has looked up only the CPFs before that checkpoint, emits progress 0 and an empty `finished`, discards all results, and no earlier checkpoint saw the flag |
| Enrichment.FallbackShape | serasa_app.py:122-141 | without a cancel, the fallback looks every CPF up in order, appends each success and skips each failure; with one, it stops at the first checkpoint that sees the flag, after the lookups before it, and discards all results |
| Enrichment.FallbackCompletes | serasa_app.py:124-141 | with no cancel during the fallback, it queries the whole batch and appends exactly what succeeds |
| Enrichment.FallbackCancels | serasa_app.py:124-129 | a cancel seen at the `m`-th fallback checkpoint stops after `m` lookups, emits progress 0 and an empty `finished`, and discards all results |
| Enrichment.FallbackYieldMembers | serasa_app.py:130-141 | the fallback yields exactly the successful lookups, each as `{cpf: queried CPF, userID: id, name: name}` |
| Enrichment.StepBatchSucceeds | serasa_app.py:119-121 | a successful batch request is one lookup, then progress; its whole list is appended |
| Enrichment.StepFallbackCompletes | serasa_app.py:119-145 | a failed batch request is followed by one lookup per CPF, then progress; what the fallback yields is appended |
| Enrichment.StepFallbackCancelled | serasa_app.py:122-129 | a fallback that sees the flag ends the turn with progress 0 and an empty `finished`, and no results |
| Enrichment.StepResults | serasa_app.py:118-145 | a turn that is not cancelled appends what its batch yields; a cancelled one leaves no results |
| Enrichment.StepProgress | serasa_app.py:122-145 | a turn reports `Percent(idx, total)` for its batch, or 0 when it is cancelled |
| Enrichment.StepTerminal | serasa_app.py:122-129 | a turn emits a terminal signal only when cancelled, and then exactly one, an empty `finished` right after progress 0, at its end |
| Enrichment.StepChecks | serasa_app.py:118-129 | a turn makes one batch lookup and one checkpoint per single lookup, plus the one that stops it; no checkpoint before the last sees the flag, and the last of a cancelled turn does |
| Enrichment.StepQueries | serasa_app.py:118-137 | a turn sends its own batch, and single lookups only for CPFs of that batch |
| Enrichment.EnrichResults | serasa_app.py:104-145 | a loop that runs to the end keeps the earlier results and appends what every batch yields, in order; a cancelled loop leaves no results |
| Enrichment.EnrichProgress | serasa_app.py:111-145 | a loop that runs to the end reports `Percent(idx, total)` after each batch; a cancelled one reports the batches it finished, then 0 |
| Enrichment.EnrichTerminal | serasa_app.py:111-145 | a loop that runs to the end emits no terminal signal; a cancelled one emits exactly one, an empty `finished` right after progress 0, at the very end |
| Enrichment.EnrichChecks | serasa_app.py:112-125 | the flag is polled before every batch and every fallback lookup; no checkpoint before the last saw it, and the last checkpoint of a cancelled loop did |
| Enrichment.EnrichQueries | serasa_app.py:111-141 | the loop only sends its own batches, and only CPFs from them alone; a loop that runs to the end sends every batch once, in order |
| Enrichment.EnrichCancelBound | serasa_app.py:112-129 | a cancel before checkpoint `j` allows at most `j - k` further lookups |
| Pipeline.Batches | serasa_app.py:109 | the comprehension over `range(0, total_cpfs, lote_size)`: no batch for a negative size, `Chunk` otherwise; `BatchesCover` states it |
| Pipeline.BatchesCover | serasa_app.py:109 | a negative batch size makes no batch; a positive one gives batches of 1 to `lote_size` CPFs that concatenate back to the list |
| Pipeline.Rows | serasa_app.py:58-83 | the selected and normalised table of a loaded source |
| Pipeline.Enriches | serasa_app.py:100-111 | a run reaches the batch loop exactly when the source loads, some CPF is valid and the batch size is not zero; `ShortRuns` states the other runs |
| Pipeline.Finish | serasa_app.py:167-170 | progress 100, then `finished` with `df_final`; `FinishTrace` states it |
| Pipeline.Complete | serasa_app.py:104-170 | the run from the batch loop on; `CompleteTrace` and the other `Complete…` lemmas state it |
| Pipeline.RunSpec | serasa_app.py:34-173 | reference definition of one `run`; the `Run…` lemmas state its properties and `ProcessWorker.Run` is proved to emit exactly its trace |
| Pipeline.FinishTrace | serasa_app.py:168-170 | a successful run ends with progress 100, then one `finished` |
| Pipeline.CompleteTrace | serasa_app.py:104-170 | from the loop on, a run is the loop followed, unless cancelled, by progress 100 and `finished` with the merged table |
| Pipeline.ShortRuns | serasa_app.py:34-173 | an unreadable source emits only `error` with its message; a zero batch size with a valid CPF emits only `error` with the message of `range()`; with no valid CPFs there is no lookup, then progress 100 twice and `finished` with the table in which every row is unmatched |
| Pipeline.OneTerminalIsLast | serasa_app.py:34-173 | a trace with a single terminal signal at the end has none before it |
| Pipeline.RunEndsOnce | serasa_app.py:34-173 | every run ends with exactly one `finished` or `error` and emits nothing after it |
| Pipeline.CompleteProgress | serasa_app.py:111-168 | from the loop on, progress stays in 0..100; without a cancel it never goes down and ends at 100, and with one it ends at 0 |
| Pipeline.RunProgress | serasa_app.py:105-168 | progress stays in 0..100; a run that is not cancelled never lowers it and ends at 100 unless it failed; a cancelled run reports 0 last |
| Pipeline.CompleteCancelled | serasa_app.py:112-129 | a cancelled loop has seen the flag and ends with progress 0 and an empty `finished`; with at least one batch, a flag set from the start stops it before any lookup |
| Pipeline.RunCancelled | serasa_app.py:104-129 | a run is cancelled only in the loop and after a checkpoint saw the flag; it then ends with progress 0 and an empty `finished`, and a flag set before the run emits only that when the run reaches the batch loop with a positive batch size |
| Pipeline.CompleteQueries | serasa_app.py:109-141 | from the loop on, only CPFs of the batches are sent, and a run that is not cancelled sends every batch once, in order |
| Pipeline.RunQueries | serasa_app.py:100-141 | every CPF sent, batched or alone, is a valid CPF of the table; batches hold 1 to `lote_size` CPFs; a run that is not cancelled sends batches that together are the valid-CPF list |
| Pipeline.RunCancelBound | serasa_app.py:111-129 | a cancel before checkpoint `j` bounds the lookups of the whole run to `j` |
| Pipeline.CompleteTable | serasa_app.py:147-170 | a run that is not cancelled finishes with the merge of the table and what every batch yields |
| Pipeline.RunSuccessTable | serasa_app.py:104-170 | a run that reaches the loop and is not cancelled finishes with the merge of the table and, in batch order, each batch's list or its fallback's successes |
| Worker.ProcessWorker.constructor | serasa_app.py:25-29 | a new worker has the given batch size (10 by default), its flag down and no events |
| Worker.ProcessWorker.Cancel | serasa_app.py:31-32 | `cancel` sets the flag, so calling it again changes nothing |
| Worker.ProcessWorker.Checkpoint | serasa_app.py:112 | a poll sees the flag exactly when it was set before the run or a cancel arrived just before that poll |
| Worker.ProcessWorker.LookUpEach | serasa_app.py:124-141 | the per-CPF loop emits and returns exactly what `Fallback` prescribes |
| Worker.ProcessWorker.LookUpBatch | serasa_app.py:118-145 | one batch turn emits and returns exactly what `Step` prescribes |
| Worker.ProcessWorker.LookUpBatches | serasa_app.py:104-145 | the batch loop emits and returns exactly what `Enrich` prescribes, and the flag is up afterwards exactly when it was before or the loop was cancelled |
| Worker.ProcessWorker.LookUpAndMerge | serasa_app.py:104-170 | the batch loop followed, unless cancelled, by progress 100 and `finished` with the merged table emits exactly what `Complete` prescribes |
| Worker.ProcessWorker.Run | serasa_app.py:34-173 | `run` appends exactly the trace of `RunSpec` to the event log, and leaves the flag up exactly when it was up before or the run was cancelled |

## Behaviour of the code worth knowing

These are facts about `serasa_app.py` as written; the model has each of them.

- With no valid CPF the code emits progress 100 twice, once at line 107 and once at line 168,
  before `finished`.
- `drop_duplicates` runs on the merged table before the projection. It compares every merged
  column, including `name` and `cpf_valido`, so the exported table can still hold equal rows
  (`Merge.ProjectionKeepsRepeats`).
- A batch size of 0 makes `range()` raise. The run then ends in `error`, but only when there is a
  valid CPF. A negative batch size makes no batch: the run makes no lookup and finishes with
  every row unmatched.
- The single-CPF fallback does not check the HTTP status. Any reply whose body parses as a JSON
  object is appended, with a null id and name when the body lacks them. The model's
  `Success(UserInfo(None, None))` covers that reply.

## Left out

- Reading the archive and the CSV (missing file, empty archive, parse errors, fewer than nine
  columns): these are I/O, modelled as `Source.Unreadable(message)`, which ends the run in `error`.
- Positional column selection: the model names the columns. Column 5 is taken to be 'CPF', as
  in the exports the tool is used with.
- Date parsing and formatting (`to_datetime(errors='coerce')`, `strftime`): library behaviour.
  The request date passes through unchanged, and the resolution date is null.
- pandas dtype coercion: every cell is a string or null. In the code a CPF read as a float
  becomes text ending in `.0`. Likewise, when the service returns numeric ids and any joined
  row is unmatched, pandas makes the `userID` column float, so `account_id` is the digest of
  text such as `"123.0"` rather than `"123"`; the model applies `hash` to the id as the reply gave it.
- Unicode digits: `\D` in the source also keeps non-ASCII digits; the model keeps only '0'..'9'.
- HTTP, JSON decoding and timeouts: each endpoint is a total function from the request to
  `Success` or `Failure`. Each request is answered the same way every time it is sent.
- SHA-256: the parameter `hash`. Only the null-in, null-out rule and its use on `userID` are modelled.
- Log lines (`log.emit`): they change nothing the caller can rely on, so they are not in the trace.
- Threads and signal delivery: a `cancel()` call from the interface thread is modelled as a
  request applied at the next checkpoint. A call after the last checkpoint has no effect on the
  run, as in the source.
- Exceptions raised during the merge (for example, a non-text `cpf` in a batch reply): the merge
  is total in the model, so the only `error` endings are the unreadable source and the zero batch size.
- Enrichment.Percent: progress is integer `idx * 100 / total`, not the float expression
  `int(idx / total * 100)`; these can differ by one (29 of 100 gives 28 in floating point).
  The bounds, the monotonicity and the final 100 hold for both.
- Merge.DropDuplicates: the contract states that no row repeats and that the same rows remain. It
  does not state that the first occurrence of each row is kept in order, although the definition does that.
- The `SerasaApp` window, its buttons and the Excel export: user interface and I/O.
