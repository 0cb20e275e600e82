# dtail: verified models of its output path, mapreduce engine, grep filters and session protocols

This project models the parts of dtail in which several goroutines or several machines have to agree, and
the fast paths that have to agree with a simple definition, and proves that they do.

- **The end of an output batch.** Any number of read commands join one output session. Each enables output
  mode and bumps an epoch, registers and completes its files, captures the epoch, looks at the pending count
  and may signal the end of the batch; one reader drains the channel and may switch the mode off.
  `OutputManager.dfy` holds the manager's state and its methods, `OutputProtocol.dfy` every interleaving,
  `OutputRuns.dfy` what happens over whole runs: when a batch ends, when the input is finished, what arrives.
- **Distributed aggregation.** Lines pass through a server's batch, its live group sets, a swapped-out
  snapshot, the wire, the client's group for that server and the global group; a cancelled serialisation puts
  its unsent rest back. `AggregateSet.dfy` has the aggregation algebra, `AggregateWire.dfy` the text form,
  `Groups.dfy` the group sets, `Pipeline.dfy` every schedule of the whole pipeline, `Schedules.dfy` which
  results depend on the schedule, `Deliveries.dfy` the pipeline's messages as text; `Decimals.dfy` exhibits
  numbers that meet what those theorems ask of printing and parsing. `AggregateMeaning.dfy` says without folds
  what the aggregate functions compute, `Utf8.dfy` what len() counts.
- **Projection pushdown.** `Query.dfy` evaluates a query on a line and computes the parser's field plan,
  `Pushdown.dfy` compares parsing the planned fields with parsing all of them. `QueryMeaning.dfy` and
  `ParserMeaning.dfy` pin down the where clause, the group key and the two log formats independently.
- **Grep with context.** `ContextGrep.dfy` says without state which lines are selected, `GrepFilters.dfy` has
  the file filter and the journal filter with their buffers.
- **Bytes on the wire.** `LineSplitter.dfy` cuts files into lines under any chunking, `NetworkWriter.dfy`
  batches lines under any interleaving, `ServerReads.dfy` merges four channels into one stream,
  `Framing.dfy` has both receivers, `GenerationOutput.dfy` the generation tags, `ClientView.dfy` what the
  messages say to a client that splits them at their field delimiters.
- **Sessions and keys.** `SessionReload.dfy` reloads a query on all connections and rolls back,
  `ClientSession.dfy` keeps query generations apart on the client, `ClientCounts.dfy` counts every message
  once, `AuthKeyStore.dfy` caches keys.

Code that works by changing fields is a class whose methods are proved against functions on the value of
those fields; the theorems over whole runs are about those functions. A lock-protected method or an atomic
counter access is one step of a state machine, and runs are arbitrary sequences of steps.

## What the proofs found

- Merging two aggregate sets reads a missing number as 0. It equals aggregating the concatenated lines exactly
  when `MergeSafe` (for the re-merge, `RemergeSafe`) holds; `MergeLosesMinimum` is a group that loses its
  minimum. Over whole runs this makes a positive minimum or a negative maximum depend on the schedule as soon
  as one line of the group reaches a set without the field: `AgreementIff` is the exact condition.
- The comment on `aggregate()` (internal/mapr/server/aggregate.go, lines 319 to 321) says that sets without
  samples do not enter the map. `EmptySetEntersTheMap` states exactly when one does: when every selected field
  of the line fails to parse. The model follows the code.
- The set clause looks up the text of a float literal as a field name, but the plan never asks for it.
  `SetClauseIsPlannableIff` gives the exact condition on the fields the set clause produces,
  `UnsoundSourceChangesTheResult` turns every violation that a csv column can carry into a csv file with a
  different result, and `FloatLiteralColumnShows` is one query and one line.
- The plan skips empty field names, which a query can write as two backticks and a csv header can hold.
  `EmptyNamesIff` gives the exact condition on the group-by and select clauses, `EmptyColumnShows` one query
  and one line.
- A group key can be taken apart again exactly when no group-by value holds a comma (`GroupKeyReadsBack`);
  `CommaMergesGroups` puts two different lines into one group.
- A terminated line whose length is a non-zero multiple of the line limit is split differently under different
  read chunkings; `ChunkingIsInvisibleIff` shows that nothing else is.
- The message delimiter is the single byte 0xAC. It also ends the UTF-8 form of the euro sign (section 3 of
  RFC 3629), so a line with a euro sign reaches the client as two messages: `EuroSignIsCutInTwo`.
- In a plain session without a generation, a line that starts like a generation tag arrives without that
  beginning (`PlainLineLosesTagText`). `PayloadCarriesItsLines` gives the exact condition; lines with a header
  are never affected (`RemoteBatchIsNotTagged`).
- After one server other than the first refused a reload, the connections' generations differ
  (`OneRefusalSkews`), and from then on every reload fails although every server accepts every request
  (`SkewIsForever`): the commit check wants equal generations, and the rollback moves the connections it
  touched on by equal amounts. A first connection that times out is rolled back under the generation of the
  lost request: `FirstTimeoutReusesGeneration`.
- Query data is kept apart by generation number only. A list of committed generations has a run in which data
  of one query ends up in another one's result if and only if it repeats a number: `QueriesMixIff`.
- `CaptureMustPrecedeTheCheck` exhibits the run for which the epoch has to be captured before the pending
  count is read.

## Model

| member | source | states |
|---|---|---|
| `OutputProtocol.WritersAreNeverCutOff` | internal/server/handlers/readcommand.go:172-254 | in every reachable state of any number of commands and the reader, while a file is between its enable and its completion, output mode is on and the current EOF channel is unsignalled |
| `OutputProtocol.NothingIsStranded` | internal/server/handlers/output_manager.go:362-518 | in every reachable state with output mode off the channel and the remainder buffer are empty |
| `OutputProtocol.WaitersNeverHoldADeadHandshake` | internal/server/handlers/output_manager.go:141-197 | every replaced EOF-ack channel was closed, so a waiter holds the current one or a closed one |
| `OutputProtocol.InputFinishedIsNotLost` | internal/server/handlers/shutdown_coordinator.go:30-83 | no lost wake-up: with no pending file, some completed one and no coordinator in its grace check, the end of input has been signalled |
| `OutputProtocol.PendingCountsOpenFiles` | internal/server/handlers/readcommand_server.go:137-153 | the pending counter equals the number of registered, uncompleted files in every reachable state |
| `OutputProtocol.CaptureMustPrecedeTheCheck` | internal/server/handlers/readcommand.go:172-254 | a reachable state where a signal under the current epoch would cut off a joiner and the captured epoch does not |
| `OutputProtocol.InvStep` | internal/server/handlers/readcommand.go:172-254 | every step of a command or the reader keeps the inductive invariant |
| `OutputProtocol.InvRun` | internal/server/handlers/readcommand.go:172-254 | so does every run |
| `OutputProtocol.ReaderStepKeeps` | internal/server/handlers/output_manager.go:362-518 | the reader keeps epoch and handshake, and switches the mode off only when EOF is signalled and everything is drained, closing the ack channel |
| `OutputRuns.ModeGoesOffAfterQuiet` | internal/server/handlers/output_manager.go:492-518 | in every run, a read that switches the mode off comes at least the quiet period after a read of the same handshake that found EOF signalled and the channel empty, and nothing was sent in between |
| `OutputRuns.SignalledBatchEnds` | internal/server/handlers/output_manager.go:362-518 | from every reachable state with EOF signalled, reads alone switch the mode off with nothing left behind and acknowledge the handshake of everyone who waits |
| `OutputRuns.BatchCanEnd` | internal/server/handlers/readcommand.go:192-254 | from every reachable state in which a command that signals has read its files and no file is open, the command and the reader can end the batch and the command has its acknowledgement |
| `OutputRuns.SignallersRun` | internal/server/handlers/readcommand.go:218-219 | in every run only cat, grep and tail commands get into the EOF epilogue |
| `OutputRuns.FinishIsJustified` | internal/server/handlers/shutdown_coordinator.go:61-82 | in every reachable state, a step that signals the end of the input does so with no file pending, some file completed and an aggregate fed by one-shot reads |
| `OutputRuns.FinishedAfterTheEnd` | internal/server/handlers/shutdown_coordinator.go:61-82 | every run that ends with the input finished has passed such a state at the end of a coordinator's grace |
| `OutputRuns.OnlyTheReaderTakes` | internal/server/handlers/output_manager.go:141-247 | no step of a command takes a payload off the channel or touches the remainder |
| `OutputRuns.StreamIsTheData` | internal/server/handlers/output_manager.go:362-487 | over every run the payloads taken are the first ones sent, in order, and the bytes handed out with the remainder are the data of those that have no generation, the active one, or were read without an active one |
| `OutputManagers.OutputManager.EnableOutput` | internal/server/handlers/output_manager.go:141-169 | the whole new state of enabling: epoch, mode, channel, and a fresh handshake if off or already signalled |
| `OutputManagers.OutputManager.ResetEOFHandshake` | internal/server/handlers/output_manager.go:193-197 | a new, unsignalled pair of EOF channels |
| `OutputManagers.OutputManager.Signal` | internal/server/handlers/output_manager.go:228-247 | EOF is signalled only under the current epoch |
| `OutputManagers.OutputManager.SignalEOFAck` | internal/server/handlers/output_manager.go:252-265 | the current ack channel is closed |
| `OutputManagers.OutputManager.AcknowledgeIfQuiet` | internal/server/handlers/output_manager.go:492-518 | the mode goes off only after a signalled EOF and a quiet period with an empty channel |
| `OutputManagers.QuietReadsEnd` | internal/server/handlers/output_manager.go:492-518 | two reads of a drained, signalled batch at least the quiet period apart switch the mode off and close the current ack channel |
| `OutputManagers.ModeNeedsQuiet` | internal/server/handlers/output_manager.go:492-518 | a read switches the mode off only in a drained, signalled batch that has been quiet for the period |
| `OutputManagers.OutputManager.Read` | internal/server/handlers/output_manager.go:362-487 | the remainder goes first, stale payloads are skipped, the first live one fills the slice and its rest is kept |
| `OutputManagers.ReceiveDeliversWhole` | internal/server/handlers/output_manager.go:466-487 | what a receive hands out and keeps is exactly the decoded first live payload, and everything before it was stale |
| `OutputManagers.ReceiveFillsSlice` | internal/server/handlers/output_manager.go:466-487 | a remainder is kept only when the slice is full |
| `OutputManagers.ReceiveKeeps` | internal/server/handlers/output_manager.go:362-518 | a receive changes neither epoch nor handshake, and how it can switch the mode off |
| `OutputManagers.FirstLiveMeans` | internal/server/handlers/basehandler.go:494-507 | the payload a read delivers is not dropped, and everything in front of it is |
| `OutputManagers.ReadsFirstOfGeneration` | internal/server/handlers/basehandler.go:494-507 | on a channel of payloads tagged with generations, a read takes off the ones of another generation in front, hands out and keeps exactly the data of the first one of the active generation, and reports nothing if there is none |
| `GenerationOutput.DecodeInvertsEncode` | internal/server/handlers/generation_output.go:30-75 | decoding inverts encoding for every generation above 0 and every payload, decimal print and parse included |
| `GenerationOutput.UntaggedSurvives` | internal/server/handlers/generation_output.go:30-75 | a payload of generation 0 survives exactly when it does not itself read as tagged |
| `GenerationOutput.DecodesTagged` | internal/server/handlers/generation_output.go:37-54 | the decoder reports nothing but a well-formed tag |
| `GenerationOutput.TaggedDecodes` | internal/server/handlers/generation_output.go:37-54 | every well-formed tag is decoded |
| `Bytes.DecimalValue` | internal/server/handlers/generation_output.go:30-35 | the printed number parses back |
| `Bytes.FirstDigitWeighsMost` | internal/server/handlers/generation_output.go:30-35 | decimal text is read with the first digit weighing most |
| `AggregateSets.MergeIsConcatenation` | internal/mapr/aggregateset.go:38-72 | merging two sets equals aggregating the concatenated lines if and only if the merge is safe for that operation; samples always agree |
| `AggregateSets.RemergeIsConcatenation` | internal/mapr/server/aggregate.go:443-486 | re-merging a snapshot into live state equals aggregating the snapshot's lines and then the live lines, for every operation including last and len, if and only if the re-merge is safe |
| `AggregateSets.PresentIsSafe` | internal/mapr/aggregateset.go:38-72 | both are safe when the other side holds the field |
| `AggregateSets.MergeLosesMinimum` | internal/mapr/aggregateset.go:55-60 | a concrete group whose minimum is lost in a merge |
| `AggregateSets.FoldCell` | internal/mapr/aggregateset.go:155-203 | aggregating rows with all entries at once computes for each entry its own fold |
| `AggregateSets.CellFoldSplit` | internal/mapr/aggregateset.go:155-203 | the fold of one entry is a homomorphism from concatenation of rows |
| `AggregateMeanings.MinIsLeast` | internal/mapr/aggregateset.go:155-203 | min is one of the numbers of the group's lines and at most all of them, max at least all, for every query and any lines |
| `AggregateMeanings.SumIsSum` | internal/mapr/aggregateset.go:155-203 | sum, and what avg and percentage divide, is the sum of the numbers that parse |
| `AggregateMeanings.CountIsCount` | internal/mapr/aggregateset.go:155-203 | count is the number of lines that have the field |
| `AggregateMeanings.LastIsLast` | internal/mapr/aggregateset.go:155-203 | last is the text of the last line that has the field, len the length of its UTF-8 form |
| `AggregateMeanings.SamplesCount` | internal/mapr/server/aggregate.go:336-352 | the sample count is the number of lines that give some entry a value |
| `Utf8.ByteLenIsLength` | internal/mapr/aggregateset.go:176-179 | the length that len counts is that of an encoding which reads back as the text |
| `Utf8.DecodeInvertsEncode` | internal/mapr/aggregateset.go:176-179 | every character's encoding reads back as the character, whatever follows it |
| `AggregateSets.AggregateSet.AggregateValue` | internal/mapr/aggregateset.go:155-203 | one value under one operation, with the error cases that leave the set unchanged |
| `AggregateSets.AggregateSet.AggregateRow` | internal/mapr/server/aggregate.go:336-352 | one row under all select entries; samples grow if any entry took a value |
| `AggregateSets.AggregateSet.MergeSet` | internal/mapr/aggregateset.go:38-72 | the loop over the select entries computes the merge |
| `AggregateSets.AggregateSet.MergeCancelledSnapshot` | internal/mapr/server/aggregate.go:443-486 | the loop over the select entries computes the re-merge |
| `AggregateWire.ParseInvertsSerialize` | internal/mapr/client/aggregate.go:55-81 | parsing a serialised set restores key, samples and the text of every value, in any map order, for delimiter-free text; an empty set is rejected |
| `AggregateWire.ClientReceivesCells` | internal/mapr/client/aggregate.go:66-81 | folding a received set whose numbers survive printing and parsing into the client's set combines each entry's values as if its lines had been aggregated there |
| `AggregateWire.WritePairs` | internal/mapr/aggregateset.go:79-109 | whatever order ranging over the map takes, the text lists exactly the map's pairs |
| `AggregateWire.SerializeSet` | internal/mapr/aggregateset.go:79-109 | the message the two map loops build parses back to the set's key, samples and values |
| `Groups.EmptySetEntersTheMap` | internal/mapr/server/aggregate.go:319-353 | a set without samples enters the map if and only if every selected field present fails to parse |
| `Groups.ServerAggregate.Enqueue` | internal/mapr/server/aggregate.go:235-255 | a line joins the batch, and whether the batch is full |
| `Groups.ServerAggregate.TakeBatch` | internal/mapr/server/aggregate.go:267-277 | the batch is taken whole |
| `Groups.ServerAggregate.ProcessBatch` | internal/mapr/server/aggregate.go:279-290 | every line of the batch is aggregated in order |
| `Groups.ServerAggregate.AggregateFields` | internal/mapr/server/aggregate.go:322-353 | one line goes into its group, created only if a selected field is present |
| `Groups.ServerAggregate.SwapGroupSets` | internal/mapr/server/aggregate.go:488-499 | the live sets become the snapshot and start empty |
| `Groups.ServerAggregate.MergeRemaining` | internal/mapr/server/aggregate.go:428-441 | the unsent sets are re-merged group by group |
| `Groups.MergeIntoGlobal` | internal/mapr/globalgroupset.go:49-57 | the global group merges every group of a server |
| `Pipeline.DistributedEqualsDirect` | internal/mapr/server/aggregate.go:235-499 | for any servers and any schedule of batches, serialisations, cancelled serialisations, deliveries, failed non-blocking merges and flushes, once nothing is batched, live, swapped out, on the wire or unmerged, every group has the samples of one direct aggregation of all accepted lines and the same value of every sum-like entry; a minimum or maximum is the direct one too, except that 0 may stand in for a positive minimum or a negative maximum of a group in which some line that reaches a set lacks the field |
| `Schedules.AgreementIff` | internal/mapr/aggregateset.go:38-72 | a group shows the direct value of an entry in every run over the lines if and only if its lines that reach a set carry the field or the direct value does not lose to a zero |
| `Schedules.ZeroSchedule` | internal/mapr/server/aggregate.go:428-499 | for every group with a line that reaches a set without the field and one that carries it, a whole run with a cancelled serialisation that ends with a minimum of at most 0 or a maximum of at least 0 |
| `Schedules.RunKeepsLow` | internal/mapr/aggregateset.go:38-72 | once a missing value was read as 0 anywhere, every later state of every run still holds a minimum of at most 0 or a maximum of at least 0 for that group |
| `Schedules.EveryRunCanFinish` | internal/mapr/server/aggregate.go:235-499 | every run can be continued, without accepting another line, until nothing is on its way |
| `Schedules.NextStep` | internal/mapr/server/aggregate.go:235-499 | in every state with work left some step of the pipeline is enabled and leaves less of it |
| `Deliveries.TextIsTheSet` | internal/mapr/client/aggregate.go:41-93 | in every reachable state, receiving the text of a message, its maps written in any order, does to the client's group what the delivery step does with the set, for delimiter-free group keys, field values and storages |
| `Deliveries.PacketsAreSendable` | internal/mapr/aggregateset.go:79-109 | every set on the wire meets the conditions of the text form |
| `Deliveries.SendableStep` | internal/mapr/server/aggregate.go:322-499 | every step keeps every set on a server or on the wire within those conditions |
| `Pipeline.DirectExact` | internal/mapr/server/aggregate.go:322-353 | one aggregate over all lines shows exactly what the lines amount to, missing fields included |
| `Pipeline.GlobalHoldsAll` | internal/mapr/server/aggregate.go:322-353 | lines that formed no set amount to nothing, so a quiescent global group holds all lines |
| `Decimals.WholeQueryIsLawful` | internal/mapr/aggregateset.go:79-109 | exact integers in decimal meet every condition the pipeline theorem puts on numbers |
| `Decimals.WholeCodecIsLawful` | internal/mapr/client/aggregate.go:55-81 | and every condition the text form puts on printing |
| `Pipeline.InvRun` | internal/mapr/client/aggregate.go:41-118 | in every run each place holds exactly the lines that are there |
| `Pipeline.InvStep` | internal/mapr/client/aggregate.go:41-118 | every step keeps that |
| `Pipeline.DirectHolds` | internal/mapr/server/aggregate.go:322-353 | the direct aggregation is the value of all lines |
| `Pipeline.HoldsMerge` | internal/mapr/globalgroupset.go:29-57 | merging and re-merging group sets adds their disjoint sets of lines |
| `Pipeline.HoldsReceive` | internal/mapr/client/aggregate.go:55-93 | receiving a serialised group adds its lines |
| `Queries.ParserFieldPlan` | internal/mapr/parserfieldplan.go:30-81 | the plan holds exactly the raw fields the query needs |
| `Queries.RunSetClause` | internal/mapr/setclause.go:4-18 | assignments in order, later ones see earlier ones |
| `Queries.BuildGroupKey` | internal/mapr/server/groupkey.go:9-31 | the group key over the group-by fields |
| `QueryMeanings.NumbersCompare` | internal/mapr/wherecondition.go:170-188 | less means that a positive number is missing, equal is equality, and the other four comparisons are its exchange and complements |
| `QueryMeanings.NumbersAreOrdered` | internal/mapr/wherecondition.go:170-188 | of less, equal and greater exactly one holds |
| `QueryMeanings.NumberIsMissing` | internal/mapr/whereclause.go:10-97 | a missing or unparsable operand rejects the line under every comparison of numbers |
| `QueryMeanings.TextsCompare` | internal/mapr/wherecondition.go:190-212 | contains, prefix and suffix in terms of concatenation |
| `QueryMeanings.NegationsAreComplements` | internal/mapr/wherecondition.go:190-212 | the negated comparisons are the complements on operands that are present |
| `QueryMeanings.TextIsMissing` | internal/mapr/whereclause.go:10-97 | a missing operand rejects the line under every comparison of texts |
| `QueryMeanings.WhereIsConjunction` | internal/mapr/whereclause.go:10-97 | one more condition keeps exactly the lines that meet it too |
| `QueryMeanings.GroupKeyReadsBack` | internal/mapr/server/groupkey.go:9-31 | the key splits at the commas into the group-by values in order if and only if no value holds a comma |
| `QueryMeanings.SameGroupIff` | internal/mapr/server/groupkey.go:9-31 | lines of comma-free values share a group if and only if they agree on every group-by field |
| `QueryMeanings.CommaMergesGroups` | internal/mapr/server/groupkey.go:9-31 | two lines with different group-by values and the same key |
| `Pushdown.PushdownIsInvisible` | internal/mapr/server/aggregate.go:292-353 | for every query and every line, default format and csv, that names no field which only a float literal or an empty name of the query refers to, the planned parse gives the same ignore, error, where decision, group key and selected values as the full parse |
| `Pushdown.PlannedParseIsRestriction` | internal/mapr/logformat/default.go:57-227 | parsing under a plan yields the full parse restricted to the plan, with the same ignore and error outcome |
| `Pushdown.EvaluateAgrees` | internal/mapr/whereclause.go:10-97 | under the same condition on the fields, evaluating over the restricted fields equals evaluating over all |
| `Pushdown.SetClauseIsPlannableIff` | internal/mapr/setclause.go:4-18 | the fields the set clause produces agree for every field map if and only if every source is planned, produced earlier or irrelevant |
| `Pushdown.UnsoundSourceShows` | internal/mapr/setclause.go:6-9 | for every unsound source a field map that shows it |
| `Pushdown.UnsoundSourceShowsInCsv` | internal/mapr/logformat/csv.go:36-104 | for every unsound source that a csv column can carry, a header and a line whose parse shows it |
| `Pushdown.UnsoundSourceChangesTheResult` | internal/mapr/server/aggregate.go:292-353 | and if one of the two parses passes the where clause and the query selects the assigned field, the two parses of that line give different results |
| `Pushdown.EmptyColumnShows` | internal/mapr/parserfieldplan.go:38-43 | a query with an empty group-by name and a csv file with an empty column name get different group keys under the plan |
| `Pushdown.EmptyNamesIff` | internal/mapr/parserfieldplan.go:38-81 | for every query without where clause whose set clause can be planned, all csv files give the same results under the plan if and only if neither group-by nor select reads the empty name from the line |
| `Pushdown.EmptyNameShows` | internal/mapr/parserfieldplan.go:38-43 | every query that reads the empty name shows the plan on every line with a value under it |
| `Pushdown.FloatLiteralColumnShows` | internal/mapr/parserfieldplan.go:58-66 | a concrete query, csv header and line with a different group key and selected value under the plan |
| `Pushdown.MakeDefaultFields` | internal/mapr/logformat/default.go:57-147 | the token loop computes the default format's fields |
| `Pushdown.CsvParser.ParseHeader` | internal/mapr/logformat/csv.go:91-104 | the header loop splits the line |
| `Pushdown.CsvParser.MakeFields` | internal/mapr/logformat/csv.go:36-89 | a source's first line becomes its header, later lines are parsed under it |
| `Pushdown.ScanIsSplit` | internal/mapr/logformat/delimited.go:5-12 | scanning from a position peels off the first part of the rest |
| `ParserMeanings.CsvMeans` | internal/mapr/logformat/csv.go:36-89 | a csv line is an error exactly if it has more values than the header names; otherwise each value is the field of its own column, the last one of a repeated name |
| `ParserMeanings.CsvCommon` | internal/mapr/logformat/default.go:149-171 | a name without a column is one of the seven common fields with its value, or absent |
| `ParserMeanings.DefaultOutcome` | internal/mapr/logformat/default.go:57-147 | a default-format line is ignored exactly if it has fewer than eleven tokens, no INFO or no mark, and an error exactly if a later token has no equals sign |
| `ParserMeanings.KeyMeans` | internal/mapr/logformat/default.go:184-191 | the last key-value token with a key sets that field |
| `ParserMeanings.HeadMeans` | internal/mapr/logformat/default.go:64-130 | which token, and which part of the time, every other field of a parsed line is; names outside the table are absent |
| `ContextGrep.GrepSelects` | internal/io/fs/readfile_processor.go:276-359 | the specification selects exactly the kept lines under their true numbers, in order, without duplicates |
| `ContextGrep.GrepMiss` | internal/io/fs/readfile_processor.go:276-359 | what a line that does not match adds to the output |
| `ContextGrep.GrepHit` | internal/io/fs/readfile_processor.go:276-359 | what a match within the maximum adds: the waiting lines in front of it and itself |
| `ContextGrep.StopIsFinal` | internal/io/fs/readfile_processor.go:276-359 | after the early stop no later line could be selected |
| `ContextGrep.GrepGrows` | internal/io/fs/readfile_processor.go:276-359 | more input only adds to the end of the output |
| `GrepFilters.GrepFile` | internal/io/fs/readfile_processor.go:202-359 | reading a file through its filter emits exactly the specified lines, for all settings and inputs, and a beginning of them if the processor fails |
| `GrepFilters.GrepJournal` | internal/io/journal/filter.go:73-196 | the journal filter emits exactly the same specified lines, and a beginning of them if the sink fails |
| `GrepFilters.FileFilter.ProcessLine` | internal/io/fs/readfile_processor.go:202-359 | one line keeps the filter's state equal to what the seen lines determine; a buffer handed on stays handed on, also after a failure, when the output is a beginning of what the seen lines select |
| `GrepFilters.FileFilter.Hit` | internal/io/fs/readfile_processor.go:276-359 | a match under the before, after and maximum settings |
| `GrepFilters.FileFilter.EmitBefore` | internal/io/fs/readfile_processor.go:276-359 | the before lines go out under their true numbers |
| `GrepFilters.JournalFilter.Process` | internal/io/journal/filter.go:73-139 | one line keeps the filter's state equal to what the seen lines determine, and every buffer is emitted, recycled or remembered exactly once |
| `GrepFilters.JournalFilter.Hit` | internal/io/journal/filter.go:106-139 | a match under the before, after and maximum settings |
| `GrepFilters.JournalFilter.Miss` | internal/io/journal/filter.go:141-165 | a line that does not match is emitted, remembered or recycled |
| `GrepFilters.JournalFilter.RememberBefore` | internal/io/journal/filter.go:167-177 | the oldest remembered line is recycled when the context is full |
| `GrepFilters.JournalFilter.EmitBefore` | internal/io/journal/filter.go:179-189 | remembered lines are emitted in order; after an error the rest is recycled |
| `GrepFilters.JournalFilter.Close` | internal/io/journal/filter.go:81-86 | when Close returns every buffer ever received was emitted or recycled exactly once |
| `LineSplitter.ChunkingIsInvisibleIff` | internal/io/fs/readfile_processor_optimized.go:192-239 | the token list is the same under every chunking if and only if no terminated line's length is a non-zero multiple of the limit |
| `LineSplitter.TokensRebuildInput` | internal/io/fs/readfile_processor_optimized.go:146-239 | under every chunking the tokens concatenate to the input, and each is at most the limit plus a newline in last place |
| `LineSplitter.CutShape` | internal/io/fs/readfile_processor_optimized.go:192-239 | every cut the splitter can make, without naming the data it was shown |
| `LineSplitter.CutShowsItself` | internal/io/fs/readfile_processor_optimized.go:192-239 | every cut also happens when exactly its own bytes are shown, so every token list comes from reading token by token |
| `LineSplitter.WholeTokens` | internal/io/fs/readfile_processor_optimized.go:192-239 | every input can be cut to its end, so the scanner cannot get stuck |
| `NetworkWriters.NothingIsLostOrReordered` | internal/server/handlers/line_writer.go:432-531 | in every interleaving of writers and flushes, the batches that left, the batch in flight and the buffer are all formatted lines in lock order, and the byte statistic counts them |
| `NetworkWriters.SendsNeverOverlap` | internal/server/handlers/line_writer.go:481-512 | at most one goroutine is sending |
| `NetworkWriters.FullBuffersLeave` | internal/server/handlers/line_writer.go:464-477 | with nobody sending, exactly a line that fills the buffer to its size takes the whole buffer along |
| `NetworkWriters.FlushCanFinish` | internal/server/handlers/line_writer.go:637-676 | from every reachable state a started Flush can return nil with every line written so far handed over |
| `NetworkWriters.FlushCoversWhatWasWritten` | internal/server/handlers/line_writer.go:637-676 | a Flush that returned nil covers every line written before it returned, whatever ran beside it; if none was written since, nothing is buffered or in flight |
| `NetworkWriters.PayloadCarriesItsLines` | internal/server/handlers/line_writer.go:536-616 | a batch's payload is read back as whole frames of exactly its lines: always in a session with a generation, and in one without if and only if the batch does not read as tagged |
| `NetworkWriters.RemoteBatchIsNotTagged` | internal/server/handlers/protocol_formatter.go:12-29 | batches of lines with a header never read as tagged |
| `NetworkWriters.RemoteLineStartsWithHeader` | internal/server/handlers/line_writer.go:451-456 | lines of sessions that are neither plain nor serverless have that header |
| `NetworkWriters.PlainLineLosesTagText` | internal/server/handlers/generation_output.go:56-75 | a plain line that starts like a tag arrives without that beginning |
| `NetworkWriters.InvStep` | internal/server/handlers/line_writer.go:432-531 | every step keeps the single sender, conservation and what returned flushes cover |
| `NetworkWriters.NetworkWriter.WriteLineData` | internal/server/handlers/line_writer.go:432-477 | the locked part: append, count, and take the batch if the buffer is full and nobody sends; the bytes are the frames of whole lines |
| `NetworkWriters.NetworkWriter.TakeForFlush` | internal/server/handlers/line_writer.go:650-668 | the locked part of a flush |
| `NetworkWriters.NetworkWriter.FinishSending` | internal/server/handlers/line_writer.go:497-512 | the sending flag is lowered |
| `ServerReads.ServerHandler.Read` | internal/server/handlers/basehandler.go:138-247 | what a call returns and keeps are what was kept and the whole deliveries of the items it dequeued, in order; nothing is dequeued while a remainder is unsent |
| `ServerReads.ServerHandler.DrainReadBuf` | internal/server/handlers/basehandler.go:254-257 | the slice is filled and the rest kept |
| `ServerReads.ServerHandler.ReadOutput` | internal/server/handlers/basehandler.go:143-149 | one look at the output manager takes whole payloads |
| `ServerReads.ServerHandler.Dequeue` | internal/server/handlers/basehandler.go:158-231 | one message of any of the three channels becomes its frame or nothing |
| `ServerReads.StreamIsDeliveries` | internal/server/handlers/basehandler.go:138-257 | over every run of reads of any sizes the stream and the last remainder are the whole deliveries in order |
| `ServerReads.ClientGetsTheMessages` | internal/clients/handlers/basehandler.go:116-131 | end to end, for every reading and every chunking, the client has handled a prefix of the delimiter-free messages, and all of them once no remainder is left |
| `ServerReads.MessagesAreFrames` | internal/server/handlers/protocol_formatter.go:25-40 | server messages, aggregation messages and lines are one frame each |
| `ClientViews.ClientIsTold` | internal/clients/handlers/basehandler.go:116-131 | end to end with contents: over every run and every chunking the client's messages say, one for one and in order, what the dequeued items tell, and all of it once no remainder is left |
| `ClientViews.ItemConveys` | internal/server/handlers/basehandler.go:158-231 | every server message, aggregation message and log line arrives as one message that reads back as exactly its text, or as its five header fields and its content, and not at all if it is of another generation or hidden |
| `ClientViews.BatchConveys` | internal/server/handlers/line_writer.go:432-477 | a batch of the output path arrives as number, source and whole content of each of its lines, in order |
| `ClientViews.RemoteLineSays` | internal/server/handlers/protocol_formatter.go:12-29 | a remote line cut at its first five delimiters gives REMOTE, host, percentage, a text that parses to the line number, source and the whole content |
| `ClientViews.FieldsReadBack` | internal/clients/handlers/maprhandler.go:89-99 | fields joined by the delimiter are split into the same fields if none but the last holds it |
| `ClientViews.TaggedItemTells` | internal/server/handlers/basehandler.go:494-507 | messages tagged for a generation arrive exactly in sessions of that generation or without one |
| `ClientViews.TaggedPayloadArrives` | internal/server/handlers/basehandler.go:494-507 | and so do output payloads; bare ones always |
| `Framing.FramesPrefix` | internal/clients/handlers/basehandler.go:116-131 | delimiter framing has one reading |
| `Framing.ChunkingIsInvisible` | internal/clients/handlers/basehandler.go:116-131 | what a receiver has after a stream does not depend on the chunking |
| `Framing.RecoversIff` | internal/clients/handlers/basehandler.go:116-131 | the receiver gets exactly what was sent if and only if no message contains the delimiter |
| `Framing.EuroSignIsCutInTwo` | internal/protocol/protocol.go:7 | a euro sign is cut into two messages |
| `Framing.ClientHandler.Write` | internal/clients/handlers/basehandler.go:116-131 | the handled messages and the open one are always the reading of everything received |
| `Framing.ClientHandler.Read` | internal/clients/handlers/basehandler.go:143-173 | a command that did not fit is finished before the next is dequeued; bytes sent and pending are the dequeued commands |
| `Framing.ClientHandler.ConsumeCommand` | internal/clients/handlers/basehandler.go:180-186 | the slice is filled and the rest of the command kept |
| `Framing.CommandReader.Write` | internal/server/handlers/basehandler.go:267-292 | the session closes if and only if some command frame exceeds the limit; otherwise the handled commands and the open one are the reading of the input |
| `Framing.OversizedGrows` | internal/server/handlers/basehandler.go:273-286 | one more byte exceeds the limit exactly when the open frame is full and the byte is no delimiter |
| `Framing.CommandsArrive` | internal/clients/handlers/basehandler.go:100-186 | the server has run a prefix of the dequeued commands, and all of them once nothing is pending |
| `Framing.CommandsFitTheLimit` | internal/server/handlers/basehandler.go:267-292 | commands within the limit never make the server's open frame too long, whatever part was read and however the next part is cut |
| `Framing.DeliverCommands` | internal/server/handlers/basehandler.go:267-292 | for every chunking, commands within the limit leave the session open and are all run once nothing is pending |
| `SessionReload.SuccessIsUniform` | internal/clients/interactive_control.go:136-206 | a reload that succeeds leaves every connection committed to the new spec at one generation |
| `SessionReload.FailureIsUndone` | internal/clients/interactive_control.go:168-230 | a reload that fails asks every connection that acknowledged for its own earlier spec above the acknowledged generation, one without a proper answer above the generation the earlier ones took (the first: above its own), and leaves the unasked untouched |
| `SessionReload.FirstTimeoutReusesGeneration` | internal/clients/interactive_control.go:174-183 | a first connection that times out is asked for its earlier spec under the generation of the lost request |
| `SessionReload.LostAnswersAreUndone` | internal/clients/interactive_control.go:168-230 | a connection whose request got no answer is asked for its own earlier spec, and the reload fails |
| `SessionReload.SmoothReload` | internal/clients/interactive_control.go:136-230 | when every request is acknowledged and dispatched, client and server agree on spec and generation, and the reload succeeds if and only if all connections start from one generation |
| `SessionReload.SkewIsForever` | internal/clients/interactive_control.go:200-203 | once generations differ, no later reload in any sequence of accepted requests succeeds |
| `SessionReload.OneRefusalSkews` | internal/clients/interactive_control.go:168-230 | one refusal by a server other than the first makes the generations differ |
| `SessionReload.SuccessCommits` | internal/clients/connectors/sessiontransport.go:110-170 | a request commits the spec and the acknowledged generation, or leaves the committed session alone |
| `SessionReload.SmoothRequest` | internal/server/handlers/sessioncommand.go:126-190 | an acknowledged and dispatched request leaves client and server in the same session |
| `SessionReload.ApplyStops` | internal/clients/interactive_control.go:168-206 | where the loop over the connections can stop, and what it did before |
| `SessionReload.RollbackPointwise` | internal/clients/interactive_control.go:222-230 | a rollback asks each connection once, whatever the order |
| `SessionReload.Client.ApplyReload` | internal/clients/interactive_control.go:136-166 | arguments and spec change if and only if the reload succeeds |
| `SessionReload.Client.ApplyConnections` | internal/clients/interactive_control.go:168-206 | the loop computes the specified states, undo list and generation |
| `SessionReload.Client.RollbackConnections` | internal/clients/interactive_control.go:222-230 | the loop from the last connection to the first computes the rollback |
| `SessionReload.SessionCommandState.StartSession` | internal/server/handlers/sessioncommand.go:126-153 | a start is refused while active, and reset when dispatch fails |
| `SessionReload.SessionCommandState.UpdateSession` | internal/server/handlers/sessioncommand.go:155-190 | an update needs an active session, and is reset when dispatch fails |
| `SessionReload.SessionCommandState.Reset` | internal/server/handlers/sessioncommand.go:231-239 | the zero session |
| `SessionReload.SessionHistory` | internal/server/handlers/sessioncommand.go:126-190 | over every history of commands the session is blank or that of the last acknowledged command, with nothing but refused starts since |
| `SessionReload.AcknowledgedIff` | internal/server/handlers/sessioncommand.go:126-190 | which commands are acknowledged and for which generation; one dispatched in vain leaves a blank session that takes the next start |
| `ClientSession.GenerationsDoNotMix` | internal/mapr/client/aggregate.go:41-118 | in every interleaving, data folded in for one generation never reaches another generation's global group |
| `ClientSession.QueriesDoNotMix` | internal/mapr/client/session_state.go:39-88 | with distinct generations every datum is in the group of its own query, and the recorded result was rendered from the active query |
| `ClientSession.ReusedGenerationLeaks` | internal/mapr/client/session_state.go:57-72 | for every list of commits and every repeated generation in it, a run in which data of the earlier query is in the later one's group |
| `ClientSession.QueriesMixIff` | internal/mapr/client/session_state.go:57-72 | a list of committed generations has a run that mixes two queries if and only if it repeats a generation |
| `ClientSession.ReportIsRecorded` | internal/mapr/client/session_state.go:75-88 | a result rendered from the active query is recorded as that query's |
| `ClientCounts.FoldedOnce` | internal/mapr/client/aggregate.go:41-118 | in every interleaving a folded message is in at most one group, and in exactly one while the query stays and no result is swapped out |
| `ClientSession.InvStep` | internal/mapr/client/aggregate.go:41-118 | every step keeps each datum where its generation belongs |
| `ClientSession.SessionState.Commit` | internal/mapr/client/session_state.go:57-72 | a commit replaces generation, query and result together; a query that does not parse changes nothing |
| `ClientSession.SessionState.CommitRenderedResult` | internal/mapr/client/session_state.go:75-88 | a result is recorded if and only if its generation is active |
| `AuthKeyStores.AuthKeyStore.Has` | internal/ssh/server/authkeystore.go:92-111 | over every history of Add and Has with a non-decreasing clock: true if and only if the key's last Add is younger than the TTL and fewer than the maximum of distinct other keys were added since |
| `AuthKeyStores.AuthKeyStore.Add` | internal/ssh/server/authkeystore.go:59-89 | the Add joins the user's history and the store keeps holding it; an empty user or key changes nothing |
| `AuthKeyStores.AuthKeyStore.PruneExpired` | internal/ssh/server/authkeystore.go:145-178 | exactly the unexpired entries stay, and a user without any is dropped |
| `AuthKeyStores.AuthKeyStore.ListsStayBounded` | internal/ssh/server/authkeystore.go:59-89 | each user's list is duplicate-free, in order of registration and within the maximum |
| `AuthKeyStores.AuthKeyStore.constructor` | internal/ssh/server/authkeystore.go:37-56 | defaults replace settings that are not positive |
| `AuthKeyStores.ListAnswers` | internal/ssh/server/authkeystore.go:92-111 | membership in the pruned list is the whole-history answer |
| `AuthKeyStores.FullMeans` | internal/ssh/server/authkeystore.go:59-89 | the list without TTL and bound holds each key's last Add in front of exactly the keys added since |
| `AuthKeyStores.AddKeeps` | internal/ssh/server/authkeystore.go:72-88 | eviction drops only entries with the maximum of newer keys behind them |

## Left out

- Floating point: numbers are exact reals, so rounding, NaN and infinities are not modelled; printing and parsing a float are parameters, with an inverse law asked only of the numbers that occur.
- Integer width: epochs, generations and counters are unbounded; the tag decoder does model the 64-bit limit of what it parses.
- Time: timers, sleeps, timeouts and quiet periods only enable steps, so safety is stated and no real-time bound.
- Channels are unbounded and reliable; forwarders that drop messages on cancellation (internal/server/handlers/serverhandler.go) are not part of this model.
- Heap sharing of aggregate sets between group maps: the maps hold values, so two maps never share a set.
- Pipeline.DistributedEqualsDirect: covers count, sum, avg, min, max and percentage, for distinct storages; last and len depend on the order in which servers report and have no schedule-independent value. Last and len are covered by the re-merge on one server.
- Deliveries.TextIsTheSet: group keys, field values and storages that contain a delimiter are not covered; such a message may be cut elsewhere.
- Pushdown.PushdownIsInvisible: has no full converse, because a difference in a field that nothing selects, or in a line that the where clause skips, does not show; Pushdown.UnsoundSourceChangesTheResult is the converse for selected fields that a set clause assigns, Pushdown.EmptyNamesIff the exact condition for empty names in queries without where clause.
- Pushdown.PushdownIsInvisible: covers the default and csv formats; the generic key-value format does not terminate on a token without an equals sign, and the remaining formats would repeat the argument.
- Pushdown.MakeDefaultFields: strings are sequences of characters, so a time token counts characters where the source counts bytes; the two differ for a time token that is not ASCII.
- OutputManagers.OutputManager.Read: is one call under the lock; the retry sleep that releases the lock is a separate step in OutputProtocol.
- GrepFilters.FileFilter.ProcessLine: ownership is stated as at most once; the file filter does not recycle the lines it still remembers when a run ends, and after a processor error its remembered lines are stale, so the run has to end there as it does in the source.
- ServerReads.ServerHandler.Read: does not model a nil line from a closed line channel, and requires room for one byte, because the source would spin on an empty slice while an output remainder is buffered.
- NetworkWriters.FlushCoversWhatWasWritten: "covered" means handed to the send; a batch whose generation went stale meanwhile counts as handed although it is dropped, as in the source, where such a send returns nil.
- AuthKeyStores.AuthKeyStore.Has: histories with Remove are not covered; a removal frees a slot without bringing an evicted key back, so the condition on later keys no longer characterises the answer.
- SessionReload.SmoothReload: reconnects, which start again at generation 1, are not modelled.
- Regular expressions, base64, JSON and query parsing: matching is an arbitrary predicate, and a spec's validity is decided by the environment.
- SSH, host keys, path permissions, result tables, percentile ranks, transmitted-percentage statistics, loggers, configuration and command lines.
- The byte-by-byte and tail readers: they add or strip newlines and skip empty lines, so they are not equivalent to the scanner path.
