# Naemon Livestatus: a verified model of its queries, caches and state history

Livestatus answers queries about monitored hosts and services and about their log files. This project models the parts
of its code whose correctness is not obvious from one function, and proves what they promise.

**Log queries** (`Bitmask`, `Filters`, `LogEntries`, `Logfile`, `Eviction`, `LogCache`, `TableLog`). A `GET log` query
narrows a time window and a class mask by walking its filter tree, loads what is missing into a cache for each log file,
and walks the files from the newest to the oldest with early exits. The cache evicts entries in three phases, and the
current file grows, while a load is still in progress. `TableLog.AnswerQuery` prints exactly what filtering all lines of
all files would print, those that arrive meanwhile included, as long as the cache has not lost a line: from the newest
entry to the oldest, and cut by Offset and Limit. The accounting and the bound on the memory hold over every run,
whether or not lines are lost (`LogCache.PerformAll`).

**Queries** (`FilterStack`, `RowSortedSet`, `Paging`, `Aggregators`, `Query`). Header lines build the filter tree on a
stack; a bounded heap keeps the best rows, and `finish` turns it into a page; grouped statistics are folded row by row.
`Query.Answer` says what each path prints in terms of the rows alone: which rows by index, in which order by the first
sort column that tells them apart, and for each group the counts, sums, means, extremes and deviations of its rows.

**State history** (`HostServiceState`, `StateHistory`, `KnownStates`, `TableStateHistory`, `AbsentObjects`). A state
machine over log entries: `Next` is one turn of the main loop as a relation between two states of the machine, `IsRun` a
run, `Finals` the final reports. The theorems (time is conserved and told in the column of its state, service lists,
agreement of hosts and services, no negative durations) are about all runs; the class with its loops is proved to go
through such runs only. `KnownStates` says what an entry changes in a record and which intervals it reports, and that
the rows show what the log last said. `AbsentObjects` says which objects have vanished and by which events they get out
of time, and answers two concrete logs.

**Requests and answers** (`InputBuffer`, `OutputBuffer`, `JsonStrings`, `JsonReader`). The request buffer splits a byte
stream into requests, however it arrives; the printer of JSON strings is undone by a reader written after section 7 of
RFC 8259 and section 3 of RFC 3629.

**Columns and timeperiods** (`StateColumns`, `Timeperiods`, `PeriodHistory`). Columns that are aggregated in one pass
and kept for the query; timeperiod transitions that are logged and later replayed, up to what a state history knows of
them.

`Basics` holds what several modules share. The sources work by changing objects and local variables; the modules follow
them with classes, methods and loops that are proved against specification functions, and lemmas are about those.

## What the proofs found

- An Or node inherits the And node's walk over time filters. It then loses accepted times (`OrLosesAcceptedTimes`); for
  alternatives that are pure conjunctions it keeps them exactly when all alternatives have the same window
  (`OrKeepsAcceptedExactly`). An Or with a filter on another column loses rows, too, also inside an And
  (`MixedOrLosesAcceptedTimes`); it keeps all exactly when nothing is narrowed (`UnboundedKeepsAcceptedExactly`).
- The cache can lose lines of the current log file. If a load has to rewind for missing classes, lines that arrive
  between its two reads are skipped when their class counts as read already, and the position behind them is remembered
  (`LateLineIsLost`). `Load` says for each class exactly when it is complete afterwards, whatever state the file was in:
  when it was missing, or when it was complete and no such line of it arrives. No later load makes up for a lost line; a
  flush of the file or a rebuilt index does (`FlushedIsCoherent`, `ForgetLogfiles`). All other growth is harmless.
- In `utf8` and `mixed` mode the printer of strings runs behind the end of a string in which a first byte of a two-byte
  sequence is reached at the last position, as in latin1 text that ends in a sharp s (`LatinTextRunsBehind`); it stays
  inside exactly otherwise (`StaysInsideExactly`), and for all valid UTF-8 (`ValidUtf8Stays`).
- With an Offset, without a Limit and with sorting, a page is not the requested one (`SortedPathPrintsRequested`), but
  the first rows, one less than the Offset says (`PrintedIsSortedCut`).
- In `utf8` mode a string comes back from JSON exactly when it has no byte from 0xF0 on (`Utf8RoundTrip`); U+1F600 does
  not (`FourBytesAreLost`).
- An INITIAL HOST STATE entry that turns a host up or down leaves its services behind (`InitialHostStateAgreement`); a
  log of two entries does it (`AnswerAboutLeftService`).
- Rows of negative duration are possible; `DurationsExactly` says when, and `DurationsByEvents` by which events: an
  object has vanished, and since the restart that put it in doubt the timeframe has started, or a timeperiod has changed
  the object, strictly later. The answer to a log of four entries has such a row (`AnswerAboutAbsentHost`).
- A timeperiod whose name starts with a space, or whose message does not fit into the line buffer, is lost on the way
  through the log file (`ReadBack`, `TransitionsAreLost`).

## Model

| member | source | states |
|---|---|---|
| Bitmask.ClearDownwards | src/IntColumnFilter.cc:69-76 | the shifting loop for `>` and `>=` ends and has cleared exactly the bits below the given one |
| Bitmask.ClearUpwards | src/IntColumnFilter.cc:78-89 | the shifting loop for `<` and `<=` ends at bit 31 and has cleared exactly the bits from the given one on |
| Filters.Evaluate | src/AndingFilter.cc:38-49 | the walk with its early exits decides what the tree means: comparisons of column values, negated or not, And all, Or some, Negate not |
| Filters.AcceptsMeans | src/IntColumnFilter.cc:24-42 | exactly one verdict is right for each tree and row: the one that the values of its columns and the verdicts of its subtrees give |
| Filters.FindTimeLimits | src/TimeColumnFilter.cc:50-102 | the branches on the operator compute the narrowed window of the whole tree |
| Filters.FindTimeLimitsInAll | src/AndingFilter.cc:65-74 | the loop over the subfilters narrows by each of them, one after the other |
| Filters.LeafLeaves | src/TimeColumnFilter.cc:50-102 | one filter leaves the times of the window for which it holds; only a != filter takes away nothing but a first or last time |
| Filters.NarrowedByAll | src/OringFilter.h:12-17 | for every tree without != the window that is left holds the times at which all filters on the column hold that are reached through And and Or nodes, none of those below a Negate node |
| Filters.NarrowNeverWidens | src/TimeColumnFilter.cc:50-102 | the narrowed window lies in the given one, for every tree |
| Filters.NarrowSound | src/AndingFilter.cc:65-74 | an accepted row in the window stays in the narrowed window if no Or node holds a filter on that column |
| Filters.NarrowExact | src/TimeColumnFilter.cc:50-102 | for conjunctions of comparisons the narrowed window is exactly the set of accepted times in the given one |
| Filters.NarrowOrderIrrelevant | src/AndingFilter.cc:65-74 | the order of the filters of a conjunction does not change which times are in the window |
| Filters.OrLosesAcceptedTimes | src/OringFilter.h:12-17 | a concrete Or of two time filters whose inherited walk drops an accepted time |
| Filters.OrKeepsAcceptedExactly | src/OringFilter.h:12-17 | an Or of conjunctions keeps all accepted times if and only if all alternatives have the same window |
| Filters.MixedOrLosesAcceptedTimes | src/OringFilter.h:12-17 | a concrete Or of a time filter and a filter on another column, alone and inside an And, whose walk drops an accepted time |
| Filters.UnboundedKeepsAcceptedExactly | src/OringFilter.h:12-17 | a tree that accepts rows of every time in the window, as an Or with a filter on another column does, keeps them all if and only if the walk does not narrow the window |
| Filters.OptimizeLeaf | src/IntColumnFilter.cc:44-92 | a comparison clears the bits of the values that it rejects; references outside 0..31 clear nothing |
| Filters.OptimizeBitmask | src/IntColumnFilter.cc:44-92 | the walk over a tree computes its mask, and whether any filter for the column was met |
| Filters.OptimizeInAll | src/AndingFilter.cc:76-88 | an And node passes the mask through all its subfilters |
| Filters.OptimizeInAny | src/OringFilter.cc:21-39 | an Or node joins the masks of its subfilters, and gives up if one of them has none |
| Filters.MaskMeans | src/OringFilter.cc:21-39 | for every tree: whether the walk optimizes at all (an Or only if each of its filters does), and which bits it leaves |
| Filters.MaskSound | src/AndingFilter.cc:76-88 | a row that the tree accepts keeps the bit of its value, for every tree and every start mask |
| Filters.MaskExact | src/OringFilter.cc:21-39 | for And and Or trees of comparisons, a bit survives if and only if its value is accepted |
| FilterStacks.FilterStack.AddSubfilter | src/AndingFilter.cc:20-23 | a filter goes to the end of the stack |
| FilterStacks.FilterStack.StealLastSubfilter | src/AndingFilter.cc:26-35 | the last filter leaves the stack; an empty stack is unchanged |
| FilterStacks.FilterStack.CombineFilters | src/AndingFilter.cc:90-110 | the last filters become one node, the last of them first, and those below stay; an oversized count is an error and leaves the stack unchanged |
| FilterStacks.StepCombines | src/AndingFilter.cc:90-110 | the new stack, filter by filter, and the filters of the new node by their index |
| FilterStacks.FilterStack.ParseAndOrLine | src/Query.cc:254-282 | an And or Or header does to the stack what the specification of a header says, or sets the error |
| FilterStacks.FilterStack.ParseNegateLine | src/Query.cc:284-313 | a Negate header wraps the last filter, and is an error on an empty stack |
| FilterStacks.FilterStack.ParseHeaders | src/Query.cc:254-313 | a sequence of headers without an error leaves the compiled stack |
| FilterStacks.VerdictsOfNode | src/OringFilter.cc:8-19 | a node made of reversed filters is decided by the set of their verdicts; empty nodes included |
| FilterStacks.StepMeaning | src/AndingFilter.cc:90-110 | one header changes the verdicts of the stack as a step of a boolean postfix machine does |
| FilterStacks.CompileMeaning | src/Query.cc:254-313 | compilation succeeds exactly when the postfix evaluation does, and then has its verdicts |
| FilterStacks.QueryFilterMeaning | src/AndingFilter.cc:38-49 | the built tree accepts a row if and only if all values left by the postfix evaluation are true |
| RowSortedSets.CompareIsOrder | src/RowSortedSet.cc:26-40 | several sort columns compare as one total preorder |
| RowSortedSets.NotAboveMeans | src/RowSortedSet.cc:26-40 | a row may stand before another one if and only if the first column that tells them apart finds it smaller, or greater if the column is descending |
| RowSortedSets.RootIsMaximum | src/RowSortedSet.cc:61-71 | no row of the heap is above the one at its root |
| RowSortedSets.SiftUpStep | src/RowSortedSet.cc:47-52 | moving the hole up keeps the heap property everywhere else |
| RowSortedSets.SiftDownStep | src/RowSortedSet.cc:82-94 | moving the hole down to the greater child keeps the heap property everywhere else |
| RowSortedSets.HoleSinks | src/RowSortedSet.cc:82-94 | one turn of the extraction loop keeps the rows and the heap around the hole |
| RowSortedSets.RowSortedSet.Insert | src/RowSortedSet.cc:42-59 | the heap gains the row and, above the limit, loses one that no kept row is above |
| RowSortedSets.RowSortedSet.FillRoot | src/RowSortedSet.cc:82-96 | sifting the last row down from the root restores the heap and keeps its rows |
| RowSortedSets.RowSortedSet.Extract | src/RowSortedSet.cc:61-99 | a greatest row leaves the heap; nothing leaves an empty one |
| Paging.SortedPathPrintsRequested | src/Query.cc:1093-1108 | for all numbers of rows the sorted path prints the requested slice, if and only if a Limit is given or the Offset is 0 |
| Paging.RequestedIsCut | src/Query.cc:976-994 | the requested slice, by index: the i-th row printed is row offset + i, for min(limit, max(0, rows - offset)) rows, or all of them without a Limit |
| Paging.PrintedIsSortedCut | src/Query.cc:1093-1108 | the sorted path prints this cut of the sorted rows, except with an Offset and no Limit: then the first offset - 1 rows, or all for an Offset of 1 |
| Paging.PathsPrintEquallyMany | src/Query.cc:976-994 | with a Limit both paths print min(limit, max(0, rows - offset)) rows |
| Paging.PrintedPageIsRequested | src/Query.cc:1093-1108 | with a Limit, or with no Offset, the page that the sorted path prints is the cut of the sorted rows by index |
| Paging.PageOfParts | src/Query.cc:1093-1108 | rows left, rows taken and rows dropped are a sorted whole, of which the rows taken are a slice |
| Aggregators.IntAggregator.Consume | src/IntAggregator.cc:11-44 | the fields follow the fold of the operation over one more value |
| Aggregators.FoldedOrderIrrelevant | src/IntAggregator.cc:11-44 | the fold does not depend on the order in which rows arrive |
| Aggregators.FoldedCounts | src/CountAggregator.cc:9-19 | a counting header counts the rows that its filter accepts |
| Aggregators.FoldedMeaning | src/IntAggregator.cc:11-44 | count, sum, sum of squares, minimum and maximum of the values |
| Aggregators.StdIsSampleVariance | src/IntAggregator.cc:47-75 | over reals the number under the root is the sample variance and not negative, for at least two rows |
| Aggregators.OutputIsStatistic | src/IntAggregator.cc:47-75 | what a header shows for any rows: the number of accepted rows, the total, the least or greatest value, the number that times the rows is the total, or the root of the sample variance; 0 for the deviation of one row, and no number for the mean of none |
| Queries.GroupsPartitionRows | src/Query.cc:1473-1490 | groups have different names and their sizes add up to the number of accepted rows |
| Queries.GroupsGrow | src/Query.cc:941-971 | one more row goes to its own group only, which is new exactly when it had no rows |
| Queries.RepresentativesAreFirst | src/Query.cc:941-971 | the groups are represented by exactly the rows of which no earlier row has the group, in the order of the rows |
| Queries.OutputShowsStats | src/Query.cc:1035-1065 | the i-th value shown is the statistic of the i-th header |
| Queries.GroupLinesShow | src/Query.cc:1035-1065 | each line shows its group and the statistics of exactly the rows of this group |
| Queries.InsertHoldsBest | src/RowSortedSet.cc:42-59 | after every insertion the heap holds the best rows: kept and dropped are the rows inserted, and no kept row is above a dropped one |
| Queries.Query.ProcessDataset | src/Query.cc:913-998 | a row that the filter accepts is counted once; the loop is stopped by an interruption or behind a reached limit |
| Queries.Query.ProcessRow | src/Query.cc:976-994 | sorting, limit, offset and wrapped_json for one accepted row: without sorting, what has been printed is the cut of the accepted rows |
| Queries.Query.ProcessGroup | src/Query.cc:946-971 | the groups are again the folds over their own rows; only first rows go to the sorter |
| Queries.Query.ConsumeAll | src/Query.cc:970-971 | every aggregator of a group consumes the row |
| Queries.Query.DrainSorter | src/Query.cc:1096-1103 | the greatest rows leave the sorter in descending order, as many as `numelems` says, and one more that is lost |
| Queries.Query.TakePage | src/Query.cc:1093-1108 | what leaves the sorter is the page: a slice of the sorted inserted rows, up to ties |
| Queries.ReverseOutbuf | src/Query.cc:1104-1107 | rows taken from the back of the buffer come in ascending order |
| Queries.Query.PrintGroups | src/Query.cc:1035-1065 | each line shows its group and the statistics of exactly the rows of that group, one value for each header in their order |
| Queries.Query.FinishGroups | src/Query.cc:1022-1065 | the printed groups are the page, sorted by the first column that tells their first rows apart, although representatives have left the heap early |
| Queries.Query.Finish | src/Query.cc:1014-1116 | what each kind of query prints at the end: a cut or a page of rows, groups with their statistics, or one line of them; and total_count |
| Queries.Query.Answer | src/Query.cc:913-1116 | the answer to a table's rows on each path: the cut by Offset and Limit, index by index; the sorted page, each pair of rows in the order of the first column that tells them apart; or the statistics of the groups or of all rows; total_count counts the accepted rows |
| InputBuffers.InputBuffer.ReadData | src/InputBuffer.cc:160-194 | some bytes of the stream arrive, or its end, or the time is over; no byte is lost |
| InputBuffers.InputBuffer.StoreRequestLine | src/InputBuffer.cc:197-205 | a line is stored behind the others, without the white space at its end |
| InputBuffers.InputBuffer.ShiftToStart | src/InputBuffer.cc:121-130 | moving the data to the start of the array keeps the unread bytes |
| InputBuffers.InputBuffer.FindLineEnd | src/InputBuffer.cc:64-66 | the scan stops at the first newline or at the end of the data |
| InputBuffers.InputBuffer.NeedData | src/InputBuffer.cc:70-136 | reading, shifting or giving up keeps the result of the whole request and makes progress |
| InputBuffers.InputBuffer.EndOfLine | src/InputBuffer.cc:137-154 | an empty line ends the request, another one is stored |
| InputBuffers.InputBuffer.ReadRequest | src/InputBuffer.cc:40-156 | the status and lines are those of the one request that is in the stream, however reads split it; the loop ends |
| InputBuffers.SplitLines | src/InputBuffer.cc:197-205 | given lines are kept behind the old ones in their order, each cut to its longest prefix that does not end in white space, and those of white space only left out |
| InputBuffers.LinesOfStream | src/InputBuffer.cc:64-66 | every stream consists of lines that fit into the buffer, and of what ends a request |
| InputBuffers.SplitIsTheRequest | src/InputBuffer.cc:40-156 | splitting gives a request that is in the stream: lines, and behind them an empty line, the end of the stream, a line without its end, or one that is too long; there is only one |
| InputBuffers.RequestsAreAnswers | src/Store.cc:99-130 | each answer is about the request that comes next, behind the lines left over, and takes the first of its lines; the others are left over while the connection is kept |
| InputBuffers.RequestReadAdvances | src/InputBuffer.cc:137-148 | a request that was read has consumed bytes |
| InputBuffers.InputBuffer.NextLine | src/InputBuffer.cc:207-212 | the first stored line is taken |
| InputBuffers.InputBuffer.TakeLines | src/InputBuffer.cc:207-212 | the first lines leave the request, in order; the others stay for the next one |
| InputBuffers.InputBuffer.AnswerRequest | src/Store.cc:99-130 | one request is read and some or all of its lines are taken; what is then still to answer is the rest of the splitting, lines left over included |
| InputBuffers.InputBuffer.ServeConnection | src/Store.cc:99-130 | successive requests and the lines taken are those of the whole stream, answer by answer, with leftover lines carried on, or a prefix of them when the time is over |
| OutputBuffers.OutputBuffer.NeedSpace | src/OutputBuffer.cc:43-64 | the growth loop ends with enough room and keeps the contents |
| OutputBuffers.OutputBuffer.AddChar | src/OutputBuffer.h:46-51 | the contents grow by one byte, whatever the capacity |
| OutputBuffers.OutputBuffer.AddBuffer | src/OutputBuffer.h:58-64 | the contents grow by the given bytes, whatever the capacity |
| OutputBuffers.OutputBuffer.AddUntilNextSignificantChar | src/OutputBuffer.h:68-79 | the longest run of plain bytes is appended, and the position stands behind it |
| JsonStrings.PlainRun | src/Query.cc:1332-1335 | the copy of a plain run prints what the byte-by-byte loop would print |
| JsonStrings.PlainText | src/Query.cc:1332-1335 | text without quotes, backslashes, control characters and bytes from 128 on is printed as it is, between quotes |
| JsonStrings.OutputPlainRun | src/Query.cc:1332-1335 | after the run the rest still has to be printed |
| JsonStrings.StaysInsideExactly | src/Query.cc:1349-1401 | the read positions of the loop stay in the string if and only if no first byte of a two-byte sequence is reached at its last position |
| JsonStrings.LatinTextRunsBehind | src/Query.cc:1349-1354 | a concrete text that is left, and one that is not although it ends in such a byte |
| JsonStrings.OutputSignificant | src/Query.cc:1339-1397 | which escape a byte or sequence gets (a backslash before quotes and backslashes, four digits otherwise), how far the position moves, also behind the end, and when the loop stops; `chars_left` is the remaining length |
| JsonStrings.OutputToken | src/Query.cc:1337-1402 | one byte or sequence is printed; the position is in the string with the rest to print, or one behind its end with all bytes printed |
| JsonStrings.OutputTurn | src/Query.cc:1332-1402 | one turn of the loop prints a part of the output; `chars_left` stays the remaining length, and is -1 when the string is left |
| JsonStrings.OutputEscaped | src/Query.cc:1330-1402 | for every string the loop prints the specified text, and stays in the string if and only if it does not run behind |
| JsonStrings.OutputQuoted | src/Query.cc:1326-1404 | the same between quotes, for JSON and Python |
| JsonStrings.OutputString | src/Query.cc:1314-1405 | the answer for null pointers and in each output format: the text itself in CSV, and in Python the JSON text behind a letter u |
| JsonReader.UnescapeEscaped | src/Query.cc:1330-1402 | reading the printed text gives the printed code units |
| JsonReader.DecodePrinted | src/Query.cc:1314-1405 | a JSON reader accepts what is printed, between quotes |
| JsonReader.PiecesAreReadBack | src/Query.cc:1339-1397 | for every string that the loop does not leave, in every mode: what a reader gets are the code units of its pieces in order; a piece is a byte or a sequence that its first byte announces, stray bytes vanish in utf8 mode, and the string ends where a sequence is cut off |
| JsonReader.PrintedWithNul | src/Query.cc:1349-1354 | a string that is left is printed as if a NUL stood behind its end |
| JsonReader.BitOrBits | src/Query.cc:1376-1388 | of the second and third byte of four, the bits are joined in the same place |
| JsonReader.ValidUtf8Stays | src/Query.cc:1349-1392 | in utf8 mode the loop never leaves a string of valid UTF-8 |
| JsonReader.Utf8RoundTrip | src/Query.cc:1349-1392 | in utf8 mode, valid UTF-8 is read back as its code points if and only if it has no four-byte sequence |
| JsonReader.FourBytesAreLost | src/Query.cc:1376-1388 | a concrete character of four bytes that is not read back |
| JsonReader.Latin1RoundTrip | src/Query.cc:1394-1397 | in latin1 mode each byte is read back as itself |
| LogEntries.KeyOrder | src/Logfile.cc:234-237 | keys order entries by time, then by line |
| LogEntries.LineOfEntry | src/LogEntry.cc:40-99 | an entry has the number, the time, the class and the columns of its line |
| LogEntries.InsertedElements | src/Logfile.cc:178-180 | an insertion adds one entry and removes none |
| LogEntries.InsertedAscending | src/Logfile.cc:178-180 | the entries stay in ascending order of their keys |
| LogEntries.AllEntriesElements | src/Logfile.cc:169-192 | the plain scan of a file holds exactly the entries of its readable valid lines, in order |
| Logfiles.OfClassesElements | src/Logfile.cc:149-167 | erasing classes keeps exactly the entries of the other classes |
| Logfiles.FlushedIsCoherent | src/Logfile.cc:62-69 | an emptied file is coherent, also if it had lost lines: no class counts as read |
| Logfiles.FreedStaysCoherent | src/Logfile.cc:149-167 | after classes are freed, those that still count as read are complete |
| Logfiles.GrownStaysCoherent | src/Logfile.cc:91-97 | lines appended to the watched file do not make cached classes incomplete up to the read position |
| Logfiles.EntriesAreBounded | src/Logfile.cc:132-135 | a file never holds more entries than the line cap |
| Logfiles.ProcessedStaysValid | src/Logfile.cc:169-192 | a processed line keeps the entries in order and true to the file, and completes its class up to this line |
| Eviction.FlushRangeShape | src/LogCache.cc:186-204 | what flushing does to each file, and when it stops |
| Eviction.FreeRangeShape | src/LogCache.cc:213-224 | what freeing classes does to each file, and when it stops |
| Eviction.SweepAccounting | src/LogCache.cc:183-242 | the counter is the number of all cached entries after all three phases |
| Eviction.SweepOutcome | src/LogCache.cc:183-246 | old files go first, the query's classes in the current file stay; a sweep that ends above the maximum leaves only the current file |
| Eviction.FlushStops | src/LogCache.cc:186-204 | flushing stops as soon as few enough entries are left: without the last file it has emptied, too many would be |
| Eviction.FreeStops | src/LogCache.cc:213-224 | so does freeing classes |
| Eviction.SweepStopsInTime | src/LogCache.cc:183-246 | so does the whole sweep: in its first phase with an older file, in the second one with all older files empty, in the third one when nothing is left to be freed |
| Eviction.SweepBound | src/LogCache.cc:183-246 | after a sweep the counter is within the maximum, or counts the current file only |
| LogCaches.MemoryBound | src/LogCache.cc:171-181 | what the counters keep implies that the cached entries stay below the greater of the maximum and the line cap, plus 10000 |
| LogCaches.LogCache.Perform | src/LogCache.cc:76-104 | a load with any arrivals, growth of the current file, or a rebuilt index keeps the cache sound: files valid, positions right, the counter exact and bounded |
| LogCaches.LogCache.PerformAll | src/LogCache.cc:171-181 | over every run of such operations, lossy loads included, the counter is the number of cached entries and stays below the bound |
| LogCaches.SweepKeepsInvariants | src/LogCache.cc:183-246 | a sweep of any files keeps them valid, each coherent file coherent, the counter exact, and the current file's classes of the query |
| LogCaches.LineLoaded | src/Logfile.cc:130-137 | a loaded line extends what has been read and cached by one line |
| LogCaches.EvictedInMidLoad | src/Logfile.cc:137-138 | an eviction between two lines of a load, even of the same file, keeps what the load has promised |
| LogCaches.LogCache.constructor | src/LogCache.cc:36-42 | a new cache is settled |
| LogCaches.LogCache.ForgetLogfiles | src/LogCache.cc:93-104 | after the index is dropped the counter is 0 and the cache is settled, whatever it had lost before |
| LogCaches.LogCache.GrowCurrent | src/Logfile.cc:91-97 | growth of the current file between two loads keeps the cache sound, and each coherent file coherent |
| LogCaches.LogCache.Append | src/Logfile.cc:130-137 | growth of a file that is being loaded keeps every file valid and the counter exact |
| LogCaches.GrownInMidLoad | src/Logfile.cc:130-137 | lines that arrive between two lines of a load keep what the load has promised |
| LogCaches.LogCache.FlushFiles | src/LogCache.cc:186-204 | the flushing loop with its early exit |
| LogCaches.LogCache.FreeMessages | src/Logfile.cc:149-167 | the erasing loop keeps exactly the other classes and counts the erased entries |
| LogCaches.LogCache.FreeFiles | src/LogCache.cc:213-224 | the loop that drops classes outside the query, with its early exit |
| LogCaches.LogCache.SweepFiles | src/LogCache.cc:183-246 | the three phases in their order |
| LogCaches.LogCache.HandleNewMessage | src/LogCache.cc:169-246 | the counter grows by one; a sweep happens only above the maximum and after a check cycle; the counter is exact and bounded again, and each coherent file stays coherent |
| LogCaches.LogCache.ProcessLogLine | src/Logfile.cc:169-192 | a line is cached if it is valid, of a wanted class and not cached yet |
| LogCaches.LogCache.LoadRange | src/Logfile.cc:125-147 | reads to the end of the file, which may grow meanwhile, or to the line cap; the read position and line number agree; of the lines read, those of the given classes have been cached, and nothing else |
| LogCaches.LogCache.LoadLine | src/Logfile.cc:136-139 | one line with the eviction that it may cause; the other files stay as coherent as they were |
| LogCaches.LogCache.Load | src/Logfile.cc:72-123 | for every sound cache, any growth during both reads and any evictions: a class that counts as read is complete afterwards if and only if it was missing before, or was complete and no line of it arrived behind the first read; so a coherent file stays coherent if and only if it loses no line, and other files stay coherent |
| LogCaches.LogCache.CatchUp | src/Logfile.cc:80-97 | after the first read each class that counts as read is complete up to the end of the grown file if and only if it was complete before |
| LogCaches.LogCache.LoadNews | src/Logfile.cc:91-97 | the watched file is read on for the classes that count as read, and for the lines that arrive meanwhile; each class is complete if and only if it was |
| LogCaches.LogCache.LoadMissing | src/Logfile.cc:98-104 | the file is read again from its start for the missing classes, which are complete then; another class is complete if and only if it was and no line of it arrived meanwhile |
| LogCaches.MissingLoaded | src/Logfile.cc:98-104 | after the second read a class that was not read again is complete if and only if it was, and no valid line of it behind the first read is below the line cap |
| LogCaches.NewsLoaded | src/Logfile.cc:91-97 | after the first read a class is complete if and only if it was complete before |
| LogCaches.LoadedCoherence | src/Logfile.cc:72-123 | a load keeps a coherent file coherent if and only if it loses no line |
| LogCaches.LateLineIsLost | src/Logfile.cc:98-104 | a concrete file, coherent before, that is not coherent after one line has arrived between the two reads |
| TableLog.CacheYieldsPlainScan | src/Logfile.cc:217-232 | a file complete for the wanted classes yields the accepted rows of its plain scan, stray entries or not |
| TableLog.PlainScanElements | src/Logfile.cc:125-147 | the plain scan holds the valid lines of all files, up to the line cap of each, and nothing else |
| TableLog.PlainScanCount | src/Logfile.cc:125-147 | it holds each of them once |
| TableLog.PlainScanNewestFirst | src/TableLog.cc:132-147 | for files in time order, it goes from the newest entry to the oldest |
| TableLog.UpperBound | src/Logfile.cc:220-221 | the first entry behind the key of the window's end |
| TableLog.WalkBackwards | src/Logfile.cc:222-231 | the backward loop offers exactly the accepted rows of the file to the query, until one is too old or the limit is reached |
| TableLog.AnswerQueryReverse | src/Logfile.cc:217-232 | the file is loaded while lines arrive; if it is coherent then, the answer grows by the accepted rows of the grown file in descending order; the loop over files is stopped only for a reason |
| TableLog.NarrowingIsSound | src/TableLog.cc:102-112 | no accepted entry is outside the window or the class mask |
| TableLog.OlderFilesContributeNothing | src/TableLog.cc:136-143 | nothing older than a file from before the window is accepted |
| TableLog.NewFileContributesNothing | src/TableLog.cc:126-127 | a file that starts behind the window holds no accepted entry |
| TableLog.NewestInWindow | src/TableLog.cc:119-130 | the newest file that does not start behind the window, or the oldest |
| TableLog.NewestSkipped | src/TableLog.cc:119-130 | the files skipped from the newest on hold no accepted entry |
| TableLog.GrownStaysOrdered | src/Logfile.cc:91-104 | lines that arrive in time order keep the files in time order |
| TableLog.HarmlessLosesNothing | src/Logfile.cc:98-104 | a load loses nothing if no line that arrives during its second read is of a class that counted as read |
| TableLog.AnswerFile | src/TableLog.cc:132-147 | after each file, what is answered are the accepted rows of the newer files as they have grown |
| TableLog.WalkFiles | src/TableLog.cc:132-147 | the walk ends with the whole answer, or with the part of it that fills the limit, for lines that arrive during the load of the newest file |
| TableLog.AnswerQuery | src/TableLog.cc:93-148 | an unsorted log query prints the cut, index by index, of filtering all lines, from the newest to the oldest, those that arrive during its loads included: window, mask, cache and early exits lose nothing, unless a line has been lost or arrives during the second read in a class that counts as read |
| HostServiceStates.ChainSums | src/TableStateHistory.cc:720-765 | the durations of a chain of rows add up to the time that it covers, their shares to its share |
| HostServiceStates.StatesShareDuration | src/TableStateHistory.cc:725-750 | for states from -1 to 3 the five durations of a row add up to its duration, and so do the shares |
| HostServiceStates.ReportInItsColumn | src/TableStateHistory.cc:725-750 | the duration and share of a row are those of its interval and stand in the column of its state; the other four are 0 |
| HostServiceStates.ColumnsAddUp | src/TableStateHistory.cc:725-750 | over the rows of an object, each column adds up to the time of the rows with its state |
| HostServiceStates.UpdatedCarries | src/TableStateHistory.cc:543-717 | every update continues the chain of the object's rows |
| HostServiceStates.ClosedCarries | src/TableStateHistory.cc:491-519 | the final reports continue it up to the last second |
| HostServiceStates.UpdatedFlags | src/TableStateHistory.cc:546-591 | vanished implies in doubt; only timeperiod entries leave both flags alone |
| HostServiceStates.UpdatedHostColumns | src/TableStateHistory.cc:593-645 | what an entry does to the two columns that services copy, and when it counts as a change |
| HostServiceStates.UpdatedDurations | src/TableStateHistory.cc:546-552 | an update reports a negative duration if and only if it revives an object whose interval starts behind its last known time |
| HostServiceStates.ClosedDurations | src/TableStateHistory.cc:498-516 | the final reports about a record that is not in the future hold a negative duration if and only if it is absent with an open interval that starts behind its last known time |
| HostServiceStates.DisturbedRecordGoesNegative | src/TableStateHistory.cc:671-701 | a timeperiod change of a vanished object makes its next report negative |
| StateHistory.NextKeepsCovered | src/TableStateHistory.cc:253-489 | each turn of the main loop keeps all time accounted for |
| StateHistory.RunKeepsCovered | src/TableStateHistory.cc:253-489 | so does every run; no row is reported before the timeframe |
| StateHistory.TimeIsConserved | src/TableStateHistory.cc:491-519 | in every run that is not aborted, each object's rows are a chain over the timeframe: durations add up to it, shares to 1 |
| StateHistory.AnswerInItsColumns | src/TableStateHistory.cc:491-519 | in every complete answer all rows have their time in the column of their state, and the columns of each object add up to its time in the states |
| KnownStates.UpdatedInfo | src/TableStateHistory.cc:593-670 | an entry changes in a record that hears of it exactly the columns that it is about: own or host state, downtime, flapping |
| KnownStates.ConcernedExactly | src/TableStateHistory.cc:431-443 | an entry concerns its object, and all services of its host if it is a downtime or an alert of that host, but no initial state, which says something new |
| KnownStates.TransitionInfo | src/TableStateHistory.cc:671-701 | a timeperiod entry changes the status of the periods with its name and nothing else |
| KnownStates.UpdatedRows | src/TableStateHistory.cc:543-670 | an entry about a host or service reports the old interval if and only if it changes a column, up to its time, and before that what an object was until it had vanished |
| KnownStates.TransitionRows | src/TableStateHistory.cc:671-701 | a timeperiod entry reports the old interval for each of the two periods that it changes |
| KnownStates.ClosedRows | src/TableStateHistory.cc:491-519 | the final reports about an object, with their times and states |
| KnownStates.NewObject | src/TableStateHistory.cc:317-429 | an object that is met first has the columns of its host and the current timeperiods, and state -1 if this is more than ten minutes into the timeframe, state 0 otherwise |
| KnownStates.KnownAsTold | src/TableStateHistory.cc:593-670 | in every run without restarts, the state, downtime and flapping of an object are what the log last said about it, if anything |
| KnownStates.AnswerAsTold | src/TableStateHistory.cc:491-519 | each row of a complete answer without restarts shows what the log had last said about its object where the row ends |
| KnownStates.AnswerTellsTheLog | src/TableStateHistory.cc:182-521 | both: time in the columns of the states, and states as told |
| StateHistory.NextKeepsListed | src/TableStateHistory.cc:354-367 | each turn keeps the service list of a tracked host exactly its tracked services, each once |
| StateHistory.RunKeepsListed | src/TableStateHistory.cc:354-367 | so does every run |
| StateHistory.NextKeepsAgreement | src/TableStateHistory.cc:412-443 | each turn for another entry than INITIAL HOST STATE keeps the services' two host columns equal to their host's |
| StateHistory.RunKeepsAgreement | src/TableStateHistory.cc:412-443 | in a run without such entries before its n-th state, that state has all columns equal and all services listed |
| StateHistory.InitialHostStateAgreement | src/TableStateHistory.cc:431-443 | an INITIAL HOST STATE entry keeps the agreement if and only if the host has no tracked service, or its state or its being down does not change |
| StateHistory.NextDurations | src/TableStateHistory.cc:546-552 | a turn adds a row of negative duration if and only if it revives an object whose open interval starts behind its last known time |
| StateHistory.RunDurations | src/TableStateHistory.cc:253-489 | in every run over a log in order, nothing is in the future, and the rows so far are not negative exactly if no such revival has happened |
| StateHistory.DurationsExactly | src/TableStateHistory.cc:491-519 | a complete answer has no negative duration if and only if no object is revived or finally found absent with an open interval that starts behind its last known time |
| StateHistory.NextKeepsInTime | src/TableStateHistory.cc:471-487 | a turn that starts no restart before the timeframe and changes no absent object keeps the open intervals of all objects in doubt before their last known times |
| StateHistory.RunKeepsInTime | src/TableStateHistory.cc:471-487 | so does every run with such turns |
| StateHistory.DurationsAreNotNegative | src/TableStateHistory.cc:498-516 | with times in order, no restart before the timeframe and no timeperiod change of an absent object, no row has a negative duration, through vanishing, revival and final reports |
| AbsentObjects.StepInDoubt | src/TableStateHistory.cc:253-489 | a turn that does not put an object in doubt, but leaves it there, keeps its last known time, and starts its interval anew only by a timeperiod that changes it in the timeframe |
| AbsentObjects.DoubtBegins | src/TableStateHistory.cc:471-487 | an object that is in doubt has been put there by a restart, and stayed in doubt since |
| AbsentObjects.VanishedStep | src/TableStateHistory.cc:274-286 | a turn that leaves an object in doubt makes it vanish unless its entry is an initial state; a restart puts in doubt what is not in doubt |
| AbsentObjects.DoubtedBy | src/TableStateHistory.cc:471-487 | in every run, an object in doubt has been so since a restart that found it not in doubt |
| AbsentObjects.VanishedExactly | src/TableStateHistory.cc:274-286 | in every run, such an object has vanished if and only if an entry has come since that is no initial state |
| AbsentObjects.RevivedExactly | src/TableStateHistory.cc:546-582 | a turn in the timeframe revives an object if and only if it ends its doubt and the object had vanished, or the entry is no initial state |
| AbsentObjects.OutOfTimeExactly | src/TableStateHistory.cc:262-272 | an object in doubt has an open interval that starts behind its last known time if and only if, since its last restart, the timeframe has started strictly later or a timeperiod has changed it strictly later |
| AbsentObjects.LateRevivalByEvents | src/TableStateHistory.cc:546-552 | a turn revives no object too late if and only if it revives none that was overtaken by such an event |
| AbsentObjects.DurationsByEvents | src/TableStateHistory.cc:491-519 | a complete answer over a log in order has no negative duration if and only if no object is revived in the timeframe, or absent at its end, after such an event |
| AbsentObjects.AbsentHostIsNegative | src/TableStateHistory.cc:671-701 | every complete answer to a log of a host alert, a restart, another line and a change of the host's period has a row of negative duration |
| AbsentObjects.AnswerAboutAbsentHost | src/TableStateHistory.cc:182-521 | the query over this log returns such a row |
| AbsentObjects.ServiceIsLeftBehind | src/TableStateHistory.cc:431-443 | after a service alert and an INITIAL HOST STATE entry, every complete answer ends with the host down and its service not knowing |
| AbsentObjects.AnswerAboutLeftService | src/TableStateHistory.cc:182-521 | the query over this log ends so |
| TableStateHistories.TableStateHistory.Process | src/TableStateHistory.cc:720-765 | reports the interval with its duration in the column of the state, and opens the next one where it ended |
| TableStateHistories.TableStateHistory.Revive | src/TableStateHistory.cc:546-582 | closes the last known state of a vanished object and starts an absent one with the current timeperiods |
| TableStateHistories.TableStateHistory.ApplyObjectEvent | src/TableStateHistory.cc:593-670 | the switch over entries about hosts and services |
| TableStateHistories.TableStateHistory.ApplyTransition | src/TableStateHistory.cc:671-701 | a timeperiod that is both notification and service period is reported twice |
| TableStateHistories.TableStateHistory.UpdateHostServiceState | src/TableStateHistory.cc:543-717 | the record, the rows and the result of one update |
| TableStateHistories.TableStateHistory.EnterTimeframe | src/TableStateHistory.cc:262-272 | all intervals start at the start of the timeframe |
| TableStateHistories.TableStateHistory.MarkVanished | src/TableStateHistory.cc:274-286 | what is in doubt behind the initial states has vanished |
| TableStateHistories.TableStateHistory.NoteRestart | src/TableStateHistory.cc:471-487 | a restart puts all objects in doubt that have not vanished |
| TableStateHistories.TableStateHistory.ServicesOf | src/TableStateHistory.cc:355-362 | a new host lists its tracked services, each once |
| TableStateHistories.TableStateHistory.Track | src/TableStateHistory.cc:317-429 | finds or creates the record, with its periods, its host's columns and the grace period of ten minutes |
| TableStateHistories.TableStateHistory.UpdateServices | src/TableStateHistory.cc:436-442 | each listed service is updated once |
| TableStateHistories.TableStateHistory.UpdateAll | src/TableStateHistory.cc:463-467 | each record is updated once |
| TableStateHistories.TableStateHistory.HandleEntry | src/TableStateHistory.cc:288-488 | the switch of the main loop takes one step of the state machine |
| TableStateHistories.TableStateHistory.Turn | src/TableStateHistory.cc:253-489 | one turn of the main loop is a step of the machine |
| TableStateHistories.TableStateHistory.Close | src/TableStateHistory.cc:496-516 | the one or two final reports about an object |
| TableStateHistories.TableStateHistory.MainLoop | src/TableStateHistory.cc:253-489 | the loop goes through a run, up to the end of the log or of the timeframe, or until the query stops it |
| TableStateHistories.TableStateHistory.AnswerQuery | src/TableStateHistory.cc:182-521 | invalid timeframes are refused; a complete answer is a run over all entries in the timeframe and the final reports, whose rows conserve time, tell it in the columns of their states, and without restarts show what the log last said; in an aborted one, too, time stands in the columns of the states |
| TableStateHistories.TableStateHistory.Conclude | src/TableStateHistory.cc:491-519 | the final reports about all objects complete the answer |
| StateColumns.WorseIsStrictOrder | src/ServicelistStateColumn.cc:13-20 | "worse" is a strict order: OK, WARN, UNKNOWN, CRIT, from the best to the worst |
| StateColumns.WorstIsGreatest | src/ServicelistStateColumn.cc:65-68 | the worst state is that of a visible service, and none is worse |
| StateColumns.ColumnCounts | src/ServicelistStateColumn.cc:51-63 | the other columns count the visible services of a kind |
| StateColumns.ColumnMeans | src/ServicelistStateColumn.cc:44-74 | what each logictype asks for: how many visible services there are, are not checked yet, or are in the state, current or hard, or the worst of their states |
| StateColumns.ColumnAppend | src/HostlistStateColumn.cc:53-60 | the value for two lists is the sum or the worse of their values |
| StateColumns.Account | src/ServicelistStateColumn.cc:51-69 | one service is accounted in all columns as a walk for each column alone would do |
| StateColumns.ComputeServiceAggregates | src/ServicelistStateColumn.cc:44-74 | one pass answers every logictype as a walk of its own would |
| StateColumns.HostWorseIsStrictOrder | src/HostlistStateColumn.cc:15-22 | for the three host states "worse" is a strict order: UP, UNREACHABLE, DOWN |
| StateColumns.WorstHostIsGreatest | src/HostlistStateColumn.cc:78-81 | for the three states, the worst host state is the greatest one of the visible hosts |
| StateColumns.HostColumnCounts | src/HostlistStateColumn.cc:62-76 | the counting host columns count the visible hosts of a kind |
| StateColumns.HostColumnMeans | src/HostlistStateColumn.cc:62-81 | what each host logictype asks for, number by number |
| StateColumns.ComputeHostAggregates | src/HostlistStateColumn.cc:109-145 | one pass over the hosts answers every host column as a walk of its own would |
| StateColumns.AggregateCache.ServiceAggregatesOf | src/Query.cc:1126-1135 | what the query keeps for a list is what a new pass would compute |
| StateColumns.AggregateCache.HostAggregatesOf | src/Query.cc:1140-1149 | the same for a list of hosts |
| StateColumns.AggregateCache.ServiceColumn | src/ServicelistStateColumn.cc:30-39 | a column is answered as a walk of its own would, with the number that its logictype asks for |
| StateColumns.AggregateCache.AddSubvalue | src/HostlistStateColumn.cc:38-85 | what one host adds to a column of its group |
| StateColumns.AggregateCache.HostlistColumn | src/HostlistStateColumn.cc:147-164 | a column of a host group about services has the value of all services of all visible hosts: how many places there are of a host and one of its services of a kind, or the worst state |
| StateColumns.PlacesCount | src/HostlistStateColumn.cc:147-164 | the services of all visible hosts one after the other hold as many of a kind as there are such places |
| StateColumns.GroupMeans | src/HostlistStateColumn.cc:147-164 | what each logictype asks for of a host group |
| Timeperiods.ChainedGrows | src/TimeperiodsCache.cc:45-52 | a transition from the current status extends the chain |
| Timeperiods.ReadBack | src/TimeperiodsCache.cc:93-98 | a logged transition is read back if and only if its name is not empty, has no ';' and no leading space, and the message fits |
| Timeperiods.TransitionsAreLost | src/TimeperiodsCache.cc:93-98 | two concrete transitions that are not read back: one with a name too long for the line buffer, one with a leading space |
| Timeperiods.AtoiReads | src/TableStateHistory.cc:446-462 | a number in decimal notation is read behind white space and a sign, up to the first other character |
| Timeperiods.ReadsFields | src/TableStateHistory.cc:446-462 | of any line with three fields the first one is read as the name and the number in the third one as the status |
| Timeperiods.NewLineIsMessage | src/TimeperiodsCache.cc:93-98 | the line of a transition, letter by letter: -1 for the status of a new period, 1 inside and 0 outside, and nothing behind the 255th letter |
| Timeperiods.ReplayedStatus | src/TableStateHistory.cc:446-462 | replayed transitions give the status of each period |
| Timeperiods.ReplayRebuildsCache | src/TableStateHistory.cc:446-462 | replaying the log file rebuilds the cache exactly |
| PeriodHistory.RunPeriods | src/TableStateHistory.cc:446-462 | in every state of every run, the periods are those of the start, overridden by what the entries so far say, broken lines skipped |
| PeriodHistory.HistoryKnowsCache | src/TableStateHistory.cc:446-462 | a history whose entries hold the logged transitions, among any others, ends up with the contents of the timeperiods cache |
| Timeperiods.TimeperiodsCache.LogTransition | src/TimeperiodsCache.cc:93-98 | the message is cut off at the size of the line buffer |
| Timeperiods.TimeperiodsCache.Check | src/TimeperiodsCache.cc:42-53 | a new or changed period is logged with its old and new status, in this very line; an unchanged one is not |
| Timeperiods.TimeperiodsCache.CheckAll | src/TimeperiodsCache.cc:39-57 | all listed periods have their current status; the transitions are the changes, in the order of the list |
| Timeperiods.TimeperiodsCache.Update | src/TimeperiodsCache.cc:26-64 | once a minute; the minute counts only if there are periods; the chain, the cache and the log file agree |

## Left out

- LogCaches.LogCache.Load: opening a file cannot fail, and the termination flag does not end a load. Lines that arrive
  do so between two reads of a line.
- LogCaches.LogCache.GrowCurrent: models the monitoring core; the position in a file is a number of lines, so a line is
  read as a whole.
- TableLog.AnswerQuery: for queries without Sort: and Stats: headers whose Or nodes hold no time filter, on files in
  time order, with no entry later than now; only the newest file is watched, and lines arrive in it while it is loaded.
  What is printed after a line has been lost is not described. Size and time limits do not stop the query.
- TableLog.AnswerQueryReverse: a window that ends before the epoch does not reach a file, since every file starts later.
- Queries.Query.ProcessDataset: the three reasons to interrupt a query are one parameter; an interrupted query says
  nothing about its rows.
- Queries.Query.ProcessGroup: the aggregators of a group are values, not objects shared with the map; the estimate of
  the size of the group table is one of the interruptions.
- Queries.Query.TakePage: the page is exact up to the order of rows that compare as equal.
- InputBuffers.InputBuffer.ReadData: system calls, the short query timeout and the idle timeout are one number of
  timeouts that are endured.
- InputBuffers.InputBuffer.AnswerRequest: how many lines a request takes and whether it keeps the connection is a
  function of its lines; what is answered is not modelled here.
- JsonStrings.OutputQuoted: when the loop leaves the string, it goes on with bytes that are not part of the string; what
  it prints for them, and the closing quote, are not modelled.
- JsonReader.Utf8RoundTrip: the mixed encoding has no round trip, since it does not say which bytes were one character;
  `PiecesAreReadBack` says what is read back of it. A four-byte sequence is printed by shifting two of its bytes
  equally, which is modelled, and is the reason why the round trip fails there.
- Aggregators.StdIsSampleVariance: over reals, not floating point.
- HostServiceStates.ChainSums: shares of the timeframe are reals, not floating point.
- TableStateHistories.TableStateHistory.AnswerQuery: the entries are a given sequence; choosing the log files to start
  with, the filter on current objects, authorization and copies of rows for sorting are not modelled. Whether the query
  wants more rows is a function of the rows so far.
- TableStateHistories.TableStateHistory.Track: the record of an object is a value stored under its key, and lists of
  services hold keys; line numbers, plugin output and the debug text of a row are not modelled.
- StateColumns.AggregateCache.HostlistColumn: the hard-state variants have no case in the code, and their value is 0;
  counters have no width.
- Timeperiods.ReadBack: names hold no newline and no NUL; white space other than leading spaces is kept.
- Logfile objects are values inside the cache, because the proofs about their contents do not need identities.
- 32-bit overflow of Limit plus Offset, of counters and of sums is not modelled; class masks have their 32 bits.
- Regular expressions, case folding, list and custom-variable filters are leaves that accept or reject a row.
- Sorting of log rows, inverse and performance-data aggregates, time zones, and the parsing of header lines into
  operators and values.
- Discovery and rotation of log files, classification of log lines, sockets, threads, waiting and start-up.
