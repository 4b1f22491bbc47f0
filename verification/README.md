# A model of hprof-slurp

hprof-slurp reads a JVM heap dump as a stream of chunks. A prefetching thread reads the file, a
parsing thread turns bytes into records and carries unfinished records over from chunk to chunk, a
recording thread counts and tabulates, and the main thread shows progress and returns the report.
Byte buffers and record vectors are recycled between the threads.

This project models that machinery in Dafny and proves that it reports what a plain read of the
whole file by one thread would report: whatever the read size, wherever the file is cut, however
the threads are scheduled, and in whatever order hash maps are iterated. It also proves that the
parser reads back what a writer of the HPROF format writes, what the numbers in the report mean over
the records of the file, and on exactly which files there is no report.

## Layout

| file | content |
|---|---|
| `Nom.dfy` | streaming parsers as functions from bytes to `Ok`, `Incomplete(n)` or `Panic`; the type `Parser` holds only functions that react to more input as a streaming parser must, so each combinator and each record parser carries that proof in its type |
| `Records.dfy`, `RecordParser.dfy` | the records and their parsers; the machine with a top-level mode and a sub-record mode |
| `Streaming.dfy` | one read of all the bytes (`Drain`, the reference), the `needed` gate and the carry-over buffer |
| `StreamParser.dfy`, `Prefetch.dfy` | the objects of the parsing and the reading thread, as classes |
| `Pipeline.dfy`, `PipelineProofs.dfy`, `Schedules.dfy` | the threads, channels and pools as a step relation, with panics and a report that may fail; invariants, schedule independence, progress, termination |
| `Encoding.dfy`, `Framing.dfy` | a writer of the format, and the round trip |
| `Skipping.dfy`, `Panics.dfy` | skipping an array body against parsing it; which bytes panic |
| `Recorder.dfy`, `Accounting.dfy`, `ResultRecorder.dfy` | how a record changes the tables; the account the tables should give of the whole stream; the recorder as an object that keeps that account |
| `InstanceSize.dfy`, `ClassTables.dfy`, `Widths.dfy` | instance sizes along superclass chains; what any bytes can make the parsers yield; the numbers of a report against the integers that hold them |
| `Sorting.dfy`, `Report.dfy`, `Meaning.dfy`, `Diff.dfy` | report rows, their orders, missing classes, what rows say about the stream, and the difference of two reports |
| `Calendar.dfy` | epoch days against the Gregorian calendar |
| `Slurp.dfy`, `BrokenDumps.dfy` | the results put together, from file to report; files without a report |
| `Sequences.dfy` | lists of lists, folds, rising lists |

## Model

| member | source | states |
|---|---|---|
| `RecordParser.TwoModesStream` | src/parser/record_parser.rs:84-127 | Extension lemma for every pair of record parsers of type `ConsumingParser` (all top-level and sub-record parsers of the program are), in both modes: a record read from `i` is read from `i + x` with the same new remaining length and `x` after the old rest; `Incomplete(n)` counts down exactly with every byte of `x` while fewer than `n` arrive; a panic stays a panic; each success consumes |
| `Panics.StepPanicsExactly` | src/parser/record_parser.rs:84-217 | A step panics if and only if, in top-level mode, the tag is none of the fourteen known, or, in sub-record mode, the tag is none of the twenty-two known, a class dump or an array gets to a type code that is none of the nine, or an array of primitives says it holds objects |
| `Nom.FlatMapStreams` | src/parser/record_parser.rs:505-570 | Sequencing two streaming parsers, the second chosen by the value of the first, gives a streaming parser |
| `Nom.CountStreams` | src/parser/record_parser.rs:505-570 | A counted list of a streaming parser is a streaming parser, for every count |
| `Nom.WideNumbersStream` | src/parser/primitive_parsers.rs:33-39 | The 32- and 64-bit big-endian numbers are streaming parsers |
| `Streaming.DrainStops` | src/parser/record_parser.rs:153-187 | A read ends on a suffix of its input at which the next record is incomplete by exactly the stated amount, or at which the parser panics |
| `Streaming.DrainExtends` | src/parser/record_parser.rs:153-187 | Reading `i + x` at once is reading `i` and resuming, in the mode it ended in, on what it left followed by `x` |
| `Streaming.GateLosesNothing` | src/parser/record_stream_parser.rs:62-65 | While the gate is shut, no continuation that leaves it shut completes a record |
| `Streaming.AttemptIsDrain` | src/parser/record_stream_parser.rs:62-106 | One turn behind a sound gate does what an ungated read of the buffer does, and leaves the gate sound |
| `Streaming.ChunkKeepsUp` | src/parser/record_stream_parser.rs:57-106 | After any chunk, records sent, mode, carry-over buffer and processed length are again those of one read of everything fed so far |
| `StreamParser.HprofRecordParser.ParseHprofRecord` | src/parser/record_parser.rs:84-127 | One call is one step of the two-mode machine; the mode changes only when a record is returned |
| `StreamParser.HprofRecordParser.ParseStreaming` | src/parser/record_parser.rs:129-187 | The loop pushes exactly the records of one read, in order, ends in its mode and on its rest; `Incomplete` only if there was no record at all, a panic exactly when the read panics |
| `StreamParser.HprofRecordStreamParser.OnChunk` | src/parser/record_stream_parser.rs:57-106 | One turn of the loop on the object's fields is `Attempt` on the appended buffer |
| `StreamParser.HprofRecordStreamParser.Start` | src/parser/record_stream_parser.rs:54-118 | Chunk invariance: for every split of the input, the batches put together, the final mode and the leftover bytes are those of one read of the whole; the thread panics exactly when that read does; no batch is empty; progress values rise strictly and stay within the file length |
| `Prefetch.PrefetchReader.Start` | src/prefetch_reader.rs:37-65 | The chunks sent, put together, are the rest of the file; none is empty, all but the last are full |
| `Prefetch.PrefetchReader.Fill` | src/prefetch_reader.rs:43-45 | Every byte of the recycled buffer is overwritten with the next bytes of the file |
| `PipelineProofs.StepKeeps` | src/slurp.rs:44-137 | Every action of every thread keeps the invariant |
| `PipelineProofs.RunKeeps` | src/slurp.rs:44-137 | So does every schedule, from the initial pools on |
| `PipelineProofs.BytesAccounted` | src/parser/record_stream_parser.rs:70-83 | In every reachable state, up to and after the end of every thread, header, parsed, carried-over and queued bytes add up to the bytes read, what the prefetcher holds comes next in the file, and the progress values shown and queued rise strictly up to at most the file length |
| `Schedules.CutsAreMultiples` | src/prefetch_reader.rs:37-45 | After `k` reads the pipeline has read `k` times the read size, or the whole file |
| `PipelineProofs.PoolsAccounted` | src/slurp.rs:52-82 | In every reachable state two byte buffers and two record vectors circulate until an end of their channel has gone; recycled vectors are empty, queued batches are not |
| `PipelineProofs.RecordsInOrder` | src/result_recorder.rs:195-225 | In every reachable state the records recorded and queued are a prefix of those of one read of the file, and the recorder holds the result of recording the first part |
| `PipelineProofs.GateNeverDelays` | src/parser/record_stream_parser.rs:62-106 | In every reachable state in which the parser waits for data, a gate that is set is shut; and in every one in which it waits or is about to attempt a parse with the gate shut, neither the bytes at hand nor any more that leave it shut would complete a record |
| `PipelineProofs.OneResult` | src/result_recorder.rs:201-223 | In every run at most one result is sent, after the last batch has been recorded, and it is the one the main thread takes; a finished run without one is a run whose report could not be built |
| `PipelineProofs.OnlyTheirPanics` | src/parser/record_stream_parser.rs:74-91 | In every run the prefetcher and the parser panic only if the read of the whole file does, the recorder only if building the report of what it recorded does, and the main thread only if the recorder has: no other channel `expect` fires, nor does the length assertion |
| `PipelineProofs.FinishedRun` | src/slurp.rs:104-137 | Schedule independence: for every interleaving and read size, if the read of the file does not panic, a finished run returns the state of recording its records in order if the report of that state can be built; the main thread panics if building it panics; the process aborts if building it overflows. If the read panics, the same of the prefix recorded, with an error in place of the state. Without a panic, parsed and left-over bytes make up the whole file |
| `Schedules.AllSchedulesEndAlike` | src/slurp.rs:104-137 | On every file, also where its read panics, two finished runs with one read size have recorded the same records and end in the same way |
| `PipelineProofs.NeverStuck` | src/slurp.rs:104-137 | Until the main thread has returned some thread can move |
| `PipelineProofs.StepWorks` | src/slurp.rs:104-137 | Every action uses up work |
| `PipelineProofs.RunsEnd` | src/slurp.rs:104-137 | No run is longer than 11 times the file plus 9 |
| `PipelineProofs.RunCompletes` | src/slurp.rs:104-137 | Every run can be continued to a finished one, be it with a result, an error, a panic or an aborted process |
| `Slurp.SlurpRefinesPlainRead` | src/slurp.rs:26-137 | The concurrent analysis with the HPROF parser, the real recorder and the real report is the plain one: read everything, record one after the other, build the report |
| `Slurp.ReportExactly` | src/result_recorder.rs:202-223 | A finished analysis returns the state of the plain one if and only if the read does not panic, no counted class runs into a cycle of superclasses, and every counted array's name can be cut |
| `Slurp.SlurpReadsDump` | src/slurp.rs:26-137 | On a file that encodes a list of records, every schedule and read size end exactly as recording those records and building their report does |
| `Slurp.SameReport` | src/result_recorder.rs:520-593 | Two analyses of one file that return, whatever their read sizes, schedules and hash-map iterations, have the same tables and the same rows in the same order, from tables on which the report does not fail; the bytes of the rows are the shallow sizes of the objects read, and fit 64 bits for files below 64 GiB with chains of up to 8192 classes |
| `BrokenDumps.BareMarkerPanics` | src/result_recorder.rs:559-565 | The bytes of a dump whose array class is named `[L`: every finished analysis of it has a panicking main thread |
| `BrokenDumps.SelfSuperAborts` | src/result_recorder.rs:491-518 | The bytes of a dump with a class that names itself as superclass, and an instance: every finished analysis of it is an aborted process |
| `BrokenDumps.SamplesSilentlyLost` | src/parser/record_parser.rs:896-912 | On every well-formed dump followed by a record of more CPU samples than traces, every finished analysis ends as if that record were not there |
| `BrokenDumps.OneTraceLost` | src/parser/record_parser.rs:896-912 | The bytes of a file with one record, of two samples in one trace: every finished analysis returns the report of an empty file |
| `Framing.ReadsClassDump` | src/parser/record_parser.rs:505-570 | The encoding of a class dump, with its three counted lists, is read back and used up exactly |
| `Framing.ReadsRoot` | src/parser/record_parser.rs:219-381 | So is that of every root and every Android extension |
| `Framing.ReadsDump` | src/parser/record_parser.rs:572-633 | So is that of instance and array dumps, with the body erased |
| `Framing.ReadsTopBody` | src/parser/record_parser.rs:635-912 | So is that of every top-level record |
| `Framing.CpuSamplesExactly` | src/parser/record_parser.rs:896-912 | The CPU samples record is read back if and only if its total of samples equals its number of traces |
| `Framing.TrailingSamplesLost` | src/parser/record_parser.rs:896-912 | At the end of a file, a record of more CPU samples than traces is incomplete for ever |
| `Framing.SegmentRead` | src/parser/record_parser.rs:115-125 | Inside a segment all sub-records are read and the sub-record mode ends exactly with the last |
| `Framing.DumpRead` | src/parser/record_parser.rs:84-127 | Framing round trip: for every well-formed dump, either identifier size and any bytes after it, reading its encoding gives its records and leaves top-level mode at the first byte after it |
| `Framing.DumpReadExactly` | src/parser/record_parser.rs:84-127 | A well-formed dump is read back if and only if each of its records of CPU samples has as many samples as traces |
| `Framing.WholeDumpRead` | src/parser/record_parser.rs:84-127 | A whole encoded dump is used up exactly |
| `Framing.StepReadsGc` | src/parser/record_parser.rs:115-125 | In sub-record mode the encoding of any sub-record is read back, and the remaining length is reduced by its length modulo 2^32 |
| `Framing.TruncationHarmless` | src/parser/record_parser.rs:118-122 | For every sub-record and remaining length, the step on its encoding leaves the exact remaining length if and only if the encoding is shorter than 2^32 bytes or its length modulo 2^32 still covers what remains |
| `Framing.TruncationOverruns` | src/parser/record_parser.rs:118-122 | The encoding of an array of 2^29 longs on which the step leaves 82 of 100 remaining bytes instead of none |
| `Skipping.SkipRefinesParse` | src/parser/record_parser.rs:399-456 | For every element type, count and input, skipping and parsing an array stop at the same byte, both run short, or both refuse, which they do exactly on arrays of objects |
| `ResultRecorders.ResultRecorder.RecordRecords` | src/result_recorder.rs:229-375 | The object stays valid, that is, each counter and each table entry is what the records seen so far say it should be, and the records seen grow by the batch |
| `Accounting.RecordingExact` | src/result_recorder.rs:229-375 | Recording any stream gives its account: every counter, count, tally, index and definition as the stream alone defines it |
| `Accounting.ExactDetermines` | src/result_recorder.rs:229-375 | That account leaves nothing open: only one state of all counters and tables satisfies it |
| `Accounting.TagsCounted` | src/result_recorder.rs:229-262 | For every stream, each top-level counter is the number of records of its kind |
| `Accounting.GcTagsCounted` | src/result_recorder.rs:263-372 | Each sub-record counter is the number of records of its kind, and the total is their sum plus the Android extensions that have no counter |
| `Accounting.InstancesCounted` | src/result_recorder.rs:293-302 | The count kept for a class is the number of its instances in the stream |
| `Accounting.InstancesAddUp` | src/result_recorder.rs:293-302 | The counts of all classes add up to the number of instance records |
| `Accounting.ObjectArraysTallied` | src/result_recorder.rs:303-315 | The counter of an array class holds the number, maximum and sum of the sizes of its arrays in the stream |
| `Accounting.PrimitiveArraysTallied` | src/result_recorder.rs:316-370 | So does that of a primitive type, arrays without data counting as zero bytes |
| `Accounting.MaxIsLargest` | src/result_recorder.rs:57-63 | The maximum meant is one of the sizes and no size exceeds it |
| `Accounting.LoadsKept` | src/result_recorder.rs:235-243 | Class loads are kept in order; both indexes stay in range and point at the latest load of their key |
| `Accounting.DefinitionsKept` | src/result_recorder.rs:333-349 | The first dump of a class is the one kept, with its superclass and the type of each of its fields in order; so is the last string of an identifier |
| `Accounting.StacksKept` | src/result_recorder.rs:245-254 | The last frame of an identifier and the last trace of a serial number are the ones kept |
| `InstanceSize.ArraySizesExact` | src/result_recorder.rs:678-714 | The size of an array is the least multiple of 8 that holds its header and its elements, for every element type and count |
| `InstanceSize.SizeFromTop` | src/result_recorder.rs:484-518 | On every chain that ends, sizes come from the top down: 8 or 16 bytes for a root or undefined class, then at each class the least multiple of the identifier size that holds its fields on top of its superclass; the result is rounded to 8 bytes |
| `InstanceSize.SizesUnique` | src/result_recorder.rs:491-518 | There is only one such sequence of sizes |
| `InstanceSize.UndefinedReached` | src/result_recorder.rs:498-501 | The class added to the missing ones is exactly the one without a definition that following superclasses reaches |
| `InstanceSize.CalculateInstanceSize` | src/result_recorder.rs:484-489 | The recursion ends on every chain that ends, gives that size, and adds exactly that class |
| `InstanceSize.FieldsSizeOnWire` | src/result_recorder.rs:668-676 | The size of a class's fields is the number of bytes their values take in the format |
| `InstanceSize.HeaderSizes` | src/result_recorder.rs:700-714 | Headers are 8 and 12 bytes with identifiers of 4 bytes, 16 and 16 with identifiers of 8 |
| `InstanceSize.ChainsEndEarly` | src/result_recorder.rs:491-518 | A chain that ends at all ends within as many links as there are classes; on the others no number of nested calls is enough |
| `InstanceSize.EndsUnlessCycle` | src/result_recorder.rs:491-518 | The chain of a class ends if and only if following its superclasses runs into no class that comes back to itself |
| `InstanceSize.SizeBounds` | src/result_recorder.rs:484-518 | Sizes are multiples of 8, never below the superclass's, at least header plus counted fields, and above that by at most (id size - 1) per class plus 7 |
| `InstanceSize.NoOverflow` | src/result_recorder.rs:484-518 | No 32-bit sum overflows for chains of up to 8192 classes of at most 65535 fields |
| `ClassTables.AnalysedSizesFit` | src/result_recorder.rs:484-518 | For every file whatever, in the class table its analysis ends with, sizes of chains of up to 8192 classes are exact in 32 bits |
| `ClassTables.ClassDumpYields` | src/parser/record_parser.rs:540-570 | A class dump read from any bytes has at most 65535 instance fields |
| `ClassTables.DrainYields` | src/parser/record_parser.rs:572-633 | A read of any bytes gives no more records than bytes, and objects that have taken up their room in the file: counting 2^32 bytes for an instance and its size for an array, at most 2^28 per byte |
| `Widths.ReportFits` | src/result_recorder.rs:520-593 | For every file whose counted classes have chains of up to 8192 classes: instance sizes fit 32 bits, counts are at most the length of the file, no size or total of a row exceeds the total of all rows, and that fits 64 bits below 64 GiB and signed 64 bits below 32 GiB |
| `Widths.CountersFit` | src/result_recorder.rs:81-105 | No tag counter exceeds the length of the file, so that below 4 GiB all fit their 32 bits |
| `Report.GetClassNameString` | src/result_recorder.rs:167-184 | The class is added to the missing ones exactly when its name does not resolve, and gets a placeholder with its identifier then |
| `Meaning.NamesFromStream` | src/result_recorder.rs:167-184 | A class resolves to the last string of its last load in the stream, and to nothing if there is none |
| `Meaning.TotalFromStream` | src/result_recorder.rs:520-593 | The bytes of all rows are the sum, over all instance and array records of the stream, of the shallow size of each object; `Widths.ReportFits` says when the program's integers hold it |
| `Report.CutExactly` | src/result_recorder.rs:559-565 | Cutting an array name panics if and only if the name is a bare marker, or a marked name that ends in a character of more than one byte |
| `Report.CutKeepsName` | src/result_recorder.rs:558-568 | A cut name between its marker and its last byte is the whole name; a name without a marker is left alone |
| `Report.DotsForSlashes` | src/result_recorder.rs:178 | A shown name has the length of the string and differs from it only by a dot for each slash |
| `Report.PlaceholderNames` | src/result_recorder.rs:179-182 | A class without a name is shown with its identifier in hexadecimal, which reads back to it |
| `Report.HexReadsBack` | src/result_recorder.rs:181 | Hexadecimal digits read back to the number, without leading zeros |
| `Report.ShortLabels` | src/result_recorder.rs:545-546 | The labels of boolean, byte, char, int and long arrays |
| `Report.LongLabels` | src/result_recorder.rs:545-546 | The labels of float, short and double arrays |
| `Report.AggregateMemoryUsage` | src/result_recorder.rs:520-593 | It panics if and only if some counted array name cannot be cut; otherwise rows are a permutation of one row per class and array type, in canonical order, and the missing classes added are exactly the counted classes without a name and the classes without a definition that the superclass chain of a counted class reaches |
| `Report.CanonicalMeans` | src/result_recorder.rs:585-591 | In canonical order names descend; under one name totals, then counts, then largest sizes descend |
| `Meaning.RowsFromStream` | src/result_recorder.rs:524-577 | There is exactly one row for each class and array type with objects in the stream. A class row has its instances, the size of one and their product; an array row has the number, the largest and the sum of the sizes; each has the name the stream gives |
| `Meaning.MissingFromStream` | src/result_recorder.rs:491-577 | The missing classes are those with objects but no name in the stream, and those without a dump that the first dumps of the stream put among the superclasses of a class with instances |
| `Report.OrderIndependent` | src/result_recorder.rs:524-592 | For any two iteration orders, any two sorted arrangements of the rows are the same sequence |
| `Report.TopTables` | src/rendered_result.rs:94-108 | The total is that of all rows; each table is a sorted choice of the first `top` rows that nothing left out precedes; on canonical rows the ties are settled as in `TwoSorts` |
| `Report.TwoSorts` | src/rendered_result.rs:196-203 | Two stable sorts over canonical rows order by (total, name, count, largest) and then by (largest, total, name, count), all descending |
| `Sorting.StableUnique` | src/rendered_result.rs:196-203 | A stable sort has one result: sorted, with the elements that tie in their old order |
| `Sorting.StableRefines` | src/rendered_result.rs:196-203 | Any stable sort by a new key keeps the old order among ties, so two in a row order lexicographically |
| `Sorting.NameLeExactly` | src/result_recorder.rs:586-588 | One name comes before another exactly when it is a prefix of it or has the smaller byte at the first place where they differ |
| `Diff.TotalsByClassName` | src/diff.rs:35-43 | For every name, the instances and bytes of all rows with that name; no other names |
| `Diff.Compute` | src/diff.rs:47-78 | Whatever the hash-map iteration: exactly the names with changed totals, each once, with the totals of both sides, by growth in bytes descending and then by name |
| `Diff.DiffUnique` | src/diff.rs:47-78 | The difference is determined, entry for entry, by the totals per name |
| `Diff.DiffPermuted` | src/diff.rs:47-78 | Permuting the rows of either side changes nothing |
| `Diff.DiffShowsChanges` | src/diff.rs:47-78 | A name appears exactly when its totals changed; the difference is empty exactly when all totals agree |
| `Diff.DiffAntisymmetric` | src/diff.rs:22-78 | Comparing the other way round gives the same entries with the sides swapped and every delta negated |
| `Diff.DiffConserves` | src/diff.rs:23-90 | The deltas of the entries add up to the net change of the whole heap, in bytes and in instances, and each entry's first count plus its delta is its second |
| `Diff.CastsExact` | src/diff.rs:23-25 | While both heaps are below 2^63 bytes, the casts to signed 64 bits are exact and no difference of bytes leaves them |
| `Calendar.CivilIsCalendar` | src/utils.rs:20-34 | For every day from 1970-01-01 the formula gives the date that counting day by day gives; no subtraction underflows |
| `Calendar.CivilInvertsCount` | src/utils.rs:20-34 | Counting whole years, months and days up to that date gives the day back |
| `Calendar.YearFound` | src/utils.rs:24-26 | The year of the era found holds the day |
| `Calendar.TimestampExact` | src/utils.rs:6-17 | The fields printed are a valid date and time of day and name the very second |

## Notes

- The code and the HPROF format disagree on CPU samples: the format repeats the entry once per
  trace, the code once per sample. The model follows the code; `Framing.CpuSamplesExactly` and
  `Framing.DumpReadExactly` give the exact condition, `BrokenDumps.OneTraceLost` a file.
- The remaining length of a segment is reduced by the sub-record length truncated to 32 bits. Chunk
  invariance does not depend on it; the framing round trip needs sub-records below 2^32 bytes, which
  the 32-bit segment length implies. `Framing.TruncationHarmless` gives the exact condition.
- The recursion over superclasses keeps no list of visited classes. On a cycle it does not return,
  and the overflow of the recorder's stack ends the process: `InstanceSize.EndsUnlessCycle` is the
  condition, `BrokenDumps.SelfSuperAborts` a file.
- Array names are cut at both ends without a check. `Report.CutExactly` is the condition under which
  the recorder panics there, and the main thread with it when it asks for the result;
  `BrokenDumps.BareMarkerPanics` is a file.

## Left out

- File opening, `read_exact` failures, thread start errors and the progress bar: I/O. The file is a
  constant byte sequence and a read delivers what was asked for.
- The command line, JSON serialisation, saving, text tables, thread information, captured and
  duplicated strings, and warnings: display. The result message of the pipeline is the recorder's
  state, from which the report is computed.
- A superclass chain without a cycle that is too deep for the recorder's stack: the depth at which
  that happens is the platform's. A cycle overflows at any depth.
- `parse_file_header` and `slurp_header`: a fixed parse of 31 bytes. The identifier size is 4 or 8.
- `String::from_utf8_lossy`: strings are their raw bytes. Floating-point field values are their bit
  patterns.
- Hash maps are mathematical maps; every iteration order is allowed. Buffer capacities are left out.
- Wrap-around beyond the bounds of `Widths.ReportFits`, `Widths.CountersFit` and `Diff.CastsExact`:
  counters and sums are unbounded numbers there. The cast of instance totals to signed 64 bits in the
  difference is taken as exact.
- `Calendar.CivilFromDays`: does not model 64-bit overflow of `days + 719_468`, which no time stamp
  in milliseconds reaches.
- Moving strings and class fields out of a recorded batch, which is cleared right after: the model
  records the batch as a value.
- The sorting algorithms: results rest on what `sort_by_key` and `sort_unstable` promise, and a
  stable sort has one result. Sorting in place is modelled on values.
- The error `lazy_many1` reserves for a parser that succeeds without consuming: no record parser
  does, see `RecordParser.TwoModesStream`.
- Debug printing, the flame graph, the glossary and the reference outputs.
