# Verification of claire-common's core

A Dafny 4.11 model of the five parts of claire-common whose correctness is hardest to
see by reading, with proofs of what they promise. `dafny verify dfyconfig.toml` checks
all of it.

* **The line-number machine** of `symbolizer/Dwarf.cc`: LEB128 readers, the interpreter
  of a DWARF 4 line program (section 6.2), the streaming address search, and the second,
  skipping interpreter that looks for file definitions. `LineProgram.dfy`,
  `LineTable.dfy`, `FileTables.dfy` and `LineUnit.dfy` say what a program means;
  `LineNumberVM.dfy` has the class whose methods are proved to compute it;
  `LineEncoding.dfy` has an encoder whose output the machine decodes to the same rows;
  `LineLookup.dfy` puts search, table lookup and encoder together, and `UnitEncoding.dfy`
  encodes whole units, header and tables included, and has them parsed and searched.
* **The reactor**: `EventLoop.dfy` (posting from any thread, the eventfd, batches of
  tasks) and `TimeoutQueue.dfy` (two views of the timeouts, callbacks that re-enter the
  queue, the timer descriptor).
* **The asynchronous logger**: `LogBuffer.dfy` and `Logger.dfy`.
* **The thread pool**: `ThreadPool.dfy`.
* **Histograms**: `BucketRanges.dfy`, `SampleVector.dfy`, `Histogram.dfy`,
  `HistogramReport.dfy`.

`UriEscape.dfy` adds the URI escaping pair, `Base.dfy`, `StringPiece.dfy` and `Runs.dfy`
(runs of a machine) what the others share.

The sequential code is modelled by classes and loops of the source's shape, each method
proved against a specification function; the theorems are about those functions. The
concurrent code is modelled twice over the same data. A machine has one step for each
atomic action of a thread: a critical section, a system call, a read of an atomic flag.
Its theorems hold after every sequence of steps, that is, for any number of threads in
any interleaving. A class has the source's methods, and each is proved to make a run of
that machine, with arbitrary actions of the other threads wherever it lets go of the
lock. A step that is not enabled in a state does nothing there, so runs need no side
condition.

## Where the code departs from its intent

The model follows the code. For each departure the members named say what it means and,
where something promised fails, exactly when it holds.

* `NextDefineFile` compares the standard opcode byte, which is zero at that point, with
  `DW_LNE_define_file` (Dwarf.cc:721-724), so it never finds a file. Both the comparison as
  written and the intended one are modelled (the parameter `tested`):
  `AsWrittenNamesHeaderFilesOnly`, `FileAtNamesAllFiles`.
* `NextDefineFile` skips a two-byte operand as if it were LEB128 (Dwarf.cc:709-713 against
  789-791): `FixedAdvanceInStepExactlyWhen`, `LockstepExactlyWhenWellFormed`.
* `StringPiece::advance` moves the start of the window without shrinking it
  (StringPiece.h:202-207), and does not allow moving over the whole window. The readers
  of the model consume as `remove_prefix` does; `Advance`, as written, leaves what
  consuming would leave only if it moves by nothing.
* The search can pass over a row when addresses decrease within a sequence:
  `AnswersWithFirstCover`, `DescendingProgramIsPassedOver`. The code's comment relies on
  the order that `SearchIsTableLookup` requires.
* The escape table leaves '9', 'Z' and 'z' out of the unreserved characters
  (generate_escape_tables.py:80-84), against UriEscape.h:40-43: `UnchangedExactlyWhen`.
* `Accumulate` adds one to the bucket whatever the count, and count times the value to
  the sum (SampleVector.cc:29-30): `AccumulateRecordsExactlyWhen`. Its only caller passes
  one.
* A failed merge leaves the buckets before the failing one merged, and the sum changed:
  `AddSubtractImpl`, `FailureChangesNothingExactlyWhen`.
* A cancellation that the loop performs before it has run the insertion another thread
  posted (TimeoutQueue.cc:116-122, 165-169) finds nothing, and the timeout fires:
  `CancelledFiresExactlyWhen`, `CancelledInBatchFiresExactlyWhen`, `EarlyCancelIsLost`.
* A log message longer than a buffer is cut to the size of a buffer (LogBuffer.h:35-51):
  `MessageStaysTogether`.
* The constructor of a histogram does not inspect its arguments (only `FactoryGet` does):
  `IncreasesExactlyWhenConstructible` has the condition on the arguments under which the
  boundaries increase, `LargestMaximumIsUnusable` arguments that fail it.
* Stopping the logger loses what was appended after the writer's last swap:
  `DoneWriterWroteAllExactlyWhen`. The assertion that `running_` is set (Logger.cc:68) is an
  assignment; `Start` has made it before (Logger.h:48-52), so the machine begins running
  whether or not assertions are compiled in.
* A loop told to quit leaves what was posted after its last swap:
  `StoppedLoopStartedAllExactlyWhen`.
* Stopping the pool wakes the workers and not the callers of `Run`, so a caller can wait
  for good: `QueuesExactlyWhen`, `ServesExactlyWhen`, `StopCanStrandAProducer`. If that
  caller is a worker whose task calls `Run`, so does `Stop` itself: `JoinsExactlyWhen`,
  `StopCanWaitForGood`.
* Stopping the pool leaves queued tasks that never run: `StopLeaves`.
* A timeout at the largest time there is, added to an idle queue, never starts the timer:
  `IdleQueueArmsExactlyWhen`.

## Model

The theorems come first, by component; after them the methods that are proved to compute
what the theorems are about, and the steps of the proofs.

| member | source | states |
|---|---|---|
| LineNumberVMs.LineNumberVM.FindAddress | claire/common/symbolizer/Dwarf.cc:845-908 | without keeping rows, the streaming search gives the answer that the materialised matrix gives: the first row that answers, and nothing left over from an earlier sequence |
| LineLookup.FindsFirstCover | claire/common/symbolizer/Dwarf.cc:845-908 | for every unit with tables as parsed and addresses non-decreasing within sequences: the answer has the line of the first row that covers the target, and name and directory of the entry of the header's file table that the row's file number names, directory 0 being left to the caller; it is an answer if and only if that entry's directory exists, nothing if and only if the file number is zero, and a stop for a file beyond the table |
| LineLookup.FindsFirstCoverInDefinedFile | claire/common/symbolizer/Dwarf.cc:845-908 | with the intended comparison the same for the header's files followed by those the program defines: an answer if and only if file and directory exist |
| UnitEncoding.EncodedUnitIsSearched | claire/common/symbolizer/Dwarf.cc:574-908 | for every supported header, directory table, file table and encodable matrix: the encoded unit is parsed, and a search of it for a covered address finds directory, file name and line of the first covering row as they were encoded |
| UnitEncoding.UnitRoundTrip | claire/common/symbolizer/Dwarf.cc:574-622 | a unit encoded by section 6.2.4 of DWARF 4, in either offset size, is accepted if and only if its version is 2 to 4, its operations per instruction are 1 in version 4, and its opcode base is not zero; then header, directories, files and program are those encoded, else it is a bad header |
| UnitEncoding.FieldsStandInOrder | claire/common/symbolizer/Dwarf.cc:574-622 | in every chunk that is accepted each field of the header is the byte at its place: signed line base before line range, and one operand count for each opcode below the opcode base; the program starts header_length bytes on |
| LineLookup.SearchIsTableLookup | claire/common/symbolizer/Dwarf.cc:845-908 | for every unit with such sequences the row the search settles on is the first one that covers the target, and it finds nothing exactly when no row does, file registers being non-zero |
| LineTable.OrderedSearchIsTableLookup | claire/common/symbolizer/Dwarf.cc:851-884 | with addresses non-decreasing within sequences, the search finds a row if and only if one covers the target, and then the first one |
| LineTable.AnswersWithFirstCover | claire/common/symbolizer/Dwarf.cc:851-855 | for any matrix, the first row that covers the target is the answer exactly when its sequence starts at or below the target |
| LineLookup.DescendingProgramIsPassedOver | claire/common/symbolizer/Dwarf.cc:869-905 | for every header with room for the opcodes, a program of seven instructions commits such rows, covers an address with one of them, and the search does not find it |
| FileTables.LockstepExactlyWhenWellFormed | claire/common/symbolizer/Dwarf.cc:694-843 | on every decodable program the skipping interpreter visits exactly the boundaries the executing one visits if and only if every instruction is well formed in that sense |
| FileTables.InStepExactlyWhenWellFormed | claire/common/symbolizer/Dwarf.cc:699-731 | one instruction leaves both interpreters at the same byte if and only if its operand counts and extended length are those it is executed with, and the two bytes of a fixed advance look like the numbers declared for it |
| FileTables.FixedAdvanceInStepExactlyWhen | claire/common/symbolizer/Dwarf.cc:709-713 | with the operand count the standard prescribes, for every header and operand: in step if and only if the first byte is 128 or more and the second is less |
| LineUnit.FileAtNamesAllFiles | claire/common/symbolizer/Dwarf.cc:630-655 | with the intended comparison index k names entry k of the header's table followed by the definitions in program order, for every well-formed program |
| LineUnit.AsWrittenNamesHeaderFilesOnly | claire/common/symbolizer/Dwarf.cc:630-655 | as written an index is answered if and only if it is within the header's table |
| LineEncoding.EncodingRoundTrip | claire/common/symbolizer/Dwarf.cc:737-843 | for every line base, non-zero line range and opcode base with room for the first four standard opcodes, the program encoding any matrix of upward sequences by section 6.2.5 of DWARF 4 reproduces exactly its rows |
| LineEncoding.AssemblerRoundTrip | claire/common/symbolizer/Dwarf.cc:737-843 | the encoding of every expressible instruction, followed by anything, decodes to that instruction and is consumed exactly |
| LineLookup.EncodedSearchIsTableLookup | claire/common/symbolizer/Dwarf.cc:845-908 | in the encoding of any matrix the search settles on the first row of the matrix that covers the target |
| Leb128.UlebRoundTrip | claire/common/symbolizer/Dwarf.cc:45-63 | every 64-bit unsigned value encoded by section 7.6 of DWARF 4, followed by anything, reads back, and exactly its encoding is consumed |
| Leb128.SlebRoundTrip | claire/common/symbolizer/Dwarf.cc:65-78 | the same for every signed value, with the ten-byte encodings where the shift reaches 64 |
| Leb128.DigitsEndExactlyWhen | claire/common/symbolizer/Dwarf.cc:50-54 | a number is read if and only if one of its first ten bytes ends it |
| Leb128.NumbersOfTheStandard | claire/common/symbolizer/Dwarf.cc:45-78 | the encodings the round trips are about are those of the examples in section 7.6 of DWARF 4 |
| EventLoops.NoLostWakeup | claire/common/events/EventLoop.cc:107-161 | in every reachable state in which the loop waits in poll with a task queued, the eventfd is readable or another thread is about to write to it |
| EventLoops.QuitWakesTheLoop | claire/common/events/EventLoop.cc:107-136 | in every reachable state in which the loop waits in poll after a quit, the eventfd is readable or another thread is about to write to it |
| EventLoops.ReadableExactlyWhenWritten | claire/common/events/EventLoop.cc:237-255 | after every run the eventfd is readable if and only if it was written to since the loop last read it, so a woken loop goes back to sleep |
| EventLoops.ActiveChannelsAreHandled | claire/common/events/EventLoop.cc:115-120 | in every run from a return of poll to the next: the handlers called are a beginning of the active channels, in order, and all of them once the loop has gone on to its tasks |
| EventLoops.ExecutedInPostOrder | claire/common/events/EventLoop.cc:257-271 | in every reachable state started tasks, the rest of the batch and the queue are what was posted, in order, each started in its poster's trace context |
| EventLoops.BatchIsFixed | claire/common/events/EventLoop.cc:259-270 | until the next swap nothing posted during a batch is started, and after the batch everything posted before its swap has been |
| EventLoops.StoppedLoopStartedExactly | claire/common/events/EventLoop.cc:107-123 | for every run that stops: what was posted before the last swap was started, what was posted after it is left, and so everything was started if and only if no push took effect after that swap |
| EventLoops.StoppedBeforeAnySwap | claire/common/events/EventLoop.cc:107-123 | a run that stops without a swap has started nothing |
| EventLoops.StoppedLoopStartedAllExactlyWhen | claire/common/events/EventLoop.cc:107-123 | for every run that stops, with or without a swap: everything posted was started if and only if no push took effect after the last swap |
| TimeoutQueues.TimeoutQueue.Run | claire/common/events/TimeoutQueue.cc:177-204 | whatever the callbacks do, exactly the events due at entry are called back in order, after the repeating ones were rescheduled, and the result is the next expiration |
| TimeoutQueues.DueExactly | claire/common/events/TimeoutQueue.cc:179-183 | a batch is the events with expiration at most now, each once, in non-decreasing order of expiration; exactly the later ones stay |
| TimeoutQueues.BeforeCallbacksIsValid | claire/common/events/TimeoutQueue.cc:183-195 | when the first callback starts, the queue holds exactly the later events and the batch's repeating ones at now + interval |
| TimeoutQueues.EveryRunIsValid | claire/common/events/TimeoutQueue.h:76-90 | over every run the two views hold the same events, sorted, with ids distinct, given out, and not in use by an event still on its way |
| TimeoutQueues.OneShotFiresOnce | claire/common/events/TimeoutQueue.h:55-60 | over every run a one-time timeout fires at most once, and if nobody cancels it, it has fired exactly once or is still pending |
| TimeoutQueues.AddFiresOnce | claire/common/events/TimeoutQueue.cc:116-130 | after Add, called by any thread in any state: over every run the timeout fires at most once, and if nobody cancels it, it is pending for its time or has fired exactly once |
| TimeoutQueues.AddRepeatingGoesOn | claire/common/events/TimeoutQueue.cc:132-146 | after AddRepeating, called by any thread in any state, over every run without a cancellation: the timeout is pending, at first one interval from now, and any batch run when it is held and due calls it back once and leaves it pending one interval later |
| TimeoutQueues.AddRepeatingFiresEveryTime | claire/common/events/TimeoutQueue.cc:132-204 | added in the loop, it is called back by every one of any number of batches, each run an interval or more after the one before |
| TimeoutQueues.AddedIsPending | claire/common/events/TimeoutQueue.cc:116-146 | both calls make an event with an id nobody had, at the given time or one interval from now, repeating in the second case only; held at once in the loop's thread, and posted by any other |
| TimeoutQueues.CancelledFiresExactlyWhen | claire/common/events/TimeoutQueue.cc:116-169 | in every state, after the erasure of any id, made from the loop or run for another thread: some continuation fires the id if and only if it is not given out yet or its insertion, posted by another thread, has not run |
| TimeoutQueues.CancelledInBatchFiresExactlyWhen | claire/common/events/TimeoutQueue.cc:185-202 | for every batch, callback and call in it that cancels an id given out by then, a repeating timeout of that batch included: some continuation after the batch fires the id if and only if its insertion had not run at the call |
| TimeoutQueues.RepeatingGoesOn | claire/common/events/TimeoutQueue.cc:177-204 | over every run without a cancellation a repeating timeout stays pending, and held once held, unchanged until it fires; whatever comes next, it is called back once if that is a batch run at or after its expiration and it is held, and then it is pending at that time plus the interval, and else not called back and unchanged |
| TimeoutQueues.EveryRunStaysArmed | claire/common/events/TimeoutQueue.cc:110-175 | over every run of additions, cancellations, deliveries and expiries, with additions made in callbacks, the armed deadline is at most the next expiration or 100 microseconds after arming |
| TimeoutQueues.DueEventIsFiredOnTime | claire/common/events/TimeoutQueue.cc:148-204 | in every reachable state, once an event is due and 100 microseconds have passed since arming, the timer is ready and the batch contains the event |
| TimeoutQueues.AddedSetsTimerWhenEarliest | claire/common/events/TimeoutQueue.cc:148-158 | an added event stands behind those that expire no later, and sets the timer, to its expiration or to 100 microseconds after the clock, if and only if it expires before all others, or before the last instant if there are none |
| TimeoutQueues.DeadlineIsExact | claire/common/events/TimeoutQueue.cc:50-89 | from seconds and nanoseconds back, the descriptor fires at the given microsecond, or 100 microseconds after it is set if that is later |
| TimeoutQueues.IdleQueueArmsExactlyWhen | claire/common/events/TimeoutQueue.cc:151-156 | an addition to an idle queue starts the timer if and only if it does not expire at the largest time |
| TimeoutQueues.HowMuchTimeFromNow | claire/common/events/TimeoutQueue.cc:50-62 | the pair converts back to max(100, when - now) microseconds, has fewer than 10^9 nanoseconds, and is never zero, which would disarm the timer |
| Loggers.NothingIsLostWithoutOverload | claire/common/logging/Logger.cc:88-122 | in every reachable state without an oversized batch: the file, then what the writer holds, then the queue, then the current buffer equal all bytes accepted |
| Loggers.OnlyReportedBuffersAreLost | claire/common/logging/Logger.cc:106-122 | for all batches the file misses exactly the buffers after the first two of the oversized ones, and the notices add up to their number |
| Loggers.EveryRunIsSupplied | claire/common/logging/Logger.cc:82-144 | in every interleaving no assertion of the writer fails, no null buffer is used, and each round starts with two empty buffers, also after a drop |
| Loggers.EveryRunConserves | claire/common/logging/Logger.cc:88-122 | in every interleaving the batches, the queued buffers and the current one are all bytes accepted in lock order, and the file has what the batches call for |
| Loggers.DrainedExactlyWhen | claire/common/logging/Logger.cc:82-148 | for every run in which the writer is done: the file has what was accepted before its last swap less what was reported as dropped, and so it has everything if and only if no batch was oversized and no byte was appended after that swap |
| Loggers.DoneBeforeAnySwap | claire/common/logging/Logger.cc:82-148 | a writer that is done without a swap has written nothing |
| Loggers.DoneWriterWroteAllExactlyWhen | claire/common/logging/Logger.cc:82-148 | for every run in which the writer is done, with or without a swap: the file has everything if and only if no batch was oversized and no byte was appended after the last swap |
| Loggers.MessageStaysTogether | claire/common/logging/Logger.cc:31-53 | after an append the current buffer ends in the whole message if and only if that is no longer than a buffer; what is kept of it is never split over two |
| ThreadPools.NoLostWakeup | claire/common/threading/ThreadPool.cc:69-132 | in every reachable state, with barging and spurious wakeups: while a worker sleeps, a queued entry has a worker notified or at the check; while a producer sleeps, so has a free slot a producer; the bound holds and entries leave in order |
| ThreadPools.QueuesExactlyWhen | claire/common/threading/ThreadPool.cc:50-126 | in every state after the broadcast of Stop and for every number: some continuation queues so many more entries if and only if the queue is unbounded or there are so many free slots and workers on their way into Take together, less the one that is at its check of an empty queue |
| ThreadPools.ServesExactlyWhen | claire/common/threading/ThreadPool.cc:50-126 | in every state after the broadcast and for every set of callers, one or all, nested calls of tasks among them: some continuation gets all of them out of Run if and only if the queue is unbounded or those inside, and another caller that holds the lock with room, are no more than that |
| ThreadPools.SomeStayInside | claire/common/threading/ThreadPool.cc:69-86 | and in every state of every continuation at least as many of them are inside Run as exceed it |
| ThreadPools.JoinsExactlyWhen | claire/common/threading/ThreadPool.cc:50-67 | in every state after the broadcast: some continuation ends all workers, for which the joins of Stop wait, if and only if the queue is unbounded or the tasks that are themselves inside Run, and another caller that holds the lock with room, are no more than the room |
| ThreadPools.StopLeaves | claire/common/threading/ThreadPool.cc:50-67 | for every run after the broadcast at whose end the workers have ended: the queue keeps at least what was queued, then and later, beyond one entry for each worker on its way into Take, and exactly that if nothing was queued later |
| ThreadPools.WorkersRunOut | claire/common/threading/ThreadPool.cc:50-67 | in any continuation of a state after the broadcast the loops of the workers make a bounded number of steps |
| ThreadPools.AtMostOneMore | claire/common/threading/ThreadPool.cc:134-148 | after the broadcast each worker takes at most one more task |
| Buckets.AcceptedLayout | claire/common/metrics/Histogram.cc:65-91 | all accepted arguments give strictly increasing boundaries 0, minimum, ..., maximum, INT_MAX |
| Buckets.EndsAtMaximumExactlyWhenBucketsFit | claire/common/metrics/Histogram.cc:133-134 | the last inner boundary is the maximum if and only if there are at most maximum - minimum + 2 buckets, so the bound checked is exactly the one needed |
| Buckets.IncreasesExactlyWhenConstructible | claire/common/metrics/Histogram.cc:50-91 | for any arguments of the constructor the layout increases if and only if minimum + count - 2 is below INT_MAX and, with three buckets or more, so is the maximum |
| Buckets.RoundedRootIsRounding | claire/common/metrics/Histogram.cc:76-83 | the integer used for the next boundary is floor(x + 0.5) of the ideal real x with x^n = c^(n-1) m |
| SampleVectors.SampleVector.AddSubtractImpl | claire/common/metrics/SampleVector.cc:60-88 | for any two layouts it terminates, succeeds if and only if every non-empty source bucket is a target bucket, and has then changed each count by what the source holds for that interval; a failure has merged exactly the source buckets before the first non-empty one that is no target bucket; also when source and target are the same |
| SampleVectors.FailureChangesNothingExactlyWhen | claire/common/metrics/SampleVector.cc:60-84 | a failed merge leaves all counts as they were if and only if the bucket it fails at is the first non-empty one, and counts and sum if and only if moreover the other sum is zero |
| SampleVectors.AddThenSubtract | claire/common/metrics/HistogramSamples.cc:15-27 | subtracting what was added restores all counts, for any layouts |
| SampleVectors.AccumulateRecordsExactlyWhen | claire/common/metrics/SampleVector.cc:26-31 | for every count of either sign and every n: counts and sum are as if the value were recorded n times if and only if n is one and the count is one or the value zero; the sum alone, if and only if the count is n or the value zero |
| Histograms.Histogram.Add | claire/common/metrics/Histogram.cc:143-153 | after it, each count is the number of all values ever given whose clamped value lies in the bucket, and the sum is theirs, for every int |
| Histograms.TotalIsExact | claire/common/metrics/Histogram.cc:143-153 | the clamp puts every int into some bucket, so the counts add up to the number of calls |
| Histograms.NothingOverflows | claire/common/metrics/Histogram.cc:143-153 | for up to 2^31 - 1 values no count leaves the range of int and the sum stays within 64 bits |
| Histograms.ClampIsNearest | claire/common/metrics/Histogram.cc:148-151 | what is recorded for a value is the nearest one that a histogram can hold, and the value itself if it can |
| Histograms.Histogram.WriteAscii | claire/common/metrics/Histogram.cc:282-385 | the report's average times the count is the sum, every bucket is shown once, and each row's three numbers split the recorded values at its bucket |
| HistogramReports.LayoutIsUnique | claire/common/metrics/Histogram.cc:318-352 | these conditions fix which buckets are rows and which are gaps |
| HistogramReports.RowsAddUp | claire/common/metrics/Histogram.cc:315-353 | no sample is lost in a gap: the rows add up to the total |
| HistogramReports.NothingDividesByZero | claire/common/metrics/Histogram.cc:337-347 | a bucket that is plotted, even an empty one, has a non-empty bucket at or beside it, so neither the peak nor the total it divides by is zero |
| HistogramReports.SizeIsDensity | claire/common/metrics/Histogram.cc:231-239 | the size drawn for a bucket is its count for each unit of width, up to five units, so of two with equal counts the wider one is not taller |
| UriEscapes.RoundTrip | claire/common/strings/UriEscape.cc:38-129 | for every byte string and mode, unescaping the escaped string gives it back and never throws |
| UriEscapes.RoundTripAcrossModes | claire/common/strings/UriEscape.h:40-57 | what one mode writes another reads back if and only if no space was written in QUERY mode for another mode to read |
| UriEscapes.EscapedExactlyWhenCanonical | claire/common/strings/UriEscape.h:35-43 | the outputs are exactly the strings of pass-through bytes, '+' in QUERY mode, and '%' with two upper-case digits (section 2.1 of RFC 3986) for a byte that needs it |
| UriEscapes.UnchangedExactlyWhen | claire/common/strings/generate_escape_tables.py:80-96 | a string is left unchanged if and only if it consists of unreserved characters (section 2.3 of RFC 3986), and '/' in PATH mode, and has no '9', 'Z' or 'z' |
| UriEscapes.DecodesExactlyWhen | claire/common/strings/UriEscape.cc:81-129 | a string is decoded without error if and only if every percent sign has two hexadecimal digits, of either case, behind it |
| UriEscapes.MalformedAt | claire/common/strings/UriEscape.cc:81-129 | the error is that of the first percent sign without them, incomplete if the string ends before both; the output then lacks exactly the longest run of bytes before it that were copied as they are |
| UriEscapes.DigitsAreHexadecimal | claire/common/strings/generate_escape_tables.py:60-72 | digits are written in upper case and read in either |
| UriEscapes.EscapedByteIsPercentEncoded | claire/common/strings/UriEscape.cc:38-79 | a byte that is not left unchanged becomes a percent sign and its two digits, but a space in QUERY mode a plus sign |
| StringPieces.StringPiece.RemovePrefix | claire/common/strings/StringPiece.h:99-104 | exactly the first n bytes of the window go away; what later reads see is the rest |
| StringPieces.StringPiece.Advance | claire/common/strings/StringPiece.h:202-207 | as written: the window slides with its length unchanged, sticks out of a buffer it ended with, and holds what consuming would leave if and only if it moves by nothing |
| Leb128.ReadByte | claire/common/symbolizer/Dwarf.cc:33-43 | one byte is consumed and returned; an empty window is an underflow |
| Leb128.ReadDigits | claire/common/symbolizer/Dwarf.cc:46-56 | the or-ing loop computes the sum of the weighted digits modulo 2^64, consumes exactly them, and reports underflow or a shift of 64 and more where the loop meets it |
| Leb128.ReadUleb | claire/common/symbolizer/Dwarf.cc:58-63 | the value is the digit sum modulo 2^64 and the cursor stands after the last digit |
| Leb128.ReadSleb | claire/common/symbolizer/Dwarf.cc:66-78 | or-ing in the mask of ones subtracts the sign weight, and ten digits are not extended |
| LineNumberVMs.ReadFixed | claire/common/symbolizer/Dwarf.cc:33-43 | a little-endian integer of n bytes is read and consumed, or there are too few bytes |
| LineNumberVMs.ReadNullTerminated | claire/common/symbolizer/Dwarf.cc:95-103 | the bytes before the first null are returned and the null is consumed with them; without a null the program stops |
| LineNumberVMs.ReadFileName | claire/common/symbolizer/Dwarf.cc:679-692 | name, directory index and two skipped numbers are consumed; an empty name ends the table and takes nothing after it |
| LineNumberVMs.ReadDirectories | claire/common/symbolizer/Dwarf.cc:597-607 | the stretch kept is the whole table with its terminator and the count is the number of its names |
| LineNumberVMs.ReadFileNames | claire/common/symbolizer/Dwarf.cc:609-616 | the same for the file table |
| LineNumberVMs.LineNumberVM.Init | claire/common/symbolizer/Dwarf.cc:574-617 | the header is accepted exactly when the header grammar accepts it, each rejection has its reason, and the tables kept read back with as many entries as were counted |
| LineUnit.ParsedUnitIsWellCounted | claire/common/symbolizer/Dwarf.cc:600-616 | cutting a table out of the header and reading it again gives the entries counted the first time |
| LineNumberVMs.LineNumberVM.StepStandard | claire/common/symbolizer/Dwarf.cc:756-814 | operands consumed and registers changed are those of the decoded instruction, with the opcodes version 2 does not have skipped by the header's operand counts |
| LineNumberVMs.LineNumberVM.StepExtended | claire/common/symbolizer/Dwarf.cc:816-842 | the same for extended opcodes; length zero stops, and unknown ones are skipped by their length |
| LineNumberVMs.LineNumberVM.Step | claire/common/symbolizer/Dwarf.cc:737-843 | one call is one instruction of the specification: same bytes consumed, same registers, same result, same stop |
| LineNumberVMs.LineNumberVM.Next | claire/common/symbolizer/Dwarf.cc:619-628 | runs to the next committed row or end of sequence |
| LineNumberVMs.LineNumberVM.NextDefineFile | claire/common/symbolizer/Dwarf.cc:694-735 | finds the next definition of the skipping interpreter with either comparison, or the end |
| LineNumberVMs.LineNumberVM.GetFileName | claire/common/symbolizer/Dwarf.cc:630-655 | an index is looked up in the header's table, and past it among the definitions the scanner finds |
| LineNumberVMs.LineNumberVM.GetIncludeDirectory | claire/common/symbolizer/Dwarf.cc:657-677 | index zero is the compilation directory, a counted index its name, any other a stop |
| LineTable.FirstAnswer | claire/common/symbolizer/Dwarf.cc:851-907 | the row found is the least that answers; none only if no row does |
| LineTable.UnorderedSequenceIsPassedOver | claire/common/symbolizer/Dwarf.cc:851-855 | rows that go down within a sequence show the order is needed |
| FileTables.AsWrittenFindsNothing | claire/common/symbolizer/Dwarf.cc:717-728 | with the comparison as written no program ever yields a defined file |
| FileTables.ScannerFollowsProgramOrder | claire/common/symbolizer/Dwarf.cc:647-654 | with the intended comparison, the k-th file found is the k-th definition in program order, and asking for more is an error |
| FileTables.FixedAdvanceBreaksLockstep | claire/common/symbolizer/Dwarf.cc:709-713 | a standard header and an advance by a fixed operand take the interpreters apart |
| LineUnit.CountedIndexNamesAFile | claire/common/symbolizer/Dwarf.cc:635-646 | an index within the counted table always names an entry, so the abort there cannot happen |
| LineUnit.CountedIndexNamesADirectory | claire/common/symbolizer/Dwarf.cc:663-676 | the same for directories, where the source says BUG |
| LineEncoding.RunAssembled | claire/common/symbolizer/Dwarf.cc:619-628 | running assembled bytes commits the rows of the instruction list and never stops early |
| LineEncoding.RowsOfSpecial | claire/common/symbolizer/Dwarf.cc:740-754 | the special opcode chosen for an address and line advance within its reach moves by exactly that |
| LineEncoding.RowsOfConstAddMove | claire/common/symbolizer/Dwarf.cc:786-788 | so does the constant advance followed by a special opcode where that reaches |
| LineEncoding.DecodesPlainOpcodes | claire/common/symbolizer/Dwarf.cc:740-823 | the opcodes without operands are those of section 7.21 of DWARF 4 |
| LineEncoding.DecodesOpcodesWithOperand | claire/common/symbolizer/Dwarf.cc:740-823 | so are the opcodes with an operand, the two-byte one being little-endian |
| LineEncoding.DecodesExtendedOpcodes | claire/common/symbolizer/Dwarf.cc:816-843 | so are the extended ones, after a zero byte and their length |
| LineEncoding.FixedAdvanceReplacesAdvance | claire/common/symbolizer/Dwarf.cc:789-791 | a fixed advance moves by bytes: it gives the same rows as the general advance whose instructions are that long |
| LineEncoding.ConstAddMovesAsOpcode255 | claire/common/symbolizer/Dwarf.cc:786-788 | the constant advance moves as far as special opcode 255 does, and commits nothing |
| LineEncoding.OtherInstructionsShowInNoRow | claire/common/symbolizer/Dwarf.cc:740-843 | instructions that set another register, or that the machine does not know, do not change any row of the program, wherever they stand |
| LineEncoding.OtherInstructionsSetOneRegister | claire/common/symbolizer/Dwarf.cc:740-843 | a row clears the four flags, and each of the other instructions changes its own register and no other |
| UnitEncoding.DefinedFileRoundTrip | claire/common/symbolizer/Dwarf.cc:694-731 | an assembled DW_LNE_define_file is well formed and defines, for both interpreters, the file it was assembled from; the two numbers after the directory are passed over |
| UnitEncoding.LengthBeyondTheChunk | claire/common/symbolizer/Dwarf.cc:576-580 | a header that claims more bytes than the chunk has is rejected |
| UnitEncoding.UsualHeader | claire/common/symbolizer/Dwarf.cc:588-596 | the header bytes compilers write for x86 give line base -5, line range 14 and opcode base 13, and special opcode 75 then moves by four bytes and one line |
| UnitEncoding.SmallUnitIsSearched | claire/common/symbolizer/Dwarf.cc:574-908 | one such unit, with one file and one sequence of two rows, is parsed, and an address between the rows is found |
| Buckets.InitializeBucketRanges | claire/common/metrics/Histogram.cc:65-91 | first and last boundaries, and each boundary follows from the one before it by the rounded root or by one |
| Buckets.Bernoulli | claire/common/metrics/Histogram.cc:78-83 | Bernoulli's inequality without division, on which the room left for the remaining buckets rests |
| Buckets.RootBelowMean | claire/common/metrics/Histogram.cc:78-83 | the rounded root does not exceed the arithmetic mean by more than rounding |
| Buckets.NextLeavesRoom | claire/common/metrics/Histogram.cc:83-88 | a step keeps at least one integer for each remaining bucket, and the last lands on the maximum |
| Buckets.BoundariesClimb | claire/common/metrics/Histogram.cc:84-88 | for any arguments the inner boundaries strictly increase |
| Buckets.InspectConstructionArguments | claire/common/metrics/Histogram.cc:104-136 | what is accepted, after which adjustments, and that the bound is computed without leaving the range of int |
| Buckets.LargestMaximumIsUnusable | claire/common/metrics/Histogram.cc:50-91 | the constructor's layout for 1, INT_MAX and three buckets does not increase |
| Buckets.LastInnerBoundary | claire/common/metrics/Histogram.cc:74-90 | for any arguments the last inner boundary is the maximum if there are three buckets or more and the integers up to it suffice, and else the minimum plus one for each further bucket |
| Buckets.RootWithoutRoom | claire/common/metrics/Histogram.cc:78-88 | where the integers left do not suffice, the rounded root is at most the next integer, also when the maximum is passed |
| Buckets.AcceptedIsConstructible | claire/common/metrics/Histogram.cc:104-136 | all accepted arguments meet the constructor's condition |
| SampleVectors.SampleVector.GetBucketIndex | claire/common/metrics/SampleVector.cc:92-118 | the search stops at the one bucket that holds the value |
| SampleVectors.SampleVector.Accumulate | claire/common/metrics/SampleVector.cc:26-31 | as written: that bucket grows by one, no other changes, the sum grows by count times the value |
| SampleVectors.SampleVector.TotalCount | claire/common/metrics/SampleVector.cc:39-47 | the total of the counts |
| SampleVectors.SampleVectorIterator.Next | claire/common/metrics/SampleVector.cc:137-142 | moves on to the next non-empty bucket or the end, passing only empty ones |
| SampleVectors.SampleVectorIterator.SkipEmptyBuckets | claire/common/metrics/SampleVector.cc:175-190 | what is skipped is empty and where it stops is not |
| SampleVectors.SampleVector.Add | claire/common/metrics/HistogramSamples.cc:15-20 | sum and counts after adding, when it succeeds, and the counts a failure leaves |
| SampleVectors.SampleVector.Subtract | claire/common/metrics/HistogramSamples.cc:22-27 | sum and counts after subtracting, when it succeeds, and the counts a failure leaves |
| SampleVectors.MergeOfSameLayout | claire/common/metrics/SampleVector.cc:60-88 | with equal layouts the merge is bucket-wise addition or subtraction |
| SampleVectors.SnapshotIsEqual | claire/common/metrics/Histogram.cc:246-251 | merging into an empty vector of the same layout gives an equal one |
| SampleVectors.SelfSubtractionIsEmpty | claire/common/metrics/HistogramSamples.cc:22-27 | a vector less itself is all zeros |
| Histograms.Histogram.constructor | claire/common/metrics/Histogram.cc:50-61 | for any arguments within the checks on each boundary: an empty histogram, laid out as the code does, whose bounds checks hold for every clamped value if and only if the arguments meet that condition |
| Histograms.Histogram.AddSamples | claire/common/metrics/Histogram.cc:160-163 | adding the samples of a histogram with the same buckets, possibly itself, is recording its values |
| Histograms.Histogram.SnapshotSampleVector | claire/common/metrics/Histogram.cc:246-251 | the snapshot has the same counts and sum and is a vector of its own |
| Histograms.Histogram.TotalCount | claire/common/metrics/SampleVector.cc:39-47 | the total is the number of values given |
| HistogramReports.GetPeakBucketSize | claire/common/metrics/Histogram.cc:356-366 | the size of some bucket that none exceeds, zero if and only if all are empty |
| HistogramReports.WriteAsciiBucketGraph | claire/common/metrics/Histogram.cc:260-273 | a bar of 73 characters with one O at the rounded share of 72 |
| HistogramReports.WriteAsciiBucketContext | claire/common/metrics/Histogram.cc:387-400 | both percentages, multiplied out, are exact |
| HistogramReports.SkipEmptyBuckets | claire/common/metrics/Histogram.cc:334-341 | the inner loop stops at the end of a maximal run of empty buckets |
| HistogramReports.WriteLines | claire/common/metrics/Histogram.cc:315-353 | each bucket is in one row or one gap, gaps are maximal runs of at least two empty buckets, in each row past + current + remaining is the total, and past ends as the total |
| TimeoutQueues.TimeoutQueue.AddInLoop | claire/common/events/TimeoutQueue.cc:148-158 | the event is in both views behind those that expire no later, and the timer is reset exactly when it is the new earliest |
| TimeoutQueues.TimeoutQueue.CancelInLoop | claire/common/events/TimeoutQueue.cc:165-169 | the event is in neither view and the others are untouched; an unknown id changes nothing |
| TimeoutQueues.TimeoutQueue.Perform | claire/common/events/TimeoutQueue.cc:116-163 | an added event gets an id nobody had, and is inserted at once in the loop's thread or left for the loop by any other |
| TimeoutQueues.TimeoutQueue.OnTimer | claire/common/events/TimeoutQueue.cc:110-114 | the batch, and the timer armed for what is earliest after it |
| TimeoutQueues.TimeoutQueue.Deliver | claire/common/events/TimeoutQueue.cc:148-169 | the oldest request of another thread takes effect |
| TimeoutQueues.EveryReachableStateIsValid | claire/common/events/TimeoutQueue.cc:93-103 | and so in every state reachable from the empty queue |
| TimeoutQueues.NextExpirationIsLeast | claire/common/events/TimeoutQueue.cc:171-175 | the time returned is attained and no event expires earlier |
| TimeoutQueues.TimeoutAtTheLastInstantIsNotArmed | claire/common/events/TimeoutQueue.cc:171-175 | one addition reaches the state where that fails |
| TimeoutQueues.EarlyCancelIsLost | claire/common/events/TimeoutQueue.cc:116-169 | a run from the empty queue in which a timeout is added by another thread, cancelled in the loop, and fires |
| TimeoutQueues.RepeatingStep | claire/common/events/TimeoutQueue.cc:177-204 | any one step, with any callbacks that spare it, calls a repeating timeout back exactly once if it is due, and holds it again at now + interval also when callbacks re-enter the queue |
| TimeoutQueues.RepeatingFiresEveryTime | claire/common/events/TimeoutQueue.cc:177-204 | the same for any repeating event that is held |
| TimeoutQueues.DeliversOldestRequest | claire/common/events/TimeoutQueue.cc:148-169 | requests of other threads take effect in the order of their calls: the oldest one inserts its event, or erases its id, and the others wait on |
| EventLoops.NextIsAwaited | claire/common/events/EventLoop.cc:150-161 | every step keeps the invariant behind it, also posts of the loop's own thread that skip the wakeup |
| EventLoops.LoopOwesInUserCode | claire/common/events/EventLoop.cc:157-160 | a post from a task has written before the task returns, so the loop never reaches poll still owing a wakeup |
| EventLoops.QuitLeavesTasks | claire/common/events/EventLoop.cc:107-136 | a run that stops with a posted task never started |
| EventLoops.NextIsOrdered | claire/common/events/EventLoop.cc:257-271 | every step keeps that, the batch being a fixed stretch of the posts, and the context cleared between tasks |
| EventLoops.EventLoop.PushTask | claire/common/events/EventLoop.cc:150-157 | the task is last in the queue and the poster goes on to wake the loop exactly when it is another thread or no handler is running |
| EventLoops.EventLoop.RunTask | claire/common/events/EventLoop.cc:265-270 | exactly the oldest task of the batch is started, in its poster's context, all that it and others do meanwhile is done, and the context is cleared when it returns |
| EventLoops.EventLoop.RunPendingTasks | claire/common/events/EventLoop.cc:257-271 | exactly the tasks queued at entry are started, in order, each with all that it and others do meanwhile, in a run of the machine |
| EventLoops.EventLoop.Dispatch | claire/common/events/EventLoop.cc:115-120 | the handlers of exactly the active channels are called, in order, each with all that it does, and no channel is current afterwards |
| EventLoops.EventLoop.HandleNext | claire/common/events/EventLoop.cc:115-119 | the next active channel becomes current and its handler does all it does, the eventfd's own reading it empty first |
| EventLoops.EventLoop.Round | claire/common/events/EventLoop.cc:107-123 | a round is a run of the machine that handles exactly the channels poll returned, in order, the eventfd among them if and only if it was readable then, in which all that handlers, tasks and others do is done; everything posted before it has been started at its end, unless it was told to quit and did nothing |
| LogBuffers.Appended | claire/common/logging/LogBuffer.h:35-51 | the buffer keeps the longest part of the message that fits, all of it exactly when it fits |
| LogBuffers.LogBuffer.Append | claire/common/logging/LogBuffer.h:35-51 | the copies in place give that content |
| Loggers.NextIsSupplied | claire/common/logging/Logger.cc:31-144 | every step keeps the ownership invariant: a current buffer always, a missing spare only while full buffers wait, enough buffers in every batch for both refills |
| Loggers.OverloadIsReported | claire/common/logging/Logger.cc:106-122 | hence in every reachable state in which the writer is between batches, or done |
| Loggers.OversizedBatchLosesBytes | claire/common/logging/Logger.cc:104-116 | no two buffers of a batch that follow each other are empty, so dropping always loses bytes |
| Loggers.StopLosesMessages | claire/common/logging/Logger.cc:82-148 | a run in which a message appended before the stop is never written |
| Loggers.Logger.Append | claire/common/logging/Logger.cc:31-53 | the exchange of buffers is the machine's step, happens exactly when the message does not leave a byte free, and never meets a null buffer |
| Loggers.Logger.TakeBatch | claire/common/logging/Logger.cc:88-102 | whatever happens before the lock and during the wait, one batch is taken that has everything accepted by then, and the producers get an empty current buffer and an empty spare |
| Loggers.Logger.LimitBatch | claire/common/logging/Logger.cc:104-116 | a batch of more than 25 buffers is cut to its first two, with a notice of how many are dropped, and any other is left alone |
| Loggers.Logger.WriteBatch | claire/common/logging/Logger.cc:118-122 | every buffer of the batch is written, in order, whatever producers do meanwhile |
| Loggers.Logger.RefillSpares | claire/common/logging/Logger.cc:124-143 | the batch always has the buffers taken back from it, and both spares are empty at the head of the loop |
| Loggers.Logger.ThreadMain | claire/common/logging/Logger.cc:82-148 | a run of the machine with what others do in each round: one batch is taken and written in every round until it is told to stop, and it is done if and only if it was; if it was running for one round, what had been accepted before is in the batches, and the file has what the batches call for |
| Loggers.Logger.Round | claire/common/logging/Logger.cc:82-143 | one round takes one batch, which has all that had been accepted, and leaves the spares in place for the next |
| ThreadPools.AttendedStays | claire/common/threading/ThreadPool.cc:69-126 | every step keeps the counting form: with a worker asleep there are at most as many entries as workers awake, with a producer asleep at most as many free slots as producers awake |
| ThreadPools.LockedStays | claire/common/threading/ThreadPool.cc:107-126 | one thread has the lock, and one about to wait has seen the queue empty, or full |
| ThreadPools.FifoStays | claire/common/threading/ThreadPool.cc:107-126 | what was taken followed by the queue is what was accepted |
| ThreadPools.EveryRunIsValid | claire/common/threading/ThreadPool.cc:50-132 | all of these over every run |
| ThreadPools.ReleasedWorkersMove | claire/common/threading/ThreadPool.cc:50-61 | after the broadcast of Stop a worker's step moves it, and only it, closer to its end, and no other step moves a worker: none blocks again |
| ThreadPools.SomeoneCanMove | claire/common/threading/ThreadPool.cc:63-66 | after the broadcast, while some worker has neither ended nor is inside Run with its task, a worker or the holder of the lock can make a step |
| ThreadPools.JoinsWithoutNestedCalls | claire/common/threading/ThreadPool.cc:63-66 | after the broadcast, if no task is inside Run, some continuation ends all workers, whatever callers wait or hold the lock |
| ThreadPools.AcceptsExactlyWhen | claire/common/threading/ThreadPool.cc:50-126 | one more entry can be queued if and only if the queue is not full or a worker is on its way into Take |
| ThreadPools.AcceptedAtMostRoom | claire/common/threading/ThreadPool.cc:69-126 | however a run goes on after the broadcast, no more entries are queued than there is room |
| ThreadPools.RoomStep | claire/common/threading/ThreadPool.cc:69-126 | accepted entries plus room never grow by a step, and stay equal when the holder of the lock acts |
| ThreadPools.ClaimsStep | claire/common/threading/ThreadPool.cc:69-126 | accepted entries plus callers inside Run never shrink by a step, and stay equal when the holder of the lock acts |
| ThreadPools.FullForGood | claire/common/threading/ThreadPool.cc:69-86 | after the broadcast, with the queue full and no worker on its way into Take, no entry is ever accepted again |
| ThreadPools.StopCanStrandAProducer | claire/common/threading/ThreadPool.cc:50-67 | a reachable state after Stop with a caller that is inside Run in every continuation |
| ThreadPools.StopCanWaitForGood | claire/common/threading/ThreadPool.cc:50-86 | a reachable state after Stop in which a task waits inside Run and no continuation ends its worker |
| ThreadPools.ThreadPool.CheckQueue | claire/common/threading/ThreadPool.cc:110-124 | with the lock held: wait exactly on an empty queue of a running pool, else leave with the oldest entry, if any, having notified a producer if the queue is bounded |
| ThreadPools.ThreadPool.CheckRoom | claire/common/threading/ThreadPool.cc:77-84 | with the lock held: wait exactly on a full queue, else push last and notify a worker |
| ThreadPools.ThreadPool.Take | claire/common/threading/ThreadPool.cc:107-126 | for all that others do before and during the waits: it returns with the entry last taken, or with none only from an empty queue of a stopped pool; as long as it has not, the worker sleeps on the condition or another thread has the lock |
| ThreadPools.ThreadPool.Run | claire/common/threading/ThreadPool.cc:69-86 | called by another thread or from a task of a worker: without workers the caller runs the task and nothing else changes; else, for all that others do, it returns when its entry is the last accepted, and as long as it has not, the caller sleeps on the condition or another thread has the lock |
| ThreadPools.ThreadPool.Stop | claire/common/threading/ThreadPool.cc:50-61 | the flag is down at once; as long as it has not broadcast, another thread has the lock; then no worker waits; a pool that is not running is left as it is |
| UriEscapes.UriEscape | claire/common/strings/UriEscape.cc:38-79 | the run-copying loop appends the per-byte escape of the input |
| UriEscapes.UriUnescape | claire/common/strings/UriEscape.cc:81-129 | the run-copying loop appends the per-byte decoding, or throws the error of the first malformed sequence with exactly the decoding up to the last byte that was not copied as it is |
| UriEscapes.CanonicalIsEscaped | claire/common/strings/UriEscape.cc:38-129 | escaping what such a string decodes to gives the string back |
| StringPieces.StringPiece.Assign | claire/common/strings/StringPiece.h:209-213 | the window becomes the given stretch of the buffer |
| LogBuffers.LogBuffer.Reset | claire/common/logging/LogBuffer.h:63-66 | the buffer is empty |
| EventLoops.EventLoop.OnWakeup | claire/common/events/EventLoop.cc:247-255 | the eventfd is read empty |
| EventLoops.EventLoop.Wakeup | claire/common/events/EventLoop.cc:237-245 | the eventfd becomes readable and the writer owes no more |
| EventLoops.EventLoop.SetQuit | claire/common/events/EventLoop.cc:129-136 | the flag is set and another thread goes on to wake the loop |
| LineNumberVMs.LineNumberVM.Reset | claire/common/symbolizer/Dwarf.cc:559-572 | the registers are those section 6.2.2 of DWARF 4 prescribes at the start of a sequence |
| TimeoutQueues.TimeoutQueue.ResetTimerfd | claire/common/events/TimeoutQueue.cc:74-89 | the descriptor fires that long after the clock reading |

## Left out

- Leb128.ReadDigits: a shift of 64 bits or more, undefined in C++, is a stop of the program here.
- Buckets.InitializeBucketRanges: the rounding of `log` and `exp` in doubles is not modelled; the boundary is the exact root, rounded as the code rounds it.
- Histograms.Histogram.constructor: a minimum below one or a histogram of fewer than two buckets fails a check of the source or writes outside of its ranges, and a maximum below one has no finite logarithm; boundaries beyond INT_MAX, which overflow an int in the source, are integers here.
- Histograms.Histogram.WriteAscii: the column width of the labels and the decimal formatting of numbers are left out, and `PrintEmptyBucket` is the constant it is in this class.
- SampleVectors.SampleVector.Accumulate: the overflow of `count * value` in int is not modelled; the only call passes a count of one.
- TimeoutQueues.TimeoutQueue.Perform: sums like now + interval are not wrapped at 64 bits, and a callback is known by its event's id.
- TimeoutQueues.TimeoutQueue.ResetTimerfd: the monotonic clock of the descriptor and the clock the code reads are one clock here.
- ThreadPools.ThreadPool.Run: `Start` happens before the machine starts. A nested call is a step of the machine that gives the worker's own place among the callers to `Run`; what else a task does is left open.
- ThreadPools.JoinsExactlyWhen: that the joins do return, and not only can, also needs tasks that return and a scheduler that is fair to workers and callers; neither is modelled.
- ThreadPools.ThreadPool.Stop: the joins themselves are the condition that all workers have exited; a task that calls `Stop`, and so joins itself, is left out.
- ThreadPools.ThreadPool.Take: an entry keeps its poster's trace context, but setting and clearing it around the task is modelled in `EventLoop.dfy` only.
- Loggers.Logger.ThreadMain: buffers are known by their contents, so which object a buffer is, and clearing it beforehand, is not modelled; writing to the file always succeeds.
- EventLoops.EventLoop.Round: the order of the active channels by priority and the poll timeout are left open, as any order and any return of poll.
- Underflow of `StringPiece::advance` over a whole window is an assertion in the source; the readers of the model may consume all of it.
- `ReadBytes`, padding, attributes, abbreviations and the ELF file around the line section: flat switches and memory mapping.
- `Path`: the directory and the name found are returned separately; the compilation directory is not prepended.
- Addresses have 64 bits and the machine is little-endian.
- The queue through which other threads reach the timeouts is a list of requests in `TimeoutQueue.dfy`, in order, not the task queue of `EventLoop.dfy`.
- Locks, condition variables, eventfd and timerfd are atomic steps; their failures (logged by the source) are left out.
- Exceptions thrown by tasks and callbacks: the source ends the process.
- The channels' own bookkeeping, the pollers, log files, formatting, counters, the JSON and HTML forms of a histogram, and the smaller queues and latches: little to prove beyond their bodies.
