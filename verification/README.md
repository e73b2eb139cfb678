# Verified model of microrev

microrev measures cache-coherence protocols with small benchmarks. This project models the parts of
it whose correctness decides whether a measurement means anything, and proves that they do, or
exactly when they do:

* **Cycles, Shuffle, PointerChase**: the single-cycle shuffle and the three ways of building the
  linked list that is chased. Memory is an array of 8-byte words, a pointer is a word index, and the
  random draws are an arbitrary legal list of choices. The set-up functions leave the shared pointer
  on a cell one past the buffer (the *sentinel*) that points back to the first line, so the list is a
  tail of one cell leading into a cycle through all n lines.
* **Coherence, WalkTraces, Benchmarks**: a MESI machine over any number of cores and lines
  ("Cache Control Protocol", section 11.4 of the Intel SDM, volume 3A; CLFLUSH as in volume 2A), the
  globals of `benchmark_helpers.h` as a class whose methods record every line they touch, and the
  effect of each benchmark call on each line.
* **StateInit, Validation**: the schedules of `init_state`, `run_test`, `flusher_test` and
  `read_from_invalid_test`, and what they leave on the machine when the scheduler runs them. This
  settles the item "Validate state initialization logic" of the repository's to-do list
  (README.md:120): M and I are reached on every line, E and S on every line but the last in chase
  order, F never.
* **Scheduler**: `CounterBenchmark` with its mutex, condition variable and flags as a transition
  system with any number of workers, for both schedules.
* **Interleaving, FlagRuns, ReaderWriter**: the spin flags, under the scheduler and under free
  interleaving.
* **Average**: `avg_no_overflow` with 64-bit wrap-around, truncating division and the mixed
  signed/unsigned comparison.
* **Counter, Text, Dump, TestDumps**: the counter's life, the loops that print counters, `run_test` from
  its schedule vector to the dump, and the two parsers that read the dump back.

`Arithmetic` holds shared facts about sums, products and concatenation. Preconditions on sizes say that
the buffer is a positive multiple of the stride, that strides are whole words (at least two where lines
are written), that the stride of set-up and walks is the cache line size, and that the buffer starts on
a line. The word array has the sentinel and the word behind it in addition to the buffer, because the
code writes both.

Where the code and its intent differ, the model follows the code:

* E_STATE and S_STATE miss the last line, because `reader_` starts at the sentinel and makes only n
  hops; F_STATE ends with a flush, which is domain-wide (`StateInit.InitStateKeepsPromise`).
* `flusher_test` and `read_from_invalid_test` agree on every line of the buffer, but the first load
  of the measured read hits the sentinel's line, which the flush does not cover
  (`StateInit.FlusherTestPrepares`).
* The tests named STORE_ON_EXCLUSIVE and STORE_ON_SHARED_OR_FORWARD store to that last line, too; the
  loads never reach it (`StateInit.MeasuredLinesReady`).
* Set-up mallocs exactly `size` bytes, but the sentinel is the word after them: the functions that link
  the buffer store to it, and `producer_` stores to the word behind it (`sharedIter == size / 8` in the
  contracts of `PointerChase.LinkShuffled` and the constructors).
* `avg_no_overflow` overflows for ordinary values (`Average.Overflows`); its result is the mean
  exactly when no addition wraps. Elements up to 2^63 - 1 are safe for n numbers if n divides 2^63, and
  otherwise up to 2^63 - n and no further (`Average.SafeBoundIsExact`; no vector holds more than 2^62).
* `parser.py` cannot read a dump in which a run without output is followed by another run
  (`Dump.RunsRoundTrip`), so not the dump of `producer_consumer.cpp`
  (`TestDumps.ProducerConsumerDumpRaises`).
* `stats` called twice prints twice the mean the second time (`Counter.PapiCounter.RepeatedStats`).

## Model

| member | source | states |
|---|---|---|
| Shuffle.ShuffleArray | src/library/include/shuffle.h:9-26 | For any array and any legal choices the array is rearranged in place by the table the choices determine, and no element is lost or duplicated. |
| Shuffle.ShuffleIsSingleCycle | src/library/include/shuffle.h:15-26 | Whatever the choices, that table is one cycle: hopping from position 0 first returns to 0 after exactly n hops. |
| Cycles.OrbitIsOrder | src/library/include/shuffle.h:18-26 | Hops along a single cycle visit every position once before returning, and the visiting order determines the cycle. |
| Cycles.CycleReaches | src/library/include/shuffle.h:18-26 | Every position is reached from position 0 in fewer than n hops. |
| Shuffle.ShuffleIsBijection | src/library/include/shuffle.h:15-26 | Every single cycle is produced by exactly one legal sequence of choices, so uniform choices give a uniform cycle. |
| Shuffle.RearrangedKeepsMultiset | src/library/include/shuffle.h:18-26 | The shuffled array has the same elements with the same multiplicities. |
| PointerChase.LinkShuffled | src/library/include/shuffle.h:42-61 | The links written are those of the shuffled cycle, the pointer left over is the first word past the buffer and that word points at the head; nothing but cells is written. |
| PointerChase.HopsFromSentinel | src/library/include/benchmark_helpers.h:241-263 | k hops from the shared pointer, k at least 1, land on the (k-1)-th successor of line 0. |
| PointerChase.NodeIsOrbit | src/library/include/benchmark_helpers.h:256-262 | The first hop enters the cycle and the sentinel is never met again. |
| PointerChase.TailedIsNoCycle | src/library/include/shuffle.h:54-60 | The shuffled list is not a cycle through all of its cells: no link leads to the sentinel. |
| PointerChase.InitStride | src/benchmarks/src/cacheline.cpp:26-46 | The sequential list links n + 1 cells in a ring; the last, to which the returned pointer points, is the first word past the size bytes. |
| PointerChase.AllocateRandomArray | src/standalone/rd_latency.c:26-42 | The sequential list links the n cells of the buffer in a ring and stays inside the buffer. |
| PointerChase.RingIsCycle | src/standalone/rd_latency.c:34-42 | A ring of any length is a single cycle. |
| PointerChase.Chase | src/benchmarks/src/cacheline.cpp:58-62 | The measuring loop ends on the cell that many hops along the table lead to. |
| PointerChase.GeometryIsMultiple | src/library/include/benchmark_helpers.h:245-262 | The buffer sizes covered are exactly the positive multiples of the stride, and n is the code's size divided by stride. |
| Benchmarks.SharedBuffer.Setup | src/library/include/benchmark_helpers.h:241-263 | Builds the linked buffer of the cycle that the choices determine, with the shared pointer on the first word past the size bytes. |
| Benchmarks.SharedBuffer.PrCoSetup | src/library/include/benchmark_helpers.h:207-239 | The same, with every flag 1 and every other word of the buffer 0. |
| Benchmarks.SharedBuffer.Writer | src/library/include/benchmark_helpers.h:146-161 | Keeps all links, makes the accesses of the writer's walk, and writes exactly the words behind the n nodes after the sentinel. |
| Benchmarks.SharedBuffer.Reader | src/library/include/benchmark_helpers.h:163-177 | Makes the accesses of the reader's walk and changes no memory. |
| Benchmarks.SharedBuffer.Producer | src/library/include/benchmark_helpers.h:111-126 | Keeps all links, writes exactly the words behind the sentinel and the first n - 1 nodes, and decrements every flag once. |
| Benchmarks.SharedBuffer.Consumer | src/library/include/benchmark_helpers.h:127-144 | Terminates without help from another thread, leaves every flag 1, and fails one test-and-set on each flag that was 0 and none on others. |
| Benchmarks.SharedBuffer.Flusher | src/library/include/benchmark_helpers.h:101-110 | Flushes the line of each byte of the buffer. |
| Benchmarks.SharedBuffer.RunCalls | src/library/include/benchmark_helpers.h:101-177 | On a buffer of either set-up function, any sequence of calls (with flags if some call uses them) terminates, leaves every link word as it was, and makes accesses that depend only on the calls and the cycle. |
| Benchmarks.SetupAndRun | src/benchmarks/src/protocols.cpp:67 | After setup, any sequence of reader, writer and flusher calls makes the accesses of the cycle that the shuffle drew. |
| Benchmarks.WriterStores | src/library/include/benchmark_helpers.h:153-157 | The writer stores behind every line of the buffer and not behind the sentinel. |
| Benchmarks.ProducerStores | src/library/include/benchmark_helpers.h:118-123 | The producer stores behind the sentinel and every line but the last in chase order. |
| WalkTraces.LinesTouched | src/library/include/benchmark_helpers.h:114-123 | In n hops the writer stores to each of the n lines exactly once; all walks load, and the producer stores to, the sentinel and all lines but the last, once each. |
| WalkTraces.WalkAt | src/library/include/benchmark_helpers.h:118-173 | The accesses of each loop iteration in order: readers and consumers load the node, writers load it and store behind the next one, producers store behind it and load it. |
| WalkTraces.FlushAt | src/library/include/benchmark_helpers.h:104-109 | The flusher makes one flush per byte, of the line that the byte number divided by the stride names. |
| WalkTraces.CallEffect | src/library/include/benchmark_helpers.h:101-177 | The whole access trace of a benchmark call, run on the machine, changes each line as one load, store or flush would, by the line's place in the chase. |
| Coherence.RunKeepsCoherent | src/library/include/benchmark_helpers.h:101-177 | At every step of every run a line has one owner and no other copy, or only shared copies. |
| StateInit.InitState | src/library/include/benchmark_helpers.h:265-326 | The appended entries, run in order, take a line from whatever state it was in to the one that InitRow names: M, E, S or I, with the last line in chase order left in M for S_STATE and invalid for E_STATE. |
| StateInit.InitStateReaches | src/library/include/benchmark_helpers.h:265-326 | From any machine state and for any warm-up, the entries leave M, E, S or I on each line as stated line by line, the last line in chase order apart. |
| StateInit.InitStateKeepsPromise | src/library/include/benchmark_helpers.h:265-326 | All lines of the working set are in the state named exactly for M_STATE and I_STATE. |
| StateInit.WarmupIsHarmless | src/library/include/thread_utils.h:148-153 | Repeating each benchmark as warm-up does not change the state a schedule leaves. |
| StateInit.BuildTest | src/library/include/benchmark_helpers.h:360-433 | The branches of run_test fill the vector that the results on tests speak of. |
| StateInit.TestVectors | src/library/include/benchmark_helpers.h:360-433 | That vector of each of the ten test types, entry by entry: cores, benchmarks and counted events. |
| StateInit.RunTestPrepares | src/library/include/benchmark_helpers.h:360-433 | The measured call is a read in the LOAD tests and a write in the STORE tests, and finds each line modified at core a in the MODIFIED tests, exclusive there in the EXCLUSIVE tests and shared by a and b in the SHARED tests (but for the last line in chase order, and a = b), and invalid everywhere in the INVALID tests; a warm-up of the measured call, which run_test gives none, would come on top. |
| StateInit.FlusherTestPrepares | src/benchmarks/src/flush.cpp:48-63 | When the measured read starts, every line of the working set is invalid at every core, but for the effect of a warm-up of that read, and the sentinel is still held by core a. |
| StateInit.ReadFromInvalidPrepares | src/benchmarks/src/flush.cpp:89-97 | When the measured read starts, every line of the working set is invalid at every core and the sentinel is untouched, but for the effect of a warm-up of that read. |
| StateInit.MeasuredLinesReady | src/library/include/benchmark_helpers.h:376-425 | Every buffer line that the measured call touches is as the test's name says exactly for the MODIFIED and INVALID tests, and for the loads of the EXCLUSIVE and (if the two preparing cores differ or the buffer is one line) SHARED tests: the measured loads skip the line that E_STATE and S_STATE miss, the measured stores hit it. |
| Scheduler.ExecutionInv | src/library/include/thread_utils.h:135-239 | Every state of every run of either schedule, from any values of the flags and with spurious wake-ups, satisfies mutual exclusion, the wake-up invariant and the history invariant. |
| Scheduler.NoDeadlock | src/library/include/thread_utils.h:135-239 | In every reachable state but the last some thread can take a step of its own: no deadlock and no lost wake-up. |
| Scheduler.StepDecreases | src/library/include/thread_utils.h:135-239 | Every step that is not a spurious wake-up decreases a measure. |
| Scheduler.RunsTerminate | src/library/include/thread_utils.h:135-239 | A run without spurious wake-ups has no more steps than the measure of its start. |
| Scheduler.PriorityTrace | src/library/include/thread_utils.h:201-239 | A complete priority run performs the workers' critical sections whole and in schedule order, and leaves both flags false. |
| Scheduler.OneLiveWorker | src/library/include/thread_utils.h:206-234 | In every reachable state of a priority run at most one worker is started and not finished, although after the first entry pause is false for good and ready stays true up to the final reset. |
| Scheduler.CompleteTrace | src/library/include/thread_utils.h:139-199 | A complete run performs each worker's critical section once and uninterrupted, in the order in which the workers got past the wait, and leaves both flags false. |
| Scheduler.BlockShape | src/library/include/thread_utils.h:146-155 | A critical section adds the events, makes the warm-up calls, resets the counter, makes the measured call and ends the counter, in this order. |
| Scheduler.NotifyWakesOne | src/library/include/thread_utils.h:223 | The scheduler thread's notify_one moves the worker it wakes and nobody else. |
| Validation.PriorityCalls | src/library/include/thread_utils.h:201-239 | A complete priority run calls entry 0 warmup + 1 times, then entry 1 warmup + 1 times, and so on. |
| Validation.ParallelCalls | src/library/include/thread_utils.h:163-199 | A complete parallel run makes the warmup + 1 calls of each entry in one piece, in the order of a permutation of the entries. |
| Validation.InitStateValidated | src/library/include/benchmark_helpers.h:265-326 | Any complete priority run of init_state's entries, from any coherent machine state, leaves each line in the stated coherence state and keeps single-writer/multiple-reader at every access. |
| Validation.MeasuredCallIsLast | src/library/include/thread_utils.h:148-153 | In any complete priority run of any entries the measured call of the last entry comes last, after exactly the calls that the preparation results describe. |
| Validation.RunTestValidated | src/library/include/benchmark_helpers.h:360-442 | In any complete run of a load or store test, the accesses before those of the measured read or write leave each line in the state the test's name says, and the last line in chase order invalid for EXCLUSIVE and modified for SHARED. |
| Validation.FlushTestsValidated | src/benchmarks/src/flush.cpp:48-101 | In any complete runs of flusher_test and read_from_invalid_test, the accesses before those of the measured read leave every line of the working set invalid at every core. |
| Validation.TestIsRun | src/library/include/benchmark_helpers.h:360-442 | However its schedule interleaves, a complete FLUSH test makes four flusher calls and a complete PRODUCER_CONSUMER test one producer and one consumer call, in one of the two orders. |
| Validation.ProducerConsumerSeries | src/benchmarks/src/producer_consumer.cpp:43-53 | After any series of complete FLUSH and PRODUCER_CONSUMER tests on a buffer from pr_co_setup, however interleaved, all flags are 1 or all are 0, by the order of the last PRODUCER_CONSUMER test. |
| FlagRuns.RunsLeaveUniformFlags | src/library/include/benchmark_helpers.h:111-144 | After any number of test runs, FLUSH runs among them, all flags are 1 if the consumer ran last and 0 if the producer did. |
| FlagRuns.FlagsStayInRange | src/library/include/benchmark_helpers.h:111-144 | At every step of every call of every run every flag is -1, 0 or 1; the steps are those of the interleaving machine. |
| Interleaving.RunKeepsInv | src/library/include/benchmark_helpers.h:118-173 | Under any interleaving of any passes every pointer is at the node of the path that its hop count says. |
| Interleaving.RunKeepsLinks | src/library/include/benchmark_helpers.h:118-173 | Under any interleaving of any passes all n + 1 link words, the one that closes the cycle included, stay as set-up built them. |
| Interleaving.FreshPassesStart | src/library/include/benchmark_helpers.h:114-171 | Passes about to start on a buffer that set-up linked satisfy the assumptions of the interleaving results. |
| Interleaving.SoloPass | src/library/include/benchmark_helpers.h:111-177 | A walk that is not interrupted leaves the memory, flags and failed test-and-sets that the methods of SharedBuffer promise. |
| Interleaving.SoloConsumer | src/library/include/benchmark_helpers.h:127-144 | A consumer pass that is not interrupted leaves every flag 1 and fails exactly once on each flag that was 0. |
| Interleaving.SoloSteps | src/library/include/benchmark_helpers.h:118-140 | At every step of an uninterrupted pass the flags of the lines dealt with are as after the call and the others as before it. |
| Interleaving.StepCounts | src/library/include/benchmark_helpers.h:122-138 | A step counts a failed test-and-set on a flag exactly if it is that of a consumer there that finds it 0, and a decrement exactly if it is that of a producer there. |
| Interleaving.RunCounts | src/library/include/benchmark_helpers.h:133-138 | Over any run the count of a flag grows by the number of test-and-sets that found it 0. |
| Interleaving.FlagFollowsStore | src/library/include/benchmark_helpers.h:118-123 | Under any interleaving, when a producer decrements a flag the word behind the node of that flag has been stored. |
| Interleaving.SpinsAreBounded | src/library/include/benchmark_helpers.h:133-140 | Under any interleaving at most as many test-and-sets find a flag 0 as there are producer passes, plus one if it started at 0. |
| Interleaving.RunsTerminate | src/library/include/benchmark_helpers.h:118-140 | However turns are dealt to unfinished passes, all passes finish, spinning consumers included. |
| ReaderWriter.Reader | src/library/test/reader_writer.cpp:23-36 | Terminates alone, clears every flag, fails once on each flag that was set, and makes the operations of the interleaving results. |
| ReaderWriter.Writer | src/library/test/reader_writer.cpp:38-51 | Writes 42 to the first integer of every 64 and decrements every flag, one operation each. |
| ReaderWriter.FlagsAreExact | src/library/test/reader_writer.cpp:28-47 | After any operations of any passes a flag is minus the number of decrements since its last test-and-set, and its failed tests are the test-and-sets that came after such a decrement. |
| ReaderWriter.ReaderPass | src/library/test/reader_writer.cpp:28-32 | The operations of an uninterrupted reader pass leave the flags and failures that the reader promises. |
| ReaderWriter.WriterPass | src/library/test/reader_writer.cpp:43-47 | The operations of an uninterrupted writer pass decrement every flag once. |
| ReaderWriter.FlagsBounded | src/library/test/reader_writer.cpp:28-47 | Under any interleaving of any number of passes no flag is positive, and failed tests plus one for a negative flag never exceed the decrements of that flag. |
| ReaderWriter.SpinningBounded | src/library/test/reader_writer.cpp:28-47 | All failed tests together are at most all decrements together. |
| Average.AvgNoOverflow | src/library/lib/benchmark_helpers.cpp:11-40 | Returns 0 for no numbers, and otherwise the mean rounded down exactly when no addition leaves the range of intmax_t; so whenever no element exceeds the bound for their number. |
| Average.LoopTotal | src/library/lib/benchmark_helpers.cpp:22-36 | At every iteration n times res plus accumulator is the sum so far, less 2^64 for each wrapped addition. |
| Average.SmallNeverWraps | src/library/lib/benchmark_helpers.cpp:22-36 | If no element exceeds 2^63 - n, no addition wraps and n times res plus accumulator is the exact prefix sum at every iteration. |
| Average.SmallIsSafe | src/library/lib/benchmark_helpers.cpp:22-36 | Elements up to 2^63 - n are a condition under which the mean is right. |
| Average.SmallStep | src/library/lib/benchmark_helpers.cpp:25-29 | For such elements a negative accumulator always takes the negative carry, because of the unsigned comparison, and stays in range. |
| Average.SafeBoundIsExact | src/library/lib/benchmark_helpers.cpp:22-36 | For every n up to 2^62, no list of n elements up to a bound wraps exactly if the bound is at most 2^63 - 1 where n divides 2^63, and at most 2^63 - n elsewhere. |
| Average.DivisorNeverWraps | src/library/lib/benchmark_helpers.cpp:30-35 | If n divides 2^63 and no element exceeds 2^63 - 1, the positive carry leaves room for the next element, and the accumulator never becomes negative. |
| Average.AboveSafeBound | src/library/lib/benchmark_helpers.cpp:25-35 | For every n up to 2^62 and every greater bound, a list of n elements up to that bound wraps. |
| Average.Overflows | src/library/lib/benchmark_helpers.cpp:22-36 | The list 2^63-1, 1, 2^63-1 wraps. |
| Counter.PapiCounter.CounterThreadFn | src/library/include/thread_utils.h:143-158 | With events a walk leaves the last call's sample and readings, and flusher_ no sample and zero readings; without events all samples of a walk stay. The steps are those of the scheduler's block. |
| Counter.PapiCounter.Reset | src/library/lib/counter.cpp:207-217 | Clears samples and readings if there are events, otherwise nothing. |
| Counter.PapiCounter.StatsToStream | src/library/lib/counter.cpp:233-256 | Prints label, readings and total, or nothing for a counter without events and samples, after a growth of the total that, times the number of samples, is the sum of the samples. |
| Counter.StatsAdds | src/library/lib/counter.cpp:248-252 | What one stats call adds to the total, times the number of samples, is their sum; it lies between the smallest and the largest sample, is x for samples that are all x, and 0 without samples. |
| Counter.PapiCounter.RepeatedStats | src/library/lib/counter.cpp:248-263 | The j-th call prints a block with the label, the readings and a total whose growth since the start, times the number of samples, is j times their sum; a counter without events and samples prints nothing. |
| Counter.Life | src/library/include/thread_utils.h:168-193 | A counter of a schedule has equal lengths at every stats call, and its j-th stats call prints its readings and a total that, times the number of samples its worker left, is j times their sum. |
| Counter.StatsOfAll | src/library/include/thread_utils.h:190-193 | Prints the block of every counter that has events or samples, in order, and adds each mean to its own total. |
| Counter.StatsOfCounting | src/library/include/benchmark_helpers.h:443-449 | The same for the counters with events, passing over the others. |
| Text.StripRemoves | src/library/scripts/parser.py:10-24 | strip() removes all white space around a text and nothing else. |
| Dump.BlankLines | src/library/scripts/parser.py:20 | The rows of a section end at a line of white space, in both scripts. |
| Dump.RunScript | src/library/scripts/parser.py:5-31 | The loops of either script compute the parse of the file's lines. |
| Dump.RunsRoundTrip | src/library/scripts/parser.py:7-31 | Parsing the dump of any runs succeeds exactly if every run but the last printed a block, and then each key holds for each counter the values of the first blocks of its runs in run order. |
| Dump.KeysAreDistinct | src/library/scripts/parser.py:14 | Different triples of type, placement and size have different keys. |
| Dump.BlocksRoundTrip | src/library/scripts/a_parser.py:8-30 | Parsing the dump of any labelled blocks groups every value of every block, in print order, under the label read from its label line. |
| Dump.TagRoundTrip | src/library/scripts/a_parser.py:12 | A label is read back as written exactly if it has no two tildes in a row and none at its end. |
| TestDumps.WhoPrints | src/library/include/benchmark_helpers.h:435-449 | A PRODUCER_CONSUMER test prints four blocks, or two without events; of the other tests FLUSH and those without events print none and the rest one. |
| TestDumps.PrintedNames | src/library/include/benchmark_helpers.h:60-68 | The printed names of the ten test types and the three placements. |
| TestDumps.TestTextsDiffer | src/library/include/benchmark_helpers.h:60-66 | No two test types have one printed name. |
| TestDumps.RunTest | src/library/include/benchmark_helpers.h:350-449 | Appends to the dump the four header lines, with the names of test and placement and the three cores in order, and the blocks that follow from what the workers' counters hold, whatever the order in which the workers ran. |
| TestDumps.KeyTellsCalls | src/library/scripts/parser.py:10-14 | The key read from a run's header is that of a test type, placement and size exactly if these are the run's own, sizes as printed. |
| TestDumps.ReadableDumps | src/library/scripts/parser.py:7-31 | parser.py can read the dump of a series of run_test calls exactly if no call but the last is a FLUSH or a test without events that is not PRODUCER_CONSUMER. |
| TestDumps.ProducerConsumerDumpRaises | src/benchmarks/src/producer_consumer.cpp:46-52 | A dump that starts with a FLUSH run and goes on cannot be read. |
| TestDumps.SeriesRoundTrip | src/library/scripts/parser.py:7-31 | From the hardware readings of a readable series of run_test calls through counters, printing and parsing: the key of each type, placement and size exists exactly if there was such a call, and holds for each event name the readings, and for Cycles the samples, of the first printing worker of exactly these calls, in run order. |
| TestDumps.LabelledRoundTrip | src/library/scripts/a_parser.py:8-30 | What the loop over labelled counters prints is read back as the readings and totals of the counters, in order, under the label as read. |

## Left out

* PAPI and PMC calls, `rdtsc`, fences, core pinning and real timing: only the fields they update are kept; the PMC backend is not modelled.
* Threads as threads: the scheduler is modelled on values, one step per access to shared state, because its workers interleave; its methods are therefore not Dafny methods. A benchmark call is one step there, justified by the mutex.
* Interleaving models the walks a second time, on values and one access per step, because passes overlap there; SoloPass ties it to the methods of SharedBuffer.
* The choice of cores by placement: core numbers are parameters of every result.
* Spurious wake-ups are in the safety results and not in the termination measure.
* A second use of one CounterBenchmark: the parallel schedule does not clear its threads, and joining them again is an error of the thread library.
* Evictions, associativity, prefetching, store buffers and `_cldemote`; the machine is MESI, so the F state of MESIF counts as S.
- PointerChase.LinkShuffled: the word array it is given reaches past the size bytes that the code mallocs, because the code stores the sentinel there; what that store hits is not modelled.
- PointerChase.InitStride: allocates one word more than the code, for the same reason.
- Benchmarks.SharedBuffer.Setup: allocates two words more than the code, for the sentinel and the word behind it.
- Benchmarks.SharedBuffer.PrCoSetup: allocates two words more than the code, for the sentinel and the word behind it.
- Average.AvgNoOverflow: does not model rounding of long double; the mean is exact arithmetic and only its conversion truncates.
- Dump.RunsRoundTrip: does not model how numbers are formatted; printed values are words, and int(float(..)) is a parameter that is undefined on the word RUN.
- TestDumps.SeriesRoundTrip: gives each reading as it is after printing and int(float(..)), which are parameters; event names are taken to be distinct and free of white space.
* Writing results, CSV files and plots; `parse_cfg`; `init_state.h`, which is superseded; constant-count benchmarks.
* Whether the consumer sees the producer's data: the flags start at 1 and do not enforce it.
* Unicode white space in dump files: white space is ASCII.
