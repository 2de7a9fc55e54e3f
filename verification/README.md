# Verified model of the Miden trace recorder

The recorder turns a stream of Miden VM cycle states into a trace of steps,
calls, returns, variables and special events. It never sees a call or a return:
it infers them from changes of the context name, helped by a call graph read
from the source text. This project models that engine together with the parts
it relies on, and a second, smaller component, the simulated-chain session.

How the files fit together:

- `Common`, `Text`, `Utf8`: options, sequence facts, the string operations of
  the parsers, and the bytes of a text.
- `SourceScan`, `ProcLocals`, `Ancestry`: the two call scanners, the declared
  local counts, the parent map, and the walk from a procedure back to `#main`.
  `SourceText`: programs as text, and what the scanners read back from them.
- `CallInference`, `Fidelity`: call and return inference as a small machine over
  context names, the writer's open frames, and the true runs it is compared
  with, however they begin.
- `StepAutomaton`, `Latch`, `WrittenSlots`, `SourceMaps`: the four other pieces
  of state, each with an independent reference definition.
- `TraceModel`: one VM state, composed from those pieces. `TraceTheorems` and
  `CompleteRuns`: what holds of every trace. `LogContents`, `LogLocals`: what
  each VM state writes, said of the state and the log alone.
- `Tracer`: the recorder as a class with the recorder's variables, proved to
  follow `TraceModel` state by state. `Recorder`: one recording from the
  program text to the finished trace.
- `Declarations`, `KernelModule`: inputs declared in source comments.
- `ContextTracker`, `MockChain`, `TransactionSession`, `TransactionTheorems`:
  the context tracker, the simulated chain, and the transaction simulator.

Properties that do not hold as one would first state them, each with its exact
condition:

- A completed word or advice read is not always emitted. A multi-cycle load
  directly followed by a one-cycle load is overwritten in the pending slot
  (`CompleteRuns.OverwrittenReadIsLost`); all are emitted exactly when no such
  pair occurs and no multi-cycle load is last (`CompleteRuns.WordsExactlyOnce`).
- The recorded calls are not always the true ones. They are exactly when every
  move of the run is readable on the frames the recorder knows, and none ends
  the outermost of those (`Fidelity.FidelityBelow`). A run is any sequence of
  changes to the call stack that keeps its outermost frame and does not call the
  begin block; nothing is asked of the scanned call graph. Unreadable are:
  - a call taken for a return, between procedures that call each other
    (`Fidelity.CallBackIsMisread`);
  - a call taken for a hidden sibling boundary, because the scanner missed it: it
    closes a body at its first line `end`, however deep that is nested, and sees
    no library or kernel body (`Recorder.NestedCallIsMisread`,
    `SourceScan.CallsAfterEndAreMissed`);
  - a sibling boundary the graph does not tell from a call;
  - two or more frames ending, or two or more beginning, between observed
    operations (`Fidelity.TwoReturnsAreMisread`).

  From `#main` no move ends the outermost known frame. When the first context is
  another one, the recorder knows `#main` only once it surfaces, and opens no
  frame at all for a first context `#main` calls directly: `begin exec.w exec.r
  end` loses `w`'s return and enters `#main` instead of returning to it
  (`Fidelity.SiblingsAreMisread`). An inlined chain opened at the start is the
  only path in the scanned graph; when that graph is incomplete, the chain can
  name frames the run does not have.
- The slots reported for the current context are its own
  (`TraceTheorems.ReportedSlotsAreOwn`), with two exceptions: the outermost
  frame of a synthesised chain keeps the slots stored before the first context
  was observed (`WrittenSlots.EarlySlotIsKept`), and `#main`, when it surfaces
  over a chain of which an inner frame is current, takes over the slots of the
  chain's outermost frame (`WrittenSlots.MainTakesSlotsOver`).
- Among sources whose line starts fit 32 bits, a line number wraps to 0 exactly
  when the source starts with 2^32 - 1 newlines (`SourceMaps.LineNumbersFit`,
  `SourceMaps.LineNumberWraps`).
- Context ids wrap once a transaction has more than 2^32 contexts; the history
  is full exactly up to that number (`TransactionTheorems.TransactionHistory`).
- A kernel text survives its comment block exactly when its first line is not
  empty and no line ends in white space (`KernelModule.KernelRoundTrip`).

Where the repository's comments and code differ, the model follows the code:

- `build_parent_map` is said to map a procedure without callers to nothing
  (src/tracer.rs:1544); it leaves it out of the map. The walk treats both alike.
- `parse_kernel_module` is said to return a block whenever one is found
  (src/tracer.rs:1198); a block without code is passed over and the search goes
  on after the line that ended it.
- Producing a block (src/mockchain.rs:459) only advances the number; it opens
  no new block.

## Model

| member | source | states |
|---|---|---|
| Recorder.RecordProgram | src/tracer.rs:48-76 | from any text and VM results: the line count of the text is registered, local counts and call graph are those of the text, with its parent map, the log is the model's trace, all frames are closed, a VM error is reported once after all that precedes it and before the closing returns, for every readable run the log's frames are that run's own call tree, and for every text written as procedures and a begin block the graph and the counts are the written ones |
| Recorder.WholeTraceIsTrue | src/tracer.rs:548-987 | the finished trace of a readable run, from `#main`, from an inlined chain, from `#main` surfacing after one, or from a context without a frame, is what was opened for its beginning, its enters and leaves, and one leave for each frame still open and for the toplevel, also after a VM error |
| Tracer.MidenTracer.ProcessVmStates | src/tracer.rs:257-990 | for any VM results the log and function table equal the model's trace from some valid pre-registration, and every frame ends closed |
| Tracer.MidenTracer.ProcessCycle | src/tracer.rs:402-946 | one VM state takes every recorder variable and the log to the model's next state |
| Tracer.MidenTracer.ProcessCycles | src/tracer.rs:402-409 | the loop consumes the states before the first error and reports that error |
| Tracer.MidenTracer.PreRegister | src/tracer.rs:284-290 | in any hash order, every declared procedure gets one function under its runtime name at line 1, and nothing else does |
| Tracer.MidenTracer.ResolveFunction | src/tracer.rs:535-546 | a cached name keeps its id and a new one is registered once, so the cache always equals the writer's table |
| Tracer.MidenTracer.ObserveFirst | src/tracer.rs:548-618 | the frames opened for the first context, its synthesised callers included, and the two flags, equal the inference machine's |
| Tracer.MidenTracer.ChangeContext | src/tracer.rs:619-769 | the return, drain, sibling and call branches produce the inference machine's stack, flags and events, arguments and results included |
| Tracer.MidenTracer.SwitchLocals | src/tracer.rs:784-794 | resizing, moving and truncating the saved slot sets equals resizing a plain stack of slot sets |
| Tracer.MidenTracer.SettleInto | src/tracer.rs:770-795 | the entered context's local count is found by full name, then by bare name, else 0 |
| Tracer.MidenTracer.TakeStep | src/tracer.rs:810-820 | a step is registered exactly when the step automaton takes one, on a line the writer admits |
| Tracer.MidenTracer.ResolveLine | src/tracer.rs:501-504 | the line of any offset, even past the end, equals the newline count plus one and is admitted by the writer |
| Tracer.MidenTracer.EmitActiveLocals | src/tracer.rs:997-1026 | the slot variables written are the model's, from the frame address and memory of the state, with nothing for no slots or no declared locals |
| Tracer.MidenTracer.EmitSlot | src/tracer.rs:1009-1024 | a slot is written with the value of its own memory cell, or not at all without one |
| Tracer.MidenTracer.HarvestPending | src/tracer.rs:425-471 | in the last cycle of `mem_loadw` or `loc_loadw`, with or without operand, the pending word becomes the signed values of the top four stack elements; of `adv_push.N` or `adv_loadw` the pending read becomes the top N or four; anything else, or a shorter stack, keeps them |
| Tracer.MidenTracer.EmitWord | src/tracer.rs:878-903 | the pending word is emitted and cleared, else the live stack of a one-cycle load |
| Tracer.MidenTracer.CloseAll | src/tracer.rs:963-987 | the final drain emits one return per stacked caller, synthesised frame and toplevel |
| Tracer.MidenTracer.Finish | src/tracer.rs:953-987 | a VM error is reported once, before the drain, after which only returns without a value follow |
| Tracer.LineCountedPaths.Register | src/line_counts.rs:51-60 | a path is registered once, with the line count of the text first given, and later calls change nothing |
| CallInference.FramesRefineShadow | src/tracer.rs:548-795 | after any contexts, the open frames are the toplevel, the shadow stack and the current context, less the outermost when neither flag is set; never both flags |
| CallInference.DrainClosesAll | src/tracer.rs:963-987 | from any such state the drain closes every frame, the toplevel last |
| CallInference.ToplevelStaysOpen | src/tracer.rs:982-987 | no proper prefix of a bracketed run has closed the toplevel |
| CallInference.FidelityFromMain | src/tracer.rs:548-768 | for any run starting in `#main`, whatever the call graph, stack and calls are true after every move if and only if every move is readable |
| CallInference.FidelityFrom | src/tracer.rs:619-768 | the same from any state whose shadow stack is the true stack |
| CallInference.TracksEveryPrefix | src/tracer.rs:619-768 | tracking throughout a run means being true after each of its prefixes |
| Fidelity.FidelityBelow | src/tracer.rs:619-768 | from any state in which the recorder knows the inner part of the true stack, for every change of the call stack, its stack and calls are true after every move if and only if no move ends the outermost known frame and every move is readable on the known ones; each step rests on `MoveReadIffReadable` |
| CallInference.AcyclicHasNoShortCycle | src/tracer.rs:710-722 | an acyclic call graph has none of the short cycles that make a call look like a return |
| CallInference.FidelityWithoutShortCycles | src/tracer.rs:703-722 | when the graph has no short cycle and the calls a run makes, fidelity holds if and only if hidden sibling boundaries satisfy the recorder's own test and nothing else goes unobserved |
| CallInference.InlinedStart | src/tracer.rs:567-617 | a first context under inlined callers opens exactly the call path from below `#main` to it |
| Fidelity.FidelityFromInlinedStart | src/tracer.rs:567-768 | that equivalence for a run first observed in an inlined chain, under any true callers such as `#main` |
| Fidelity.FidelityFromFramelessStart | src/tracer.rs:548-768 | that equivalence for a run first observed in a context the recorder opens no frame for, such as a procedure `#main` calls directly |
| Fidelity.CallToUnseenCallerIsRead | src/tracer.rs:621-678 | a call back to a caller the recorder never saw is recorded truly, though it would look like a return on the true stack |
| Fidelity.EntryState | src/tracer.rs:548-678 | for each of the four ways a run can begin, the frames the recorder knows and the calls it has recorded; when `#main` surfaces exactly the open frames are closed (`DrainIsExact`) |
| Fidelity.MainAmongCallersIsNoDrain | src/tracer.rs:646-649 | a chain is not drained while `#main` is among its callers |
| Fidelity.FramelessSiblingIsMisread | src/tracer.rs:548-618 | two procedures called in turn by `#main`, first observed in the first: possible and readable moves, yet the return is lost and `#main` is entered |
| Fidelity.SiblingsAreMisread | src/tracer.rs:582 | a concrete program on which that happens |
| Fidelity.CallBackIsMisread | src/tracer.rs:621-645 | after a call of `b` by `a`, a call back to `a` is recorded as a return |
| Fidelity.MissedCallIsMisread | src/tracer.rs:710-737 | a call by `a` that the graph misses, to a procedure `#main` also calls, is recorded as `a`'s return and a new call |
| Fidelity.TwoReturnsAreMisread | src/tracer.rs:738-766 | two returns between observed operations enter `#main` once more |
| Recorder.NestedCallIsMisread | src/tracer.rs:1512-1534 | a source text whose scanned graph misses a call after a nested block, and its misread run |
| TraceTheorems.OpenFramesAreShadow | src/tracer.rs:548-795 | the frame refinement for the log of every run |
| TraceTheorems.TraceBalanced | src/tracer.rs:953-987 | every trace, empty or cut by an error, closes all frames; its last event closes the toplevel, which is open in every proper prefix |
| TraceTheorems.LogIsTrueCallTrace | src/tracer.rs:548-768 | for VM states showing a readable run, however it begins, the log's frames are the run's, the shadow stack is its call stack, and the open frames are that stack, less an outermost frame the trace does not have |
| TraceTheorems.ReturnCarriesResult | src/tracer.rs:638-645 | an observed return carries the stack top of the last processed state before it |
| TraceTheorems.FunctionIdsStable | src/tracer.rs:535-614 | an id given before the run or during it never changes, no name is registered twice, and every call names a registered function |
| TraceTheorems.StepsOfRun | src/tracer.rs:810-820 | the steps of any trace are the step automaton's over the processed operations |
| TraceTheorems.NoStepRefused | src/tracer.rs:501-504 | every step line of every run lies between 1 and the registered line count |
| TraceTheorems.WordsDelivered | src/tracer.rs:425-430 | the words of any run are the completed loads that reach a processed operation before another load completes; the live stack is never consulted for them (`LiveStackUnreachable`) |
| TraceTheorems.ReadsDelivered | src/tracer.rs:437-471 | the same for advice reads |
| LogContents.WordsOnLog | src/tracer.rs:425-430 | the words of any run, by operation name and stack: the four signed values each word load leaves at its last cycle, where they meet a located first cycle before the next load completes |
| LogContents.ReadsOnLog | src/tracer.rs:437-471 | the same for `adv_push.N`, which leaves N values, and `adv_loadw` |
| LogContents.StackOnLog | src/tracer.rs:822-833 | every located first cycle, and no other state, reports its top four stack elements, signed and numbered from the top |
| LogContents.ArgumentsOnLog | src/tracer.rs:727-766 | a state that opens a call after the first observation stages the top of its stack; no other state stages arguments |
| LogContents.ResultsOnLog | src/tracer.rs:638-676 | a return to the expected caller carries the stack top of the last located first cycle, every other return nothing |
| LogContents.FunctionsOnLog | src/tracer.rs:535-614 | new functions carry the line of the state that registers them and its context's name, or an inlined caller's at the first observation; its context is registered |
| LogContents.OrderWithinState | src/tracer.rs:509-945 | within one state come returns, arguments, calls, the step, stack values, the word, the read, and local slots, in this order |
| LogContents.FailureOnLog | src/tracer.rs:953-987 | the trace of any results: with a first error, what the states before it wrote, that error once, and returns; without one, no error |
| CompleteRuns.WordsExactlyOnce | src/tracer.rs:849-903 | when operations are located and complete, the words are those the word loads leave, by operation name and stack, in order if and only if no multi-cycle load is last or followed by a one-cycle load |
| CompleteRuns.ReadsExactlyOnce | src/tracer.rs:905-921 | the same for advice reads |
| CompleteRuns.OverwrittenReadIsLost | src/tracer.rs:437-458 | VM states of an `adv_push.2` over two cycles and then a one-cycle `adv_push.1`: only the second read is in the log |
| TraceTheorems.ReportedSlotsAreOwn | src/tracer.rs:477-489 | on every run the current context's slots are those stored since the trace entered its frame or, without a frame, since it started under the toplevel, with the two stated exceptions |
| TraceTheorems.WrittenLocalsAreOwn | src/tracer.rs:477-489 | on every run a VM state writes `local[N]` with a value if and only if it reports slots, the current context declares locals, the slot is that context's own and its address holds the value |
| LogLocals.LocalsOnLog | src/tracer.rs:923-945 | for 16-bit local counts, state by state the reported slots are the current context's own, each once and ascending, with the value of the slot's memory cell: once at a located first cycle, once more after a one-cycle store, and at the last cycle of a longer store |
| LogLocals.SlotReadsItsCell | src/tracer.rs:1007-1014 | slot N of a frame with n slots has the value of the first memory entry at `fmp - n + N` in 32 bits, and none when N exceeds n or that lies below zero |
| LogLocals.CellsAreDistinct | src/tracer.rs:994-996 | two slots of a frame never share a cell |
| TraceTheorems.SlotEventsExact | src/tracer.rs:1008-1024 | a slot is reported with a value exactly when it is written and its address holds that value |
| TraceTheorems.SlotEventsAscend | src/tracer.rs:1008-1024 | slots are reported in strictly ascending order |
| WrittenSlots.FrameSlotsAreOwned | src/tracer.rs:784-794 | a push, clear and restore stack of slot sets holds, level by level, the slots stored in each open frame |
| WrittenSlots.RootSlotsAreOwned | src/tracer.rs:784-794 | a context without a frame holds the slots stored outside every frame since it started, and those of the outermost frame closed for it |
| WrittenSlots.SlotsFollowFrames | src/tracer.rs:784-794 | for every run the lazily resized slot stack matches that plain stack, and its bottom the slots of a context without a frame |
| WrittenSlots.TopSlotsAreOwned | src/tracer.rs:934-945 | the top of it is what the current context owns, with or without a frame |
| WrittenSlots.EarlySlotIsKept | src/tracer.rs:786-794 | a slot stored before the first observation is reported for the outermost inlined caller, whose frame did not store it |
| TraceTheorems.EarlySlotIsReported | src/tracer.rs:786-794 | that input as three VM states |
| WrittenSlots.MainTakesSlotsOver | src/tracer.rs:791-794 | a slot of the outermost inlined caller is reported for `#main`, which never stored it |
| StepAutomaton.StepIffOpensBlock | src/tracer.rs:810-820 | a step is taken at an index exactly when it starts its line's run or reopens a block of the run's first operation |
| StepAutomaton.LineStartIsMaximal | src/tracer.rs:810 | the run so named is the maximal one on the line |
| StepAutomaton.RunStepsAreBlocks | src/tracer.rs:798-820 | a run on one line adds as many steps as it has maximal blocks of its first operation |
| StepAutomaton.RepeatStepsPerIteration | src/tracer.rs:799-809 | N repetitions of a one-line body whose first operation does not recur take exactly N steps |
| Latch.EmissionClosedForm | src/tracer.rs:878-903 | the latch emits exactly the harvests drained before the next harvest, in order, for every cycle stream |
| Latch.ExactlyOnceIff | src/tracer.rs:354-363 | over complete operations, all loads are emitted once and in order if and only if none is overwritten or left pending |
| Latch.OverwrittenLoadIsLost | src/tracer.rs:425-430 | any multi-cycle load followed by a one-cycle load emits only the second value |
| SourceMaps.FromSource | src/source_map.rs:20-32 | the table is 0 followed by the offset after each newline, in 32 bits |
| SourceMaps.BinarySearch | src/source_map.rs:39 | the key's index where it is found and, on strictly increasing keys, else where it would go |
| SourceMaps.ByteToLine | src/source_map.rs:37-43 | when the line starts fit 32 bits, the newline count before the offset plus one, cut to 32 bits |
| SourceMaps.LineNumbersFit | src/source_map.rs:37-43 | the cut is harmless at every 32-bit offset if and only if the line count fits 32 bits |
| SourceMaps.LineNumberWraps | src/source_map.rs:37-43 | a source of 2^32 - 1 newlines whose last offset gets line 0 |
| SourceMaps.SmallSourcesAreMappable | src/source_map.rs:20-43 | sources under 2^32 - 1 bytes meet every condition of the lookup |
| SourceMaps.LineStartsSorted | src/source_map.rs:21-26 | the table starts at 0, is strictly increasing, and has one entry per line |
| SourceMaps.LineAtMonotone | src/source_map.rs:37-43 | later offsets never give earlier lines |
| SourceMaps.EveryLineIsCounted | src/line_counts.rs:20-22 | the line of every offset, even past the end, is between 1 and the line count |
| Utf8.LinesSurviveEncoding | src/line_counts.rs:20-22 | counting newline bytes counts the lines of the text |
| Utf8.EncodingRoundTrip | src/source_map.rs:22 | decoding a text's bytes by their bit patterns gives its characters back |
| SourceMaps.MultiSourceMap.AddFile | src/source_map.rs:78-81 | a URI refers to the file last added under it, and other URIs keep theirs |
| SourceMaps.MultiSourceMap.Resolve | src/source_map.rs:86-90 | a known URI gives its file's path and, when its line starts fit 32 bits, its line; an unknown one nothing |
| SourceScan.ParseCallGraph | src/tracer.rs:1488-1534 | the graph has each opened body as a key and, for it, the callees of the call tokens on its lines |
| SourceScan.ParseCallKinds | src/tracer.rs:1405-1448 | the same keys and callees, each with the kind of its last token; the open body is always a key |
| SourceScan.ScannersAgree | src/tracer.rs:1405-1534 | both scanners have the same keys and, per key, the same callees |
| SourceText.GraphIsWritten | src/tracer.rs:1405-1534 | for any text of procedures and begin blocks, with paths, other instructions, indentation and comments: the keys are the bodies' names, the callees those they invoke, and each kind that of the last use |
| SourceScan.NothingCallsMain | src/tracer.rs:1494-1500 | since text after `#` is cut, no callee contains `#` and nothing calls `#main`, for every source |
| SourceScan.CallsAfterEndAreMissed | src/tracer.rs:1512-1534 | after a line `end` no call is found until another body opens |
| SourceText.NestedGraph | src/tracer.rs:1512-1534 | the graph scanned from the text of such a program |
| ProcLocals.ParseProcLocals | src/tracer.rs:1454-1470 | exactly the procedures some line declares with a 16-bit count are listed, each with its last count |
| ProcLocals.LocalTableUnique | src/tracer.rs:1454-1470 | that description determines the table |
| SourceText.LocalsAreWritten | src/tracer.rs:1454-1470 | for any such text the table is the counts its headers declare, a header with a comment after it declaring none |
| Ancestry.BuildParentMap | src/tracer.rs:1547-1568 | whatever the iteration order: a child maps to its only caller, to none with two or more, and is absent without any |
| Ancestry.ParentMapUnique | src/tracer.rs:1547-1568 | that map is unique, so the order cannot show |
| Ancestry.NoneMeansSeveralCallers | src/tracer.rs:1542-1546 | no entry without callers, and an empty entry exactly with two or more |
| Ancestry.ChainFromMain | src/tracer.rs:1576-1595 | the walk returns the reversed ancestors up to the first `#main` within 256 steps, or nothing |
| Ancestry.ChainIsCallPath | src/tracer.rs:1570-1595 | a chain starts at `#main`, ends at the leaf, follows edges and has no duplicates |
| Ancestry.ChainIsOnlyPath | src/tracer.rs:1570-1595 | with no caller of `#main` it is the only call path from `#main` to the leaf |
| Ancestry.BoundOnlyCutsCycles | src/tracer.rs:1579-1594 | with at most 256 bodies in the graph, a chain is returned exactly when the unbounded walk reaches `#main` |
| Ancestry.ChainWithinBound | src/tracer.rs:1579-1594 | for every parent map a chain is returned exactly when the walk reaches `#main` within 256 steps |
| Declarations.ParseStack | src/tracer.rs:1046-1130 | both stack parsers return the tagged lines' values in source order |
| Declarations.DeclaredConcat | src/tracer.rs:1038-1040 | parsing two sources joined by a newline concatenates what each declares |
| Declarations.StackRoundTrip | src/tracer.rs:1046-1130 | any tokens give the numbers they spell in decimal or hexadecimal, in order; numbers over 64 bits and other tokens are dropped |
| Declarations.DeclaredStacksRoundTrip | src/tracer.rs:1046-1130 | the same for an `# operand_stack:` and for an `# advice_stack:` line |
| Declarations.DecimalsMean | src/tracer.rs:1096-1130 | the tokens of any 64-bit values in decimal mean those values |
| Declarations.OtherLinesDeclareNothing | src/tracer.rs:1046-1060 | a line that is no comment, or a comment with another tag, declares nothing |
| Text.ParsedExactlyWhenSpelled | src/tracer.rs:1028-1031 | a number is parsed from a text if and only if the text spells it, sign and leading zeros allowed, below the range |
| KernelModule.ParseKernelModule | src/tracer.rs:1213-1249 | the first block with code is returned, each block ending at its first line that is no continuation |
| KernelModule.ContinuationOfComment | src/tracer.rs:1223-1238 | a `# > ` line yields its code, indentation kept and trailing white space dropped |
| KernelModule.ParseOfRendered | src/tracer.rs:1213-1249 | what parsing the rendering of any text gives |
| KernelModule.KernelRoundTrip | src/tracer.rs:1194-1249 | a kernel text comes back from its rendering if and only if its first line is not empty and no line ends in white space |
| KernelModule.KernelIsFoundAnywhere | src/tracer.rs:1213-1249 | a kernel block is found after any lines without a header and ends where its comment lines end |
| KernelModule.EmptyBlockIsSkipped | src/tracer.rs:1224-1247 | a block without code is passed over together with the line that ends it |
| ContextTracker.ExecutionContextTracker.SwitchContext | src/mockchain.rs:572-597 | the tracker's three fields after one switch |
| ContextTracker.TrackerRecords | src/mockchain.rs:572-597 | after any switches: counts are numbers of mentions, kinds the first given, history the changes of context |
| ContextTracker.HistoryFollowsContexts | src/mockchain.rs:572-597 | adjacent history ids differ, history ids are the known contexts, the last is the current one |
| ContextTracker.CyclesAreConserved | src/mockchain.rs:572-597 | the cycle counts sum to the number of calls |
| ContextTracker.PathsChangeNothingElse | src/mockchain.rs:600-604 | however switches and source paths alternate, every context has the path last given to it, and all else is what the switches alone leave |
| MockChain.MockChainState.constructor | src/mockchain.rs:261-333 | accounts and notes are the configured ones field by field, indexed by id, a later entry replacing an earlier one |
| MockChain.AccountsMean | src/mockchain.rs:262-285 | field by field: wallets and faucets become accounts, the last of an id, faucets before wallets |
| MockChain.NotesMean | src/mockchain.rs:287-324 | field by field: every configured note, unconsumed, the last of an id, output before swap before pay-to-id notes; a swap note holds what it offers |
| MockChain.IndexUnique | src/mockchain.rs:261-333 | that description determines the accounts and the notes |
| MockChain.MockChainState.RecordTransaction | src/mockchain.rs:441-457 | the named notes that exist become consumed and the record joins the last block, or a new first one |
| MockChain.AllRecordsShareOneBlock | src/mockchain.rs:449-464 | however records and productions alternate, one block holds every record in order under the number current at the first |
| MockChain.ConsumedExactlyWhenNamed | src/mockchain.rs:443-447 | a note is consumed if and only if it was or some record names it, and changes in nothing else |
| TransactionSession.ContractTraceSession.BuildChain | src/mockchain.rs:754-779 | the chain is built once, from the configuration without its swap notes; otherwise an error and no change |
| TransactionSession.ContractTraceSession.ExecuteTransaction | src/mockchain.rs:786-1002 | the four refusals in order without any change, or the recording, the settled chain and the status of the whole transaction |
| TransactionSession.ExecutionOutcome | src/mockchain.rs:786-1002 | execution succeeds if and only if the chain is built and has the account and every note; then notes named are consumed and nothing else of them changes, the one record joins the last or a new block; otherwise nothing changes and the first reason is named |
| TransactionTheorems.TransactionIsStream | src/mockchain.rs:817-990 | every event with its names, values, lines and contexts, and every switch with its kind and clock, written out for any number of notes |
| TransactionSession.ContractTraceSession.FinalizeSession | src/mockchain.rs:1009-1025 | only an executed session is completed, and only when its summary was written; otherwise an error and no change |
| TransactionTheorems.TransactionNests | src/mockchain.rs:817-990 | for every transaction calls and returns nest with matching contexts, 4 + 2n + s of each, and every event is emitted in the context it names |
| TransactionTheorems.TransactionHistory | src/mockchain.rs:817-990 | clocks never go back; 5 + 3n + s entries and the intended kinds if and only if ids fit 32 bits; the exact number of contexts always |
| TransactionTheorems.SessionRecordsOneTransaction | src/mockchain.rs:754-1025 | in any order of requests at most one build, one later execution and one later finalisation succeed, and chain, events and switches are what that transaction alone leaves |

## Left out

- The Miden VM, assembler, standard library, host and Merkle code: foreign; the VM states are the input.
- Tracer.LineCountedPaths.Register: a registration the writer refuses is not modelled, because the writer is a log.
- The trace writer's container format: the writer is a log, a function table and a path table.
- `parse_advice_map`, `parse_merkle_trees` and the felt parsing around them: they need the hash and felt crates.
- `CallKind::as_tag`, type registration and the writer's start and finish calls: plumbing.
- Recorder.RecordProgram: assumes line starts and line count fit 32 bits, as in every source under 2^32 - 1 bytes, because beyond that the table wraps and the writer may refuse a step, which is not modelled.
- Tracer.MidenTracer.ResolveLine: the same assumption.
- Tracer.MidenTracer.ProcessCycle: the same assumption.
- Tracer.MidenTracer.ProcessCycles: the same assumption.
- Tracer.MidenTracer.ProcessVmStates: the same assumption.
- SourceMaps.ByteToLine: promises no line for sources with a newline at or beyond byte 2^32 - 1, because the table then wraps and a binary search over it promises nothing.
- Tracer.MidenTracer.EmitActiveLocals: a slot above the declared count follows the wrapping subtraction of a release build; the debug build's panic is not modelled.
- Tracer.MidenTracer.HarvestPending: an advice read is kept as its kind, count and values, because the rendered message adds only formatting.
- ContextTracker.ExecutionContextTracker.SwitchContext: counts and clocks are unbounded numbers; the source's 64-bit overflow takes 2^64 switches. The read-only accessors are omitted.
- MockChain.MockChainState.AddNotes: one loop parameterised by the note it builds stands for the three note loops of the builder.
- TransactionSession.ContractTraceSession.BuildChain: the configuration's vectors are passed on whole instead of element by element.
- The contents of the summary file, serialisation and display of a session: input, output and formatting; whether the file could be written is an input.
- The command line, path resolution, client replay, kernel-procedure prefixes and Rust support files.
