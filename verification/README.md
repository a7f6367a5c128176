# A verified model of the GNU Radio runtime

The runtime carries samples from block to block, decides when a block may run, and turns a nested block
diagram into a flat, wired graph. This project models that core in Dafny and proves what it promises, over
every input, every run and every reachable state. `dafny verify dfyconfig.toml` checks all of it.

**Scheduler.** `Rounding` and `BlockExecutor` model one iteration of a block: the least room over its outputs,
the retry loop with its halving, fixed-rate and alignment adjustments, and what is left behind when the
iteration ends blocked or done. `work` is an arbitrary callback. `Decisions` says what an iteration decides in
terms of its snapshots alone: the greatest room, the request, how little halving loses, and what finishes a
block. `SyncBlocks` gives the three fixed-rate block kinds. `ThreadScheduler` is the thread-per-block protocol
as a state machine over its smallest steps (clearing the flags, reading one input or output, moving one
pointer, marking one buffer done, setting one flag, going to sleep, waking up), in any interleaving; its
invariant holds in every reachable state, and one part of it is that no wakeup is lost. `Wakeups` is the other
half of that: a block that waits for input has seen what there is, or its writer is about to tell it. `Turns`
says that looking at inputs and outputs one at a time leads where an iteration on all of them leads, that no
thread is stuck, and that a flag is up exactly when its thread was told. `Progress` combines the scheduler,
the buffer sizes of `BufferSizing` and the protocol: on an acyclic graph of single-input blocks with buffers
as the flowgraph sizes them, in every reachable state with nothing done some block would be given work, and no
state is one where every thread sleeps for good. `Liveness` adds what follows for a run: a block that is ready
calls its work in its very next iteration, in a number of its own steps known beforehand, whatever the other
threads do meanwhile. `Shutdown` drops the condition that nothing is done: while any thread lives, one is
awake or in a timed wait after which it calls work or ends, but for one kind of sink.

**Buffers and tags.** `StreamBuffer` is the circular buffer: one array with wrapping indices stands for an
unbounded stream with one cursor a reader. `Tags` is the sorted multimap beside it with lookup, removal and
pruning. `TagRuns` follows it over all runs, in which a block's work moves the read pointer in as many steps as it
likes and looks the window up only after it has returned, while other threads add, remove and prune: a reader is
handed each tag once. `TagPropagation` moves the tags of consumed items to the outputs.

**Flowgraphs.** `Graphs` and `Flowgraph` hold the edge list, the three-colour topological sort, the partition and
the port validation; `Wiring` allocates details and connects readers to buffers. `Hierarchy` flattens a tree of
hierarchical blocks; `MessageEdges` is the rewriting of message edges for one hierarchical block, and
`MessagePaths` says which message paths survive it. `MessageTree` flattens the message edges of a whole tree.

**Rings and reshaping.** `ByteRing` is a byte queue in an array, `FrameScanner` the scanner that takes frames out
of it, `CircularFile` the file written round and round, `Interleave` the pair of blocks that weave streams and
take them apart.

Where the code does something other than its documentation or its users would expect, the code is followed:

- An iteration that finishes the block can leave the alignment counter inexact
  (`BlockExecutor.FinishingCanBreakBooks` has an input). It stays exact if and only if the flag was up already, or
  nothing was retried (for a sink an input had run dry, otherwise an output's reader was done), or the first clamped
  request held a whole multiple (`BlockExecutor.FinishKeepsBooksExactlyWhen`).
- Work called with an empty request leaves the counter inexact, unless the flag was already up
  (`BlockExecutor.EmptyRequestCanBreakBooks` has an input); the request is empty exactly for a block with inputs, no
  fixed rate, and a maximum below its output multiple (`BlockExecutor.WorkKeepsBooksExactlyWhen`).
- A sync interpolator accepts, besides the requests its conversion names, a last one that is not a whole
  multiple of the interpolation; `SyncBlocks.ConversionsFit` says exactly which.
- A tag lookup whose window starts strictly inside the reader's delay either misses tags or walks past its end
  iterator; `Tags.LookupIsPlainExactlyWhen` says exactly which windows are safe.
- The comment on `prune_tags` promises to remove all tags before a time; the code keeps those within the largest
  delay plus the buffer size, and the delay it keeps is that of the reader that joined last. Since a window is looked
  up only after work has returned, tags can be pruned before a reader with a larger delay has looked them up. Up to two
  items above the delay kept nothing is lost (`TagRuns.ModestDelaysDeliver`); from three items above it up to the buffer
  size, some run that the buffer admits loses a tag, and for no other delay (`TagRuns.SomeRunLosesExactlyWhen`).
- A sink with a relative rate below one can wait for ever for items that will not come: when its input is done and holds
  at least one output multiple, but too little for its rate, the iteration neither calls work nor finishes
  (`Shutdown.DoneSinkWaitsExactlyWhen`; `Shutdown.SinkCanBeLeftHoping` has a run, and by `Shutdown.HopesForEver` the
  sink's thread never ends after it).
- A block that ends marks the buffers it reads done but tells only their writers. Another reader of such a buffer that
  waits for input by then is not told, and sleeps out its timeout: `Wakeups.StepKeepsEndsExactlyWhen` says exactly which
  steps leave a block behind so, and `Wakeups.FellowsEndIsNotTold` has a run. A block that shares no buffer is always told
  (`Wakeups.WaitsWithNothingNew`).
- Replacing a message endpoint by itself never ends once an edge matches (`MessageEdges.ReplacementEndsUnlessSame`).
- Message edges that pass straight through a hierarchical block are lost when hierarchical edges are cleared
  (`MessageEdges.PassThroughIsLost` has an input). No message path is lost if and only if whatever passes through the
  block is also connected directly (`MessagePaths.NoPathLostExactlyWhen`).
- The call of the frame scanner inside `work` is disabled; `FrameScanner.AmpAnalysis.Receive` puts a chunk and
  calls the scanner, as the disabled line would.

Assumptions: the double mapping of a buffer makes circular access contiguous; the alignment of a block is its
output multiple; access under a mutex is one step; endpoints are equal when block and port are.

## Model

| member | source | states |
|---|---|---|
| Rounding.RoundUp | gnuradio-runtime/lib/block_executor.cc:62-65 | the multiple reached by going up less than one step |
| Rounding.RoundDown | gnuradio-runtime/lib/block_executor.cc:67-70 | the multiple reached by going down less than one step |
| Rounding.RoundUpLeast | gnuradio-runtime/lib/block_executor.cc:62-65 | rounding up stays below every multiple that is not below the count |
| Rounding.RoundDownGreatest | gnuradio-runtime/lib/block_executor.cc:67-70 | rounding down stays above every multiple that is not above the count |
| BlockExecutor.MinAvailableSpace | gnuradio-runtime/lib/block_executor.cc:77-100 | the loop with its early returns computes the room over all outputs |
| BlockExecutor.SettledEarly | gnuradio-runtime/lib/block_executor.cc:83-98 | once an output decides, the outputs after it change nothing |
| BlockExecutor.RoomFits | gnuradio-runtime/lib/block_executor.cc:83-99 | with room, every output fits, the result is at most each output's space, and it is one output's own offer |
| BlockExecutor.FirstBlockedDecides | gnuradio-runtime/lib/block_executor.cc:88-95 | without room, the first output that does not fit decides between full, done and too small |
| BlockExecutor.PassShrinks | gnuradio-runtime/lib/block_executor.cc:408-455 | one pass through the fixed-rate and alignment adjustments never enlarges the request, and keeps it positive |
| BlockExecutor.CheckForecast | gnuradio-runtime/lib/block_executor.cc:458-476 | the loop over the inputs finds the first short or negative forecast, or that all are met |
| BlockExecutor.HalvingDecreases | gnuradio-runtime/lib/block_executor.cc:480-484 | a retry asks for strictly less, and for a positive multiple of the output multiple |
| BlockExecutor.RequestsDescend | gnuradio-runtime/lib/block_executor.cc:407-484 | the requests seen at try_again are positive multiples of the output multiple and strictly decrease |
| BlockExecutor.TryAgainSafe | gnuradio-runtime/lib/block_executor.cc:407-513 | whatever the retries, the loop ends in work, blocked on input or done; work's request is no larger than the first, its forecasts are met, and the alignment stays in range |
| BlockExecutor.WorkIsSafe | gnuradio-runtime/lib/block_executor.cc:281-513 | when work is called, the request fits every output, every forecast input is there, it is a multiple of a set output multiple, and it is empty exactly in the one case named |
| BlockExecutor.IterateWithRoom | gnuradio-runtime/lib/block_executor.cc:268-513 | with room on every output an iteration never throws and waits for output only as a source whose maximum is too small |
| BlockExecutor.PassExact | gnuradio-runtime/lib/block_executor.cc:428-455 | one pass keeps the counter exact unless it raises the flag, and work that takes the offer makes it exact again |
| BlockExecutor.MisalignedNotExact | gnuradio-runtime/lib/block_executor.cc:442-448 | a flag raised before work has run does not match the total, so it must be taken back when the iteration ends blocked |
| BlockExecutor.TryAgainExact | gnuradio-runtime/lib/block_executor.cc:407-513 | through all retries the counter ends exact when blocked, after work exactly when something was asked for or the flag was up, after finishing exactly when the flag was up before or the first clamped request held a whole multiple |
| BlockExecutor.IterationKeepsBooks | gnuradio-runtime/lib/block_executor.cc:268-563 | the same for a whole iteration of any block that set no output multiple, in terms of its snapshots and its alignment before |
| BlockExecutor.WorkKeepsBooksExactlyWhen | gnuradio-runtime/lib/block_executor.cc:268-563 | an iteration that calls work leaves the counter exact if and only if the flag was up, the block has no inputs or a fixed rate, or its maximum is not below its output multiple |
| BlockExecutor.FinishKeepsBooksExactlyWhen | gnuradio-runtime/lib/block_executor.cc:407-511 | an iteration that finishes the block leaves the counter exact if and only if the flag was up, an output or input decided before any retry, or the first clamped request held a whole multiple |
| BlockExecutor.EmptyRequestCanBreakBooks | gnuradio-runtime/lib/block_executor.cc:407-563 | an input on which work is called for no items and the counter ends inexact |
| BlockExecutor.FinishingCanBreakBooks | gnuradio-runtime/lib/block_executor.cc:486-511 | an input on which the iteration finishes the block and leaves the counter inexact |
| BlockExecutor.AlignmentExactOverRuns | gnuradio-runtime/lib/block_executor.cc:428-512 | after every iteration of every run of a block that produces what it is offered, the flag is off and the total is a multiple of the alignment, or it is on and total plus unaligned is |
| BlockExecutor.RunStopsOnlyWhenFinished | gnuradio-runtime/lib/block_executor.cc:615-618 | such a run goes on exactly until an iteration finishes the block or throws |
| BlockExecutor.Executor.Adjust | gnuradio-runtime/lib/block_executor.cc:408-455 | updates the unaligned count and flag in place as one pass prescribes |
| BlockExecutor.Executor.Retry | gnuradio-runtime/lib/block_executor.cc:407-513 | the backwards goto as a loop: same outcome and same alignment state as the specification of the retries |
| BlockExecutor.Executor.RunOneIteration | gnuradio-runtime/lib/block_executor.cc:268-619 | the request work saw and the alignment left behind; after work, the outputs advance by a positive count it returned unless the block is done, READY means that something was produced either way, and DONE that work said so or its tags could not be passed on |
| BlockExecutor.Executor.RunAll | gnuradio-runtime/lib/block_executor.cc:549-594 | over any run of iterations whose work gives what it is asked for, the advances of the outputs add up to the total of the run, and the alignment is that of the run |
| Decisions.OutputFitsExactlyWhen | gnuradio-runtime/lib/block_executor.cc:83-99 | an output fits if and only if some whole multiple at or above the minimum fits its space and half its buffer, and then offers the greatest; it is too small if none ever could, and full or done otherwise |
| Decisions.RoomIsGreatest | gnuradio-runtime/lib/block_executor.cc:77-100 | the room over several outputs is the greatest request that all of them hold |
| Decisions.SinkAsksTheMost | gnuradio-runtime/lib/block_executor.cc:351-354 | a sink asks for the most whole multiples within its maximum and the rate of its fullest input |
| Decisions.SourceAsksTheMost | gnuradio-runtime/lib/block_executor.cc:288-310 | a source is asked for the most that its outputs hold and its maximum allows |
| Decisions.RetryEnds | gnuradio-runtime/lib/block_executor.cc:457-513 | the retries end at a request whose first unmet forecast decides: finished if it is negative, the input is done or could never hold so much; waiting if not, and then not even one multiple was met |
| Decisions.HalvingLosesAtMostHalf | gnuradio-runtime/lib/block_executor.cc:479-484 | with forecasts that grow, no request that the inputs could meet is more than twice the one work is called for, and if there is one at all work is called |
| Decisions.IterationLosesAtMostHalf | gnuradio-runtime/lib/block_executor.cc:367-484 | the same of a whole iteration of a block with inputs and outputs, of what its outputs hold and its maximum allows |
| Decisions.SinkLosesAtMostHalf | gnuradio-runtime/lib/block_executor.cc:304-363 | the same of a sink, of what the rate of an input makes of its items |
| Decisions.FinishedForACause | gnuradio-runtime/lib/block_executor.cc:268-513 | an iteration finishes a block only for an output full for good, a sink's input ended below a multiple, an input ended short of its forecast, or a forecast that nothing can meet |
| Decisions.FullOutputDecides | gnuradio-runtime/lib/block_executor.cc:86-91 | the first output that does not fit finishes the block if it is done and else makes it wait |
| Decisions.WorkIsWithinMaximum | gnuradio-runtime/lib/block_executor.cc:419-423 | work is never asked for more than the maximum, but for one multiple of a block with a fixed rate |
| Decisions.FixedRateIsNotExceeded | gnuradio-runtime/lib/block_executor.cc:408-418 | an aligned block with a fixed rate is not asked for more than its fullest input converts to |
| Decisions.IterationKeepsFixedRate | gnuradio-runtime/lib/block_executor.cc:304-423 | the same of a whole iteration, with or without outputs |
| Decisions.RealignUsesTheRequest | gnuradio-runtime/lib/block_executor.cc:430-441 | an unaligned block that can be aligned again is asked for as much of its request as leaves it aligned, rounding up; otherwise for all of it, and owes the rest |
| BufferSizing.Bezout | gnuradio-runtime/lib/buffer.cc:83-90 | the divisor computed is a combination of the two sizes |
| BufferSizing.GcdDivides | gnuradio-runtime/lib/buffer.cc:83-90 | the divisor computed divides both sizes |
| BufferSizing.PageFillingSizes | gnuradio-runtime/lib/buffer.cc:76-90 | a count fills whole pages exactly when it is a multiple of the minimum, which is positive; so the minimum is the least such count |
| BufferSizing.AllocateBuffer | gnuradio-runtime/lib/buffer.cc:127-163 | the buffer size is the least page-filling size not below the request |
| BufferSizing.BaseIsEnough | gnuradio-runtime/lib/flat_flowgraph.cc:132-158 | the count before the readers is unusable exactly for a maximum below the output multiple, and at least twice the output multiple when no maximum is set |
| BufferSizing.BaseIsWithin | gnuradio-runtime/lib/flat_flowgraph.cc:129-158 | the count before the readers: what fits 64 KiB or two multiples, cut to the most whole multiples within a maximum, or raised to those within a minimum |
| BufferSizing.NeedIsWhole | gnuradio-runtime/lib/flat_flowgraph.cc:165-169 | a reader's need is the whole part of twice what one of its output multiples takes with its history |
| BufferSizing.RequestItems | gnuradio-runtime/lib/flat_flowgraph.cc:122-170 | refused exactly when a set maximum is below the output multiple; otherwise the largest of the base and every reader's need |
| BufferSizing.SizeOutput | gnuradio-runtime/lib/flat_flowgraph.cc:122-190 | with no maximum the buffer is large enough for the writer and for every reader, and it fills pages |
| SyncBlocks.Forecast | gnuradio-runtime/lib/sync_block.cc:39-44 | every input is asked for the converted count |
| SyncBlocks.ConversionsFit | gnuradio-runtime/lib/sync_interpolator.cc:47-55 | the two conversions agree on which requests fit, with one exact exception for interpolators |
| SyncBlocks.ForecastFits | gnuradio-runtime/lib/sync_block.cc:46-54 | a request within the conversion of the items there has its forecast met by them |
| SyncBlocks.ConsumedIsForecast | gnuradio-runtime/lib/sync_decimator.cc:57-66 | what is consumed for an output count is its forecast less the history, which stays |
| SyncBlocks.HistoryIsKept | gnuradio-runtime/lib/sync_decimator.cc:57-66 | however little of a request work delivers, what is consumed leaves every input its history |
| SyncBlocks.SyncBlocksAreFrugal | gnuradio-runtime/lib/sync_block.cc:39-54 | the three kinds meet the forecast conditions under which the scheduler never hangs |
| SyncBlocks.FixedRateNeedsNoRetry | gnuradio-runtime/lib/sync_decimator.cc:52-55 | with one input, a request its items can meet calls work on the first pass |
| ThreadScheduler.InitInv | gnuradio-runtime/lib/tpb_thread_body.cc:78-98 | the invariant holds when the threads start |
| ThreadScheduler.StepKeepsWarrants | gnuradio-runtime/lib/tpb_thread_body.cc:98-206 | no step of any thread loses a wakeup: a sleeper whose flag is down is still blocked, or some neighbour between its pointer update and its notification owes it one |
| ThreadScheduler.StepKeepsInv | gnuradio-runtime/lib/tpb_thread_body.cc:98-206 | every step of every thread keeps the whole invariant |
| ThreadScheduler.RunKeepsInv | gnuradio-runtime/lib/tpb_detail.cc:38-66 | the invariant, so no lost wakeup, in every state of every interleaving |
| Wakeups.StepKeepsUpToDate | gnuradio-runtime/lib/tpb_thread_body.cc:168-195 | no step of any thread leaves a block behind on items: while its flag is down every input it has looked at holds what it saw, or the writer is between moving its pointer and telling the block |
| Wakeups.RunKeepsUpToDate | gnuradio-runtime/lib/tpb_thread_body.cc:98-206 | the same in every state of every run |
| Wakeups.StepKeepsEndsExactlyWhen | gnuradio-runtime/lib/block_detail.cc:94-102 | for ends of streams a step keeps this if and only if it is not a fellow reader's mark on a buffer that the block has seen going on, with the writer about to tell nothing |
| Wakeups.BehindSinceAnUnseenEnd | gnuradio-runtime/lib/block_detail.cc:94-102 | in any run, a block that is behind on an end was left so by such a mark |
| Wakeups.WaitsWithNothingNew | gnuradio-runtime/lib/tpb_thread_body.cc:182-195 | a block that waits for input with its flag down has seen all items there are or will be told, and all ends too if it shares no buffer |
| Wakeups.FellowsEndIsNotTold | gnuradio-runtime/lib/tpb_detail.cc:38-58 | a run after which a block waits for input that another reader's end has marked done, and nobody will tell it |
| Turns.OutputsDecideAsIterate | gnuradio-runtime/lib/block_executor.cc:367-513 | looking at the outputs one at a time ends where an iteration on all inputs and outputs ends, whatever the outputs not looked at hold |
| Turns.InputsDecideAsIterate | gnuradio-runtime/lib/block_executor.cc:304-363 | the same for a sink and its inputs |
| Turns.ReturnKeepsBooks | gnuradio-runtime/lib/block_executor.cc:549-563 | when work returns after giving what it was asked for, the alignment counter of the thread is exact again |
| Turns.EndsForACause | gnuradio-runtime/lib/block_executor.cc:486-511 | apart from its work asking for it, a block starts to end only where a buffer around it is done or it asks for what its buffer can never hold |
| Turns.NeverStuck | gnuradio-runtime/lib/tpb_thread_body.cc:98-206 | in every state of every run a thread that has not ended or crashed and does not wait for output space untold can take a step |
| Turns.FlagIsUpExactlyWhenTold | gnuradio-runtime/include/gnuradio/tpb_detail.h:69-91 | in every state of every run a flag is up if and only if its thread was told by a neighbour or a message since it last cleared its flags |
| Progress.HalfIsEnough | gnuradio-runtime/lib/flat_flowgraph.cc:165-169 | half a buffer sized for a reader meets the reader's forecast |
| Progress.HalfMeetsForecast | gnuradio-runtime/lib/block_executor.cc:457-476 | half of the buffer on a block's input meets its forecast for one output multiple, and is enough for a sink to ask for one |
| Progress.FullOutputFeeds | gnuradio-runtime/lib/block_executor.cc:86-91 | a full output leaves its slowest reader, which is further downstream, half the buffer to read |
| Progress.FedWorksOrIsFull | gnuradio-runtime/lib/block_executor.cc:367-513 | a block with enough input calls work, or one of its outputs is full |
| Progress.SomeBlockCanWork | gnuradio-runtime/lib/block_executor.cc:457-513 | in every reachable state with nothing done, some block would be given work |
| Progress.NeverCrashes | gnuradio-runtime/lib/block_executor.cc:88-89 | in a graph sized by the flowgraph no thread ends on an exception |
| Progress.AllWaitingOneWorks | gnuradio-runtime/lib/tpb_thread_body.cc:182-206 | if every thread sleeps, one sleeps with a timeout and has work to do |
| Progress.NeverHangs | gnuradio-runtime/lib/tpb_thread_body.cc:98-206 | in every state of every run with nothing done, some thread is awake, or is in a timed wait and will be given work |
| Liveness.SomeBlockReady | gnuradio-runtime/lib/block_executor.cc:86-91 | in every state the invariant allows, with nothing done, some block is ready: its input holds half a buffer and every output has room |
| Liveness.ReadyStays | gnuradio-runtime/lib/block_executor.cc:367-400 | a ready block stays ready while only other threads move pointers |
| Liveness.SeenFedWorks | gnuradio-runtime/lib/block_executor.cc:367-513 | an iteration whose snapshots found the input half full and every output with room calls work |
| Liveness.ReadyBlockWorks | gnuradio-runtime/lib/tpb_thread_body.cc:98-206 | from any state of any run in which a ready block is about to begin an iteration, until something is done: it has called work since, or is still on course and closer by every step its own thread took |
| Liveness.WorkIsCalledInTime | gnuradio-runtime/lib/tpb_thread_body.cc:98-206 | so once its thread has taken as many steps as were left, work has been called, in every interleaving |
| Liveness.WorkIsCalledWithinOneTurn | gnuradio-runtime/lib/tpb_thread_body.cc:98-206 | that takes at most three steps of the thread and one for each of its inputs and outputs |
| Liveness.AllWaitingOneIsOnCourse | gnuradio-runtime/lib/tpb_thread_body.cc:182-206 | when every thread waits, one waits with a timeout and is on course: work follows in the iteration it then runs |
| Shutdown.DoneInputsEndRetry | gnuradio-runtime/lib/block_executor.cc:407-513 | once every input is done, the retries end in work or in the end of the block, never in waiting for input |
| Shutdown.DoneSinkWaitsExactlyWhen | gnuradio-runtime/lib/block_executor.cc:345-361 | a sink whose inputs are done waits for more if and only if no input has run dry of whole multiples and its rate makes nothing of what is there |
| Shutdown.DoneSinkCanWait | gnuradio-runtime/lib/block_executor.cc:352-361 | a sink and a finished input on which it waits for more |
| Shutdown.FullFeedsTheLiving | gnuradio-runtime/lib/block_executor.cc:86-91 | the slowest reader of a full output that is not done has not ended, and has half the buffer to read |
| Shutdown.NeverHangsWhileEnding | gnuradio-runtime/lib/tpb_thread_body.cc:98-206 | in every state of every run, whatever is done: unless every thread has ended, one is awake, or is in a timed wait after which it calls work or finishes, or is such a sink |
| Shutdown.SteadySinksProceed | gnuradio-runtime/lib/block_executor.cc:352-361 | with sinks that do not reduce their rate, that thread calls work or finishes |
| Shutdown.HopesForEver | gnuradio-runtime/lib/tpb_thread_body.cc:98-206 | a sink left waiting so after its input's writer has ended goes round for ever, in every run: it neither ends nor calls work again |
| Shutdown.SinkCanBeLeftHoping | gnuradio-runtime/lib/block_executor.cc:345-361 | a run of a source and a sink, in buffers as the flowgraph sizes them, that leaves the sink waiting so |
| StreamBuffer.IndexAdd | gnuradio-runtime/include/gnuradio/buffer.h:186-195 | one conditional subtraction is addition modulo the buffer size |
| StreamBuffer.IndexSub | gnuradio-runtime/include/gnuradio/buffer.h:197-206 | one conditional addition is subtraction modulo the buffer size |
| StreamBuffer.CellsDiffer | gnuradio-runtime/lib/buffer.cc:187-189 | positions less than a buffer apart never share a cell |
| StreamBuffer.DistanceMod | gnuradio-runtime/lib/buffer.cc:321-324 | the difference of two indices is the distance of their positions |
| StreamBuffer.StoreOne | gnuradio-runtime/lib/buffer.cc:193-200 | an item stored ahead of the write position overwrites nothing that is kept |
| StreamBuffer.CountedIsHeld | gnuradio-runtime/lib/buffer.cc:195-200 | counting items makes them the next of the stream |
| StreamBuffer.CellsAreItems | gnuradio-runtime/lib/buffer.cc:326-329 | the cells from a read index on, going round, hold the next items of the stream |
| StreamBuffer.MovedReader | gnuradio-runtime/lib/buffer.cc:331-336 | a reader that is given its next cells and moved past them was given the right items and points at the cell of the next |
| StreamBuffer.Buffer.AddReader | gnuradio-runtime/lib/buffer.cc:208-220 | a reader starts its preload back, a preload of a whole buffer counts as none, a negative one is refused, and the pruning margin becomes its delay alone; of a preload reaching further back than the cells still keep, the items promised are those kept |
| StreamBuffer.Buffer.ItemsAvailable | gnuradio-runtime/lib/buffer.cc:321-324 | exactly preload plus written less read |
| StreamBuffer.Buffer.SpaceAvailable | gnuradio-runtime/lib/buffer.cc:166-191 | the room the slowest reader leaves, less one; the least read count is remembered and tags are pruned up to the one before |
| StreamBuffer.Buffer.Fill | gnuradio-runtime/lib/buffer.cc:193-193 | writing within the room overwrites no unread item of any reader |
| StreamBuffer.Buffer.UpdateWritePointer | gnuradio-runtime/lib/buffer.cc:195-200 | the counted items are appended to the stream |
| StreamBuffer.Buffer.ReadItems | gnuradio-runtime/lib/buffer.cc:326-329 | the cells from the read pointer on, going round, are what is read, and they equal the next items of the stream |
| StreamBuffer.Buffer.UpdateReadPointer | gnuradio-runtime/lib/buffer.cc:331-336 | what the reader was given grows by what the cells at its pointer held, and stays equal to its part of the stream; its available count falls by as many |
| StreamBuffer.Buffer.SeesPreloadThenStream | gnuradio-runtime/lib/buffer.cc:166-231 | over every run, what a reader that joined at the start found in the cells is its preload of zeros and then the stream, in order |
| StreamBuffer.Buffer.AddItemTag | gnuradio-runtime/lib/buffer.cc:233-237 | the tag goes in behind the entries at its offset and in front of all later ones, and nothing else changes |
| StreamBuffer.Buffer.RemoveItemTag | gnuradio-runtime/lib/buffer.cc:239-250 | every entry with this offset and payload is marked for the block; all else of it, and every other entry, is unchanged |
| StreamBuffer.Buffer.PruneTags | gnuradio-runtime/lib/buffer.cc:252-289 | the leading stale entries are dropped |
| StreamBuffer.Buffer.GetTagsInRange | gnuradio-runtime/lib/buffer.cc:338-368 | what the walk hands over lies in the window, unmarked, and is an entry not marked for the block at its offset plus the delay; for bounds that cross the walk never meets its end |
| Tags.InsertSorts | gnuradio-runtime/lib/buffer.cc:233-237 | insertion keeps the multimap sorted by offset |
| Tags.PlainLookup | gnuradio-runtime/lib/buffer.cc:338-368 | in a window that does not start inside the delay, the lookup returns exactly the unmarked tags of the window |
| Tags.PlainLookupFindsAll | gnuradio-runtime/lib/buffer.cc:338-368 | in such a window every entry not marked for the block whose offset plus the delay is inside is handed over, at that offset |
| Tags.LookupIsPlainExactlyWhen | gnuradio-runtime/lib/buffer.cc:346-349 | on all tag lists the lookup is the plain window if and only if the window is one of the kinds named |
| Tags.PruneDropsStale | gnuradio-runtime/lib/buffer.cc:274-288 | pruning drops exactly the tags further back than the margin, and keeps the order |
| Tags.PruneIsSafeExactlyWhen | gnuradio-runtime/lib/buffer.cc:278-281 | pruning spares every tag a reader has yet to look up if and only if its delay is within the margin, give or take how far the start of its next window is from the limit |
| TagRuns.AddKeeps | gnuradio-runtime/lib/buffer.cc:233-237 | adding a tag keeps the exactly-once history, also while a reader is between its move and its lookup |
| TagRuns.RemoveKeeps | gnuradio-runtime/lib/buffer.cc:239-250 | removing a tag keeps the exactly-once history, and counts for whoever has yet to look it up |
| TagRuns.SpaceKeeps | gnuradio-runtime/lib/buffer.cc:166-191 | pruning from space_available keeps the exactly-once history if it spares what is yet to be looked up, whatever reader is in the middle of its work |
| TagRuns.WorkKeeps | gnuradio-runtime/lib/block_executor.cc:526-539 | beginning work and moving the read pointer, in any number of moves, change nothing about what was looked up |
| TagRuns.LookKeeps | gnuradio-runtime/lib/block_executor.cc:566-574 | looking up the window from where work began to where the pointer then stands keeps the exactly-once history; the windows tile because each begins where the pointer last stood at a lookup |
| TagRuns.TagsAreDeliveredExactlyOnce | gnuradio-runtime/lib/buffer.cc:338-368 | over every run whose prunings spare what is yet to be looked up, each reader is handed each tag once if it came past the tag after the tag was added and before any removal, and otherwise never |
| TagRuns.BirthsAreAdds | gnuradio-runtime/lib/buffer.cc:233-237 | what a run counts as inserted is what it added, in order |
| TagRuns.DroppedWasRemoved | gnuradio-runtime/lib/buffer.cc:239-250 | a tag is withheld from a reader only after a removal of this tag for the reader's block |
| TagRuns.RemovedIsNeverDelivered | gnuradio-runtime/lib/buffer.cc:239-250 | a tag removed for a block before the block comes to look its item up is never handed to it afterwards, in any run |
| TagRuns.ModestDelaysAreSpared | gnuradio-runtime/lib/buffer.cc:166-191 | with no delay more than two above the largest one known, every pruning of every run spares what is yet to be looked up |
| TagRuns.ModestDelaysDeliver | gnuradio-runtime/lib/buffer.cc:252-289 | so with such delays every tag is delivered exactly once over every run |
| TagRuns.AdmittedRunsFit | gnuradio-runtime/lib/buffer.cc:166-200 | when the writer stays within the room it found last and readers within what is there, no reader ever has as much as the buffer size unread, whatever moves in between |
| TagRuns.LargerDelaysCanLoseTags | gnuradio-runtime/lib/buffer.cc:278-281 | for every buffer size, largest known delay, and delay three or more above it up to the buffer size, a run that the buffer admits in which a tag is pruned between a reader's move and its lookup and never handed over |
| TagRuns.BeyondTheBufferNothingPasses | gnuradio-runtime/lib/buffer.cc:346-349 | with a delay above the buffer size no window in which the lookup is plain reaches past the delay |
| TagRuns.SomeRunLosesExactlyWhen | gnuradio-runtime/lib/buffer.cc:278-281 | some run that the buffer admits loses a tag of a reader if and only if its delay is three or more above the one kept and at most the buffer size |
| TagPropagation.ScaleIsNearest | gnuradio-runtime/lib/block_executor.cc:154-165 | the scaled offset is the nearest to offset times rate with halves going up, and scaling keeps order |
| TagPropagation.RealScaleAgrees | gnuradio-runtime/lib/block_executor.cc:146-151 | scaling in real arithmetic and truncating gives the same offset as the rational scaling |
| TagPropagation.PropagateTags | gnuradio-runtime/lib/block_executor.cc:102-227 | each output is sent exactly the copies of its policy in order, by the rational and by the real scaling alike; every one is a tag found on its input, with the same serial, payload and marks, at the nearest offset; false exactly for one-to-one with unequal port counts |
| TagPropagation.SentIsCopies | gnuradio-runtime/lib/block_executor.cc:119-215 | what an output is sent is, input by input and in the order found, one copy of every tag of the inputs meant for it, at the integer nearest to offset times rate with halves going up, and nothing more |
| TagPropagation.SentIsFromFound | gnuradio-runtime/lib/block_executor.cc:119-215 | every copy sent is of a tag found on an input meant for the output |
| TagPropagation.SentOnce | gnuradio-runtime/lib/block_executor.cc:123-215 | in one iteration, a tag found on an input is sent as often as found to the outputs it is meant for, and never to others |
| TagPropagation.SentIsFound | gnuradio-runtime/lib/block_executor.cc:566-574 | the same over all iterations, at whatever rates |
| TagPropagation.TagsAreCopiedExactlyOnce | gnuradio-runtime/lib/block_executor.cc:526-574 | over every run in which other threads add and prune between work and the lookup, a tag whose item the block consumed, unremoved, is added once to every output it is meant for; no other tag is ever added |
| Graphs.UniqueVector | gnuradio-runtime/lib/flowgraph.cc:44-53 | sorted, without duplicates, same members |
| Graphs.ForwardHasNoCycle | gnuradio-runtime/lib/flowgraph.cc:395-412 | an order with every edge going forward shows there is no cycle |
| Flowgraph.FlowgraphObject.Connect | gnuradio-runtime/lib/flowgraph.cc:55-65 | each refusal exactly when its check fails, in order; a destination is never driven twice |
| Flowgraph.FlowgraphObject.Disconnect | gnuradio-runtime/lib/flowgraph.cc:67-79 | one copy of the edge is removed, if there is one |
| Flowgraph.FlowgraphObject.TopologicalDfsVisit | gnuradio-runtime/lib/flowgraph.cc:439-464 | a visit finds a cycle, or finishes the block behind everything finished before and leaves fewer white blocks |
| Flowgraph.FlowgraphObject.SortSourcesFirst | gnuradio-runtime/lib/flowgraph.cc:414-437 | a permutation with every source before every other block |
| Flowgraph.FlowgraphObject.TopologicalSort | gnuradio-runtime/lib/flowgraph.cc:395-412 | reports loops if and only if the set has a directed cycle; otherwise a permutation with every edge's source before its destination |
| Flowgraph.FlowgraphObject.CalcUsedBlocks | gnuradio-runtime/lib/flowgraph.cc:177-196 | exactly the blocks of stream and message edges, sorted, each once |
| Flowgraph.FlowgraphObject.CalcReachableBlocks | gnuradio-runtime/lib/flowgraph.cc:344-376 | exactly the connected component of the block |
| Flowgraph.FlowgraphObject.Partition | gnuradio-runtime/lib/flowgraph.cc:326-342 | ends; reports loops if and only if there are any; otherwise the parts are the connected components, every block is in one part once, and every part is sorted |
| Flowgraph.CheckContiguity | gnuradio-runtime/lib/flowgraph.cc:231-270 | accepts exactly the ports 0..n-1 within the limits; each refusal exactly when its check fails, and the missing port is the first |
| Flowgraph.Validate | gnuradio-runtime/lib/flowgraph.cc:81-107 | accepts exactly when every used block has contiguous ports within its limits and a topology it agrees to |
| Wiring.FlatFlowgraph.AllocateBlockDetail | gnuradio-runtime/lib/flat_flowgraph.cc:84-120 | one slot a used port, every output slot filled once, unless a buffer cannot be allocated |
| Wiring.FlatFlowgraph.SetInput | gnuradio-runtime/lib/block_detail.cc:73-87 | a slot and a buffer in range: the slot then holds a reader on the source's buffer, whatever was in it, and the reader is the buffer's last; otherwise it throws and changes nothing |
| Wiring.FlatFlowgraph.ConnectBlockInputs | gnuradio-runtime/lib/flat_flowgraph.cc:192-225 | every input slot of the block is filled once from the port that feeds it |
| Wiring.FlatFlowgraph.SetupConnections | gnuradio-runtime/lib/flat_flowgraph.cc:56-71 | after validation every slot of every block is filled by exactly one call, and the readers of a buffer are exactly the inputs its port feeds |
| Wiring.MatchOne | gnuradio-runtime/lib/flat_flowgraph.cc:202-224 | connecting one edge keeps readers and filled slots matched |
| Wiring.ReadersAreFed | gnuradio-runtime/lib/flat_flowgraph.cc:64-66 | when all edges are connected, a buffer's readers are exactly its edges' destinations |
| Hierarchy.ResolutionIsReachability | gnuradio-runtime/lib/hier_block2_detail.cc:463-557 | resolution ends; it fails if and only if a loose port can be reached, and otherwise returns exactly the primitive ports reached |
| Hierarchy.FanIsReachability | gnuradio-runtime/lib/hier_block2_detail.cc:487-492 | an input resolves to exactly the leaves of its fan-out |
| Hierarchy.OutputHasOneSource | gnuradio-runtime/lib/hier_block2_detail.cc:493-507 | an output resolves to exactly one primitive port |
| Hierarchy.FlatEdgeStep | gnuradio-runtime/lib/hier_block2_detail.cc:867-876 | the primitive-to-primitive paths of a block are those across its own edges and those of its children |
| Hierarchy.ChildrenAreUsed | gnuradio-runtime/lib/hier_block2_detail.cc:780-865 | the blocks recursed into are exactly those at an end of an edge, inside a port, held by themselves, or at a message edge |
| Hierarchy.ReachedIsInTree | gnuradio-runtime/lib/hier_block2_detail.cc:463-557 | whatever primitive block a port stands for is inside the port's block |
| Hierarchy.PartsAreWithin | gnuradio-runtime/lib/hier_block2_detail.cc:780-876 | every flat edge and every loose port of a block at an edge, behind an input or output, or held apart is one of the whole block |
| Hierarchy.DrivenExactlyWhen | gnuradio-runtime/lib/hier_block2_detail.cc:707-876 | in a tree with nothing loose exactly the ends of its paths are driven |
| Hierarchy.AnyChildFirst | gnuradio-runtime/lib/hier_block2_detail.cc:867-876 | what the children drive adds up the same in whatever order they are visited |
| Hierarchy.SingleSplits | gnuradio-runtime/lib/flowgraph.cc:153-162 | refusing a destination in use, edge after edge, is refusing exactly when something is driven twice in all |
| Hierarchy.FlattenLink | gnuradio-runtime/lib/hier_block2_detail.cc:707-722 | one edge is flattened if and only if it leads to no loose port, its paths fit and it drives nothing twice; then exactly the paths across it are added |
| Hierarchy.ChildrenDecide | gnuradio-runtime/lib/hier_block2_detail.cc:792-876 | once a block's own edges are in and nothing of it is unwired, the block flattens if and only if its children do |
| Hierarchy.FlattenAux | gnuradio-runtime/lib/hier_block2_detail.cc:559-876 | returns if and only if nothing inside is unwired or loose, every path fits and no destination is driven twice; then exactly the paths of the block and everything inside were added, each once |
| Hierarchy.Flatten | gnuradio-runtime/lib/hier_block2_detail.cc:707-876 | for the whole tree: returns exactly under those conditions, and the flat stream edges are exactly its primitive-to-primitive paths |
| MessageEdges.ReplacementEndsUnlessSame | gnuradio-runtime/lib/flat_flowgraph.cc:448-481 | scanning the growing list goes on forever if and only if the endpoint is replaced by itself and some edge matches |
| MessageEdges.RedirectedMembers | gnuradio-runtime/lib/flat_flowgraph.cc:457-480 | a replacement appends exactly the redirections of the matching edges |
| MessageEdges.InwardStep | gnuradio-runtime/lib/hier_block2_detail.cc:737-742 | an edge from an input port joins every outer edge on that port with it |
| MessageEdges.OutwardStep | gnuradio-runtime/lib/hier_block2_detail.cc:743-748 | an edge to an output port joins every outer edge on that port with it |
| MessageEdges.RewritingIsJoinWhenStraight | gnuradio-runtime/lib/hier_block2_detail.cc:728-766 | when no connection is refused, what is left is the join of outer and inner edges if and only if no joined edge leads back to a replaced port |
| MessageEdges.RewritingIsRefusedExactlyWhen | gnuradio-runtime/lib/hier_block2_detail.cc:749-757 | the rewriting throws if and only if at some edge inside between blocks a port is unknown or such an edge is there by then |
| MessageEdges.PassThroughIsLost | gnuradio-runtime/lib/flat_flowgraph.cc:433-446 | inputs on which a message path is lost: with an inner edge from an input straight to an output, only edges on the hierarchical block are left, never the one across it |
| MessageEdges.MessageGraph.ReplaceEndpoint | gnuradio-runtime/lib/flat_flowgraph.cc:448-481 | the list afterwards, although it grows while it is scanned |
| MessageEdges.MessageGraph.ClearEndpoint | gnuradio-runtime/lib/flat_flowgraph.cc:416-431 | erasing while stepping back removes exactly the matching edges |
| MessageEdges.MessageGraph.ClearHier | gnuradio-runtime/lib/flat_flowgraph.cc:433-446 | removes exactly the edges with a hierarchical end |
| MessageEdges.MessageGraph.Connect | gnuradio-runtime/lib/flowgraph.cc:466-476 | refuses unknown ports and edges already there, and otherwise appends |
| MessageEdges.MessageGraph.FlattenMessages | gnuradio-runtime/lib/hier_block2_detail.cc:728-766 | the loop and the clears leave exactly the join, and nothing on the replaced ports |
| MessagePaths.PathsAreDirectOrThrough | gnuradio-runtime/lib/hier_block2_detail.cc:728-766 | a message path from plain block to plain block exists if and only if an inner edge or one outer edge connects them, or a chain of outer edges passed on inside does |
| MessagePaths.SurvivesExactlyWhenDirect | gnuradio-runtime/lib/flat_flowgraph.cc:433-446 | between plain blocks an edge is left after both clears if and only if they are connected directly |
| MessagePaths.NoPathLostExactlyWhen | gnuradio-runtime/lib/hier_block2_detail.cc:878-883 | every message path survives as an edge if and only if whatever passes through the block is connected directly as well |
| MessagePaths.NothingIsInvented | gnuradio-runtime/lib/flat_flowgraph.cc:448-481 | no edge is left between plain blocks that no path connected |
| MessagePaths.WithoutPassingNothingIsLost | gnuradio-runtime/lib/hier_block2_detail.cc:737-748 | without an inner edge from an input to an output no path is lost |
| MessagePaths.FlattenAndClear | gnuradio-runtime/lib/hier_block2_detail.cc:728-883 | flattening one block and clearing what is hierarchical leaves exactly the surviving edges |
| MessageTree.CompositeIsRoute | gnuradio-runtime/lib/hier_block2_detail.cc:728-876 | over the blocks of a tree, each before those inside it: between plain blocks, what they make of each other's message edges is one edge for every route up through output ports, along one edge, and down through input ports |
| MessageTree.OrderDoesNotMatter | gnuradio-runtime/lib/hier_block2_detail.cc:859-876 | between plain blocks the same edges are left whatever the order of the blocks beside each other |
| MessageTree.FlattenTree | gnuradio-runtime/lib/hier_block2_detail.cc:728-883 | flattening block after block on one list and clearing at the end leaves exactly the routes between plain blocks; it is refused only where a block's edges cannot be connected to what is left so far |
| ByteRing.LaidIsPut | gr-beklBlk/lib/RngLib.cpp:168-220 | bytes laid on free cells are stored behind what was stored |
| ByteRing.CopiedIsGot | gr-beklBlk/lib/RngLib.cpp:104-146 | copying in one or two pieces hands out the oldest bytes |
| ByteRing.ByteRing.BufGet | gr-beklBlk/lib/RngLib.cpp:104-146 | removes and returns the first min(n, stored) bytes in every wrap case |
| ByteRing.ByteRing.BufPut | gr-beklBlk/lib/RngLib.cpp:168-220 | appends the first min(n, free) bytes in every wrap case |
| ByteRing.ByteRing.IsEmpty | gr-beklBlk/lib/RngLib.cpp:233-238 | true if and only if nothing is stored |
| ByteRing.ByteRing.IsFull | gr-beklBlk/lib/RngLib.cpp:253-260 | true if and only if no byte is free |
| ByteRing.ByteRing.NBytes | gr-beklBlk/lib/RngLib.cpp:274-283 | the number of bytes stored |
| ByteRing.ByteRing.PutAhead | gr-beklBlk/lib/RngLib.cpp:307-318 | changes one byte ahead and nothing stored |
| ByteRing.ByteRing.MoveAhead | gr-beklBlk/lib/RngLib.cpp:332-343 | stores the bytes lying ahead |
| ByteRing.ByteRing.PutAheadThenMove | gr-beklBlk/lib/RngLib.cpp:289-343 | putting k bytes ahead and moving ahead k is a put of k bytes |
| ByteRing.ByteRing.BufGetNoDel | gr-beklBlk/lib/RngLib.cpp:347-355 | a pure peek |
| ByteRing.ByteRing.MoveRead | gr-beklBlk/lib/RngLib.cpp:357-368 | the same as a get thrown away |
| FrameScanner.ScanConserves | gr-beklBlk/lib/beklAmpAnalysis_impl.cc:100-142 | every byte is skipped, in a frame, or left, in order |
| FrameScanner.ScanFinishes | gr-beklBlk/lib/beklAmpAnalysis_impl.cc:102-140 | what is left is too little to decide on, less than a long frame, and every accepted frame is whole |
| FrameScanner.WholeFrameBytes | gr-beklBlk/lib/beklAmpAnalysis_impl.cc:107-122 | a whole frame by its bytes: HFDU from byte 4, and 2048 bytes if the next four are 2024 least significant first, else 1024 |
| FrameScanner.FirstIsFrameExactlyWhen | gr-beklBlk/lib/beklAmpAnalysis_impl.cc:102-139 | a frame is taken exactly where all of one is in place; a byte is skipped only without its head, and the scan waits only for less than a header or a frame |
| FrameScanner.FirstIsStable | gr-beklBlk/lib/beklAmpAnalysis_impl.cc:107-123 | what is decided is not changed by bytes that come later |
| FrameScanner.ScanInTwo | gr-beklBlk/lib/beklAmpAnalysis_impl.cc:89-146 | scanning, then scanning the rest with later bytes, is scanning it all at once |
| FrameScanner.ChunkingDoesNotMatter | gr-beklBlk/lib/beklAmpAnalysis_impl.cc:89-146 | for every split of the bytes the same frames and skips come out and the same bytes are left |
| FrameScanner.ShortChunkFits | gr-beklBlk/lib/beklAmpAnalysis_impl.cc:72-77 | a chunk a long frame shorter than the ring fits behind whatever earlier scans left |
| FrameScanner.AmpAnalysis.Work | gr-beklBlk/lib/beklAmpAnalysis_impl.cc:63-88 | stores what fits and passes all input on unchanged |
| FrameScanner.AmpAnalysis.DealUdpMsg | gr-beklBlk/lib/beklAmpAnalysis_impl.cc:89-146 | ends; the ring holds what the scan leaves and exactly the scan's frames are accepted |
| FrameScanner.AmpAnalysis.Feed | gr-beklBlk/lib/beklAmpAnalysis_impl.cc:72-77 | chunks that each fit behind what the scans before them left, put and scanned one after the other, give what one scan of all bytes gives |
| CircularFile.ChunkIsHeld | gnuradio-runtime/lib/circular_file.cc:161-171 | a chunk copied over the current cells keeps the cells equal to the last bytes |
| CircularFile.CellsAreLast | gnuradio-runtime/lib/circular_file.cc:186-189 | the cells from the read offset on are the next of the last bytes |
| CircularFile.CircularFile.Write | gnuradio-runtime/lib/circular_file.cc:155-175 | writes of any length, also longer than the file, append to what was written, and what is kept depends only on what was kept and what is written |
| CircularFile.CircularFile.Read | gnuradio-runtime/lib/circular_file.cc:177-196 | hands out the next of the last bytes, as many as asked for and left |
| CircularFile.CircularFile.ResetReadPointer | gnuradio-runtime/lib/circular_file.cc:198-198 | whatever reads follow join up to a prefix of the last bytes, from the oldest on |
| CircularFile.ReadsJoinUp | gnuradio-runtime/lib/circular_file.cc:177-198 | reads of any sizes after a reset join up to a prefix of the last bytes |
| CircularFile.NothingLeftAfterAll | gnuradio-runtime/lib/circular_file.cc:184-195 | once all bytes were asked for all were handed out, and then none |
| CircularFile.LastOfLonger | gnuradio-runtime/lib/circular_file.cc:155-175 | the last bytes after a write are those of the bytes kept so far followed by the new ones |
| Interleave.UnweaveWeave | gr-blocks/lib/deinterleave_impl.cc:62-94 | taking apart a woven stream gives back each stream |
| Interleave.WovenItem | gr-blocks/lib/interleave_impl.cc:75-93 | item j of block o of round r of the output is item j of block r of input o |
| Interleave.UnwovenItem | gr-blocks/lib/deinterleave_impl.cc:62-94 | item j of block r of output o is item j of block o of round r of the input |
| Interleave.WeaveInTwo | gr-blocks/lib/interleave_impl.cc:75-93 | one call is the same as two calls over its rounds |
| Interleave.UnweaveInTwo | gr-blocks/lib/deinterleave_impl.cc:62-94 | one call is the same as two calls over its rounds |
| Interleave.RoundTrip | gr-blocks/lib/interleave_impl.cc:75-93 | for any stream count, block size and call splits, deinterleaving gives back the originals |
| Interleave.InterleaveBlock.CheckTopology | gr-blocks/lib/interleave_impl.cc:49-55 | the multiples the block is asked for from then on are exactly the whole numbers of rounds, one block from every input |
| Interleave.InterleaveBlock.Forecast | gr-blocks/lib/interleave_impl.cc:68-73 | every input is asked for its share |
| Interleave.InterleaveBlock.ConversionsUndo | gr-blocks/lib/interleave_impl.cc:58-66 | on whole rounds the conversions undo each other and give whole blocks |
| Interleave.InterleaveBlock.GeneralWork | gr-blocks/lib/interleave_impl.cc:75-93 | weaves whole rounds in place; items consumed in all equal items produced |
| Interleave.DeinterleaveBlock.GeneralWork | gr-blocks/lib/deinterleave_impl.cc:62-94 | takes whole rounds apart in place; the current output returns to 0, and items consumed equal items produced in all |

## Left out

- Machine integer widths: item counts, ports and byte counts are unbounded integers, except tag offsets, which wrap at 64 bits in lookups and pruning.
- TagRuns.TagsAreDeliveredExactlyOnce: speaks of offsets, counts and margins that do not wrap, and of windows in which the lookup is plain; the readers have joined before the run begins.
- TagPropagation.PropagateTags: the floating-point scaling used while the rate is updated automatically is modelled in real arithmetic, without the rounding of doubles; so is the test whether the rate is one.
- The rate update after work (gnuradio-runtime/lib/block_executor.cc:582-592): a rate is a parameter of each iteration.
- BlockExecutor.Executor.RunOneIteration: the sink's request from items times rate is computed with an exact rational rate, minimum output items are not negative, and tag propagation is modelled apart in TagPropagation.
- ThreadScheduler.RunKeepsInv: message handlers only wake a thread; message queues, blocks without stream ports, a block that calls itself finished, exceptions thrown by work, and interruption of threads are not steps of the model.
- Progress.NeverHangs: covers acyclic graphs whose blocks have at most one stream input; the argument that a full output feeds its reader does not extend to a block that also waits for another input.
- Shutdown.NeverHangsWhileEnding: covers the same graphs; a thread that proceeds is not followed further, so it is not shown that every thread ends in time.
- Liveness.ReadyBlockWorks: counts the steps of the thread itself, so it says nothing of a thread that is never scheduled, and it ends where something is marked done.
- StreamBuffer.Buffer.AddReader: a preload of more than the whole buffer, on which the index subtraction asserts, is excluded; readers never leave; the mapping of pages and the allocation failure path are not modelled.
- BufferSizing.RequestItems: a reader's need uses an exact rational rate in place of the floating-point decimation.
- Wiring.FlatFlowgraph.SetupConnections: message subscriptions, preload, delays and the per-block buffer settings are not part of the wiring.
- Hierarchy.Flatten: propagation of buffer minimum and maximum settings into hierarchical blocks is not modelled; children are visited in an arbitrary order where the code sorts them by address.
- Hierarchy.FlattenAux: the tree is finite; a block that contains itself is not representable, and the code would not return on one. Blocks are told apart by their value, number included.
- MessageEdges.MessageGraph.FlattenMessages: one hierarchical block at a time; MessagePaths adds the final clearing, and MessageTree the other blocks. The result is stated as a set of edges. An inner edge from a port to itself is excluded, as the code would not return on one that matches.
- Connecting and disconnecting inside a hierarchical block (gnuradio-runtime/lib/hier_block2_detail.cc:96-161 and :377-461) are list updates with the same checks as the flowgraph's; they would only add easy members.
- The setters and counters of a block's detail (gnuradio-runtime/lib/block_detail.cc:94-140) appear as steps of ThreadScheduler and not as a class of their own.
- FrameScanner.AmpAnalysis.Work: the sleep of a second and the printed lines are left out.
- CircularFile.CircularFile.Write: the file, its header and its mapping are left out; the cells are an array.
- ByteRing.ByteRing.BufGet: negative byte counts are excluded, as the copy loop would not end on them.
- MessageTree.FlattenTree: covers trees in which no inner edge leads from an input port back to a port that inner edges start from, or likewise for outputs; the blocks are given as a list, in the order of the recursion.
- Restarting a running graph with a changed one, and buffer alignment on restart: they depend on raw addresses.
- Performance counters, thread priority and affinity, logging, signal recovery, user interface and device blocks.
