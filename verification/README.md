# A verified model of the distributed softmax service

The service cuts a vector into slices, sends them to workers, and recombines what the workers leave
in a shared store into the softmax of the whole vector. A gateway learns of finished slices by
re-reading the store; notifications only wake it up. This project models the gateway, the workers,
their CUDA kernels and the store, and proves that what comes out is the softmax of what went in.

All values are reals. The exponential is any function `e` with `IsExp(e)`: it turns sums into
products, is positive and strictly increasing (`Exponential.dfy`). The laws are shown to be
consistent by the powers of two on the integers. Rounding is treated separately, as one relative
error per transmitted value (`Rounding.dfy`).

## How the model is put together

| file | models |
|---|---|
| `Exponential.dfy`, `RealArithmetic.dfy`, `Vectors.dfy` | the laws of the exponential, facts about products and quotients, sums, maxima and concatenations |
| `Aggregation.dfy` | softmax, the worker's partial statistics, the gateway's recombination, the AllReduce variant |
| `Rounding.dfy` | one rounding per exponential |
| `Slicing.dfy` | even chunks and ceil-sized chunks |
| `Wire.dfy`, `Keys.dfy`, `Messages.dfy` | the binary slice format, key and channel names, messages |
| `Kernels.dfy`, `GpuWorker.dfy` | the worker's kernels with threads in any interleaving, launches, and the host code |
| `GpuAggregator.dfy` | the gateway's flattening and normalisation kernel |
| `System.dfy` | submissions, queue, workers and store as a state machine, and its invariants |
| `SliceNotifier.dfy`, `World.dfy`, `Collector.dfy`, `Gateway.dfy`, `Progress.dfy` | the gateway's code, run step by step while everything else in the system moves |
| `NcclDispatch.dfy` | rank-pinned queues and the lock step of the collectives |
| `Leftovers.dfy` | submitting under an id that was used before |
| `RankMode.dfy` | the system as a whole together with the ranks and their collectives |
| `Rendezvous.dfy` | the start-up rendezvous of the ranks |
| `WorkerPool.dfy` | receiver, dispatcher, permits and spawned work of one worker process |
| `Paths.dfy` | all ways through the system side by side, and jobs whose slices come in different modes |

The gateway's methods run inside a `World`. At every await the world performs an arbitrary finite
list of events chosen by the function `events`: steps of other submissions, of workers, of expiry,
deliveries of notifications (possibly repeated or late, never forced to happen), and registrations
of the same job by other waits. Time, counted in nanoseconds, advances at every await by at least one
and otherwise arbitrarily (`delay`), and the store operation behind the await may fail (`fault`). What
is proved of a method therefore holds for every interleaving. The world records the run it is in
(`states`, `steps`), which is a run of the state machine of `System.dfy`, the time and the notifier's
registrations after each await (`moments`), and which stretch of the run each sweep over the slices took
and which slices it read (`sweeps`). The steps that the process itself took are kept apart (`acts`).

A method's claim about correctness is made for runs that are `Respectful`: nobody outside the system
writes keys, the slices of a job are computed in that job's mode, and whatever is left under an id when
it is submitted belongs to the new submission just as well (`Clear`). The last is a matter of slices and
messages left over, because slice keys never expire and the code does not check that an id is new. An
id that no active submission and nothing left over carries is clear, and so is doing the same work again
under an id that was used for nothing else.
`Leftovers.SafeExactlyIfLeftoversBelong` shows what a submission needs for itself: without it, some run stores a
wrong result. `Clear` asks in addition that the new slices do no harm to submissions still active under
the id. `System.ReusedJobIdGoesWrong` shows a run without it, and `Paths.SoftmaxExactlyInOneMode` shows
that mixed modes go wrong. In rank mode nothing is assumed of the workers: `RankMode.dfy` takes the steps
of the system together with those of the ranks, and shows that from a store without leftovers, with
publish loops that do not overlap and ids used for one vector each, all runs are respectful, whenever
other submissions write their metadata.

## Where code and comments differ

The model follows the code.

- The notifier's documentation says a job is registered before its slices are dispatched. The code
  registers after all publishes (`gateway-rs/src/service.rs:137-166`, `gateway-rs/src/aggregator.rs:116`).
  Correctness does not depend on it: what a wait returns depends on the store alone.
- The worker's comment that per-rank sockets guarantee the same job order on all ranks is guaranteed
  when publish loops do not overlap and no publish fails; nothing in the gateway enforces the former.
  Exactly when ranks can come to mix jobs is `NcclDispatch.RanksMixExactlyIfLogsDiffer`.
- A second registration of a job drops the first one's sender, and the first one's unregistration
  then removes the second's. A wait without a sender is woken at once again and again; it still ends
  by its deadline, but the bound by notifications and poll intervals is claimed only for waits whose
  job no other wait touches.
- The rendezvous does not clear keys left over from an earlier launch; `Rendezvous.UidIsSafeExactly` and
  `Rendezvous.BarrierIsSafeExactly` say which ones do harm.
- The protocol file lists four status strings; the code also answers `not_found`.

## Model

| member | source | states |
|---|---|---|
| Exponential.LawsAreConsistent | gateway-rs/src/aggregator.rs:259-262 | The laws assumed of `exp` are met by a concrete function on the integers. |
| Aggregation.ShiftAndPartitionIndependence | gateway-rs/src/aggregator.rs:250-274 | For every partition, every shift of each slice and every global shift, recombination is the softmax of the whole vector. |
| Aggregation.AggregateIsSoftmax | gateway-rs/src/aggregator.rs:74-93 | The gateway's CPU path returns the softmax of the whole vector for statistics taken at any shifts. |
| Aggregation.AllReduceIsSoftmax | worker-rs/src/gpu_worker.rs:230-311 | AllReduce, normalisation on each rank and concatenation return the softmax, for any common maximum. |
| Aggregation.SumsAreBounded | worker-rs/src/softmax.rs:23-30 | Each partial sum lies between 1 and the slice length and the global sum between 1 and the vector length, so nothing is divided by zero. |
| Aggregation.SoftmaxIsDistribution | gateway-rs/src/aggregator.rs:264-274 | The outputs lie in (0,1], sum to 1, and are ordered exactly as the inputs. |
| Aggregation.SameSoftmaxExactlyIfMoved | worker-rs/src/softmax.rs:14-37 | Two vectors have the same softmax if and only if one is the other moved by a constant. |
| Aggregation.MaximumOfMaxima | gateway-rs/src/aggregator.rs:254-257 | The maximum of the local maxima is the maximum of the vector. |
| Aggregation.MixedModesAreWrong | gateway-rs/src/aggregator.rs:78-80 | A normalised first slice and a partial one among the rest never give the softmax. |
| Paths.AllPathsAgree | worker-rs/src/main.rs:234-254 | CPU and GPU workers in any mix, the fallback without CUDA, and AllReduce agree for any two partitions of a vector. |
| Paths.SoftmaxExactlyWhen | gateway-rs/src/aggregator.rs:77-93 | For partial statistics at any shifts and ranks' shares in any mix: the answer is the softmax if and only if all come in one mode, or the first is a share and every partial one is taken at a shift whose exponential is the total. |
| Paths.SoftmaxExactlyInOneMode | gateway-rs/src/aggregator.rs:77-93 | For slices from CPU workers, GPU workers at the slice's maximum, and ranks: the answer is the softmax if and only if all slices of the job come in the same mode. |
| Rounding.OutputsSumToOne | gateway-rs/src/aggregator.rs:264-274 | If partial sums add the values actually sent, the outputs sum to exactly 1 whatever the rounding. |
| Rounding.RoundingBound | worker-rs/src/softmax.rs:25-30 | With relative error u per value, each output is within p*2u/(1-u) of the true p, for all partitions and shifts, and the outputs sum to 1. |
| Slicing.EvenChunks | gateway-rs/src/service.rs:65-77 | Exactly n contiguous chunks that concatenate to the vector, longer ones first, lengths differing by at most one, none empty if the vector is long enough. |
| Slicing.ChunksPartition | gateway-rs/src/service.rs:113-116 | Ceil-sized chunks concatenate to the vector, are non-empty, and all but the last are full. |
| Slicing.AtMostNumSlices | gateway-rs/src/service.rs:114-115 | There is at least one slice and there are at most NUM_SLICES. |
| Slicing.SliceVector | gateway-rs/src/service.rs:103-117 | With `ncclDispatch`, exactly `worldSize` slices, the first `len % worldSize` of them one longer than the rest, or the too-short error exactly when a rank would get nothing; otherwise at most `numSlices` slices, all but the last of the rounded-up length. Either way they concatenate to the vector. |
| Wire.EncodePartial | worker-rs/src/handler.rs:31-42 | The encoder's loop builds the frame. |
| Wire.EncodeNormalized | worker-rs/src/handler.rs:45-54 | The encoder's loop builds the frame. |
| Wire.ReadSlice | gateway-rs/src/aggregator.rs:158-217 | The reader's branches and loops compute the decoding, including every not-ready case. |
| Wire.DecodeEncode | gateway-rs/src/aggregator.rs:168-217 | A frame decodes to itself exactly when its length fits the 32-bit count; otherwise to nothing. |
| Wire.EncodeDecode | gateway-rs/src/aggregator.rs:168-217 | Whatever decodes is the encoding of what it decodes to. |
| Wire.FramingIsSelfDelimiting | gateway-rs/src/aggregator.rs:172-204 | Every strict prefix and every extension of a frame decodes to nothing. |
| Wire.EncodingIsInjective | worker-rs/src/handler.rs:10-18 | Different frames have different bytes; the two formats never collide. |
| Wire.PartialLayout | worker-rs/src/handler.rs:31-42 | Byte by byte: 1, the two 64-bit numbers, the 32-bit count and the 32-bit values, each least significant byte first. |
| Wire.NormalizedLayout | worker-rs/src/handler.rs:45-54 | Byte by byte: 2, the 32-bit count and the 32-bit values. |
| Wire.NotAFrame | gateway-rs/src/aggregator.rs:158-217 | Anything that is not empty and starts with neither 1 nor 2 goes to the JSON parser, and nothing else does. |
| Keys.ParseUsizeOfDecimal | gateway-rs/src/publisher/zmq.rs:165-167 | Parsing a printed rank gives the rank, exactly if it fits 64 bits. |
| Keys.UsizeParses | gateway-rs/src/publisher/zmq.rs:165-167 | A string parses exactly if it is digits, after at most one plus sign, and their value fits 64 bits. |
| Keys.SliceKeyIsInjective | gateway-rs/src/config.rs:43-45 | A slice key determines job id and index, for all ids, with colons or without. |
| Keys.ResultKeyMeetsSliceKey | gateway-rs/src/config.rs:39-45 | A result key is a slice key exactly when one id is the other plus a colon and the index. |
| Keys.KeysAreDisjoint | gateway-rs/src/config.rs:39-53 | If result ids are free of colons, a key determines its family, job and index. |
| Keys.ColonIsNeeded | gateway-rs/src/config.rs:39-45 | The result key of `a:0` is the key of slice 0 of `a`. |
| Keys.ChannelRoundTrip | gateway-rs/src/slice_notifier.rs:87-89 | The subscriber recovers a job exactly from that job's channel name. |
| Keys.Names | gateway-rs/src/config.rs:39-53 | The five kinds of names, character by character. |
| Kernels.RunStride | worker-rs/kernels/partial_softmax.cu:60-64 | Every interleaving of the threads' single loads and stores between two barriers leaves the same shared memory. |
| Kernels.StrideKeepsFold | worker-rs/kernels/partial_softmax.cu:29-33 | A stride halves the range to reduce and keeps its reduction. |
| Kernels.BlockReduce | worker-rs/kernels/partial_softmax.cu:29-36 | After all strides cell 0 holds the sum or maximum of the 256 loaded values. |
| Kernels.BlockMaxKernel | worker-rs/kernels/partial_softmax.cu:16-37 | One block writes the maximum of its padded data into its own cell and nothing else. |
| Kernels.ExpAndBlockSumKernel | worker-rs/kernels/partial_softmax.cu:40-68 | One block writes the exponentials of its own elements and their sum, and nothing else. |
| GpuWorker.BlockMaximaFold | worker-rs/src/gpu_worker.rs:96-98 | Folding the block maxima gives the worker's shift. |
| GpuWorker.GpuMaxIsMaximum | worker-rs/kernels/partial_softmax.cu:26 | That shift is the true maximum exactly when there is no padding or some element is at least the padding value. |
| GpuWorker.BlockSumsFold | worker-rs/src/gpu_worker.rs:119-121 | Folding the block sums gives the sum over the whole slice. |
| GpuWorker.ExactlyOneThread | gateway-rs/kernels/aggregate_softmax.cu:26-29 | Every element belongs to exactly one thread of the grid. |
| GpuWorker.LaunchNormalize | worker-rs/kernels/partial_softmax.cu:73-82 | Whatever the thread order, every output ends up as its input divided by the sum. |
| GpuWorker.PartialSoftmax | worker-rs/src/gpu_worker.rs:66-128 | For every order of blocks and threads, the statistics are those of the slice at the shift returned; that is the slice's maximum exactly if the length is a multiple of 256 or some element is at least -1e38, and -1e38 otherwise. |
| GpuWorker.AllReduceSoftmax | worker-rs/src/gpu_worker.rs:230-311 | What a rank contributes to the collectives, its padded maximum and its sum at the common maximum, and what it returns, for every order of blocks and threads. |
| GpuWorker.SomeLaunch | worker-rs/src/gpu_worker.rs:66-128 | Every slice has a launch that runs each block and each thread, so the statements about all launches are not empty. |
| GpuAggregator.FlattenSlices | gateway-rs/src/gpu_aggregator.rs:102-112 | The flat vector is the concatenation, and `sliceIds[k]` is i exactly when k lies in slice i's range. |
| GpuAggregator.LaunchAggregateNormalize | gateway-rs/kernels/aggregate_softmax.cu:18-30 | Whatever the thread order, every output cell gets its value. |
| GpuAggregator.NormalizeAllAt | gateway-rs/src/aggregator.rs:270-274 | Where each value of the nested form stands in the flat one. |
| GpuAggregator.AggregateGpu | gateway-rs/src/gpu_aggregator.rs:74-140 | The GPU path returns exactly what the CPU path returns, for any statistics and any thread order. |
| System.InvStep | worker-rs/src/handler.rs:63-130 | Every step of anybody keeps every message, readable slice, value read and stored outcome in line with the vector submitted, in plain mode and in rank mode, also when an id is used again. |
| System.WorkerDescribes | worker-rs/src/gpu_worker.rs:230-311 | What a CPU worker, a GPU worker or a rank sends back describes its slice, at some shift or as its share of the softmax. |
| System.Compute | worker-rs/src/handler.rs:90-108 | What each kind of worker computes for a slice, in whatever order its threads run: the CPU's shift is an element no other exceeds, the GPU's is the padded maximum. |
| System.AnnouncedAfterWritten | worker-rs/src/handler.rs:110-130 | In every run a job is announced only after some worker has written one of its slices. |
| System.EveryStoredResultIsSoftmax | gateway-rs/src/aggregator.rs:74-97 | In every respectful run, whatever was in the store before and whatever the modes of the jobs, every result ever stored is the softmax of the vector submitted. |
| System.ReusedJobIdGoesWrong | worker-rs/src/handler.rs:121-123 | Since slice keys do not expire, reusing an id stores a wrong result. |
| Leftovers.ClearIsSafe | gateway-rs/src/service.rs:122-166 | After a submission under an id where whatever is left belongs to it, however the run goes on, it stores nothing but the softmax. |
| Leftovers.CanComplete | gateway-rs/src/service.rs:122-172 | From any state, some run makes the submission, keeps to the rules after it, and stores its softmax. |
| Leftovers.RetryIsClear | gateway-rs/src/service.rs:162-172 | Submitting the same work again is clear under an id used for nothing else, whether the earlier submissions are under way, timed out or done. |
| Leftovers.UnusedIdIsClear | gateway-rs/src/service.rs:122-135 | An id that no active submission, no message and no slice key carries is clear, whatever was submitted under it before. |
| Leftovers.PartialWithOneForeign | gateway-rs/src/aggregator.rs:245-275 | Among two or more slices in plain mode, one slice from elsewhere gives the softmax if and only if it describes the job's slice. |
| Leftovers.SharesWithOneForeign | gateway-rs/src/aggregator.rs:77-86 | Among ranks' shares, one slice from elsewhere gives the softmax if and only if it is the share. |
| Leftovers.WrongLengthIsUnsafe | worker-rs/src/handler.rs:121-123 | A readable slice of the wrong length under the id makes some run store a wrong result, for any slicing and in either mode. |
| Leftovers.SafeExactlyIfLeftoversBelong | worker-rs/src/handler.rs:121-123 | From any state, every continuation stores the softmax if and only if all slices and messages left over under the id, and those other active submissions have yet to publish, belong to the new submission as well. |
| System.KeptRun | worker-rs/src/handler.rs:121-123 | Over a run submissions keep their identity and outcome, and without expiry no key goes away. |
| System.TrackedRun | gateway-rs/src/redis_manager.rs:78-99 | Metadata under an id is that of a submission under it, and a result under a colon-free id is what one of them stored. |
| System.InfoKnownRun | gateway-rs/src/service.rs:122-135 | Where keys do not expire, whoever has submitted under an id has made it known. |
| SliceNotifier.SliceNotifier.RegisterJob | gateway-rs/src/slice_notifier.rs:58-63 | A registration opens a fresh channel, drops the job's previous sender and no other. |
| SliceNotifier.SliceNotifier.UnregisterJob | gateway-rs/src/slice_notifier.rs:65-67 | Unregistering drops the job's current sender, whoever registered it. |
| SliceNotifier.SliceNotifier.OnMessage | gateway-rs/src/slice_notifier.rs:86-92 | A message counts up exactly the channel of the job it names, if registered. |
| World.World.Changed | gateway-rs/src/aggregator.rs:140-141 | The wait goes on exactly as long as there is no unseen change, the sender is there and the time is not up; it ends at the first await after which one of these is so. |
| Collector.Sweep | gateway-rs/src/aggregator.rs:120-129 | One pass: the slices not yet held are read in order, each once; what was held stays, what is newly held could be read during the pass, and each slice still not held could not be read at some moment of it, or its own read failed. |
| Collector.WaitForAllSlices | gateway-rs/src/aggregator.rs:101-156 | It sweeps at once, and again exactly when a notification not yet seen has come, its sender is gone, 100 ms have passed or the deadline is reached, registered throughout unless another wait touches the job. Slices returned were held during the wait. A timeout means that the last sweep ended with the call and after the deadline, and that one and the same slice was missed by every sweep: not readable at some moment of it, or its one read in it failed. The first sweep reads all slices, and each later one only such as no sweep so far could read, and at least one. So if no read of the last sweep fails and all slices can be read throughout it, they are returned. It makes at most W + ceil(T/100 ms) + 1 sweeps if no other wait touches the job. |
| Gateway.AggregateStats | gateway-rs/src/aggregator.rs:74-93 | The result does not depend on whether the gateway has a GPU. |
| Gateway.StoredIsSoftmax | gateway-rs/src/redis_manager.rs:92-99 | What a submission has stored at the end of a respectful run is its softmax. |
| Gateway.PublishSlices | gateway-rs/src/service.rs:136-160 | All slices go to the end of the queue one after the other, in order, each once with its index and data; the loop stops at the first publish that fails. |
| Gateway.StoreFinalResult | gateway-rs/src/aggregator.rs:77-97 | What was collected is aggregated and stored, and after it the progress; it is an error exactly if the last await failed, and the result is stored all the same exactly if that was the second; an OK carries what stood under the result key, and it is the softmax. |
| Gateway.SubmitTask | gateway-rs/src/service.rs:82-183 | The argument errors exactly; an OK carries what the call's own submission stored under the result key, before its progress, and it is the softmax of the vector, for every interleaving and either transport. It fails otherwise only if its last await failed, in storing or publishing, or after the slice timeout, counted from the last publish, with one slice missed by every sweep. When it returns, its submission is cut as the configuration says, was made known with that number of slices, has sent what it published in order, and has ended; and the call has done nothing but for that submission. |
| Progress.CountCompleted | gateway-rs/src/redis_manager.rs:117-125 | The non-atomic count lies between the slices present at its start and at its end, leaving out exactly those whose store operation failed. |
| Progress.PresentIsCount | gateway-rs/src/redis_manager.rs:117-125 | The recursive count is the number of indices whose slice key exists. |
| Progress.AllAnswer | gateway-rs/src/redis_manager.rs:60-62 | The count is that of all slices present exactly if no operation fails for one that is. |
| Progress.GetResult | gateway-rs/src/service.rs:186-277 | Every answer is justified by states of the store during the call, also when store operations fail: without metadata there is an error, without the result there is progress; pending means a count of zero; and the call changes nothing. |
| Progress.ReadyMeansCollected | gateway-rs/src/service.rs:210-241 | A ready answer carries the softmax of the vector, and all slices had been collected. |
| Progress.FoundOnceSubmitted | gateway-rs/src/service.rs:122-206 | In an orderly run, once a job has been submitted every answer finds it, with the number of its slices. |
| Progress.ReadyOnceStored | gateway-rs/src/service.rs:208-241 | And once a result has been stored every answer is ready, with the softmax of the vector. |
| Progress.ProgressIsMonotone | gateway-rs/src/service.rs:243-277 | Successive calls report no lower status and no fewer completed slices, and never an error. |
| Progress.PollTwice | gateway-rs/src/service.rs:186-277 | The same of two actual calls with anything happening in between. |
| NcclDispatch.ZmqMultiPublisher.Publish | gateway-rs/src/publisher/zmq.rs:164-175 | The message goes to the queue its subject names and to no other; the three errors exactly. |
| NcclDispatch.ZmqMultiPublisher.PublishJob | gateway-rs/src/service.rs:137-160 | One publish loop adds to every rank's queue exactly that rank's slice, up to the first closed channel. |
| NcclDispatch.WaitingRanksMatch | worker-rs/src/main.rs:195-226 | In every run, ranks waiting in a collective are in the same one, with the same message number. |
| NcclDispatch.WriteFollowsTwoCollectives | worker-rs/src/gpu_worker.rs:230-311 | In every run, between a rank's pull and its write all ranks went through two collectives together, each with the same data; what the rank writes with is the largest of their local maxima and their sum at it. |
| NcclDispatch.LargestMaxIs | worker-rs/src/gpu_worker.rs:249-270 | The result of the first collective bounds the ranks' local maxima and is one of them, and these are the padded maxima of their slices. |
| NcclDispatch.RanksMixExactlyIfLogsDiffer | worker-rs/src/main.rs:195-226 | From any state of any run, the ranks can come to wait with different jobs if and only if, under some message number still ahead, two ranks have been sent messages of different jobs and all ranks have been sent everything before it. |
| NcclDispatch.SerialisedLoopsKeepJobsApart | gateway-rs/src/service.rs:137-160 | With serialised publish loops, waiting ranks work on the same job and each on its own slice. |
| NcclDispatch.SerialisedLoopsNeverMix | gateway-rs/src/service.rs:137-160 | After serialised publish loops no continuation mixes jobs. |
| NcclDispatch.OverlapCanBeHarmless | gateway-rs/src/service.rs:137-160 | Overlapping loops that reach all ranks in the same order do no harm. |
| NcclDispatch.SumsBelongToTheJob | worker-rs/src/gpu_worker.rs:230-311 | With serialised loops, a rank about to write works on its own slice of a job, and the collective's sum is that job's. |
| NcclDispatch.RanksWriteInMode | worker-rs/src/main.rs:211-216 | So what a rank writes is written in the mode of the submissions whose work stands under its id, as `System.dfy` requires of workers. |
| RankMode.WrittenIsReadable | worker-rs/src/main.rs:211-216 | What a rank writes after its collectives is what can then be read for the slice. |
| RankMode.RankRunIsRespectful | worker-rs/src/main.rs:195-226 | Every run of the system together with its ranks, from a store without leftovers, with publish loops that do not overlap and ids used for one vector each, is respectful: nothing is assumed of what is written, nor of when metadata are written. |
| RankMode.MetadataMayComeBetween | gateway-rs/src/service.rs:131-160 | Such a run may have one submission's metadata written during another's publish loop. |
| RankMode.RankModeStoresOnlySoftmax | worker-rs/src/gpu_worker.rs:230-311 | In every such run every result ever stored is the softmax of the vector submitted. |
| RankMode.ARankRunStores | worker-rs/src/main.rs:195-226 | There are such runs in which a result is stored. |
| Gateway.WellUsedInRankMode | gateway-rs/src/service.rs:137-160 | So what SubmitTask promises of a well-used system holds in rank mode. |
| NcclDispatch.NcclResultIsSoftmax | worker-rs/src/main.rs:195-226 | With serialised loops, what all ranks write for a job concatenates to its softmax. |
| NcclDispatch.OverlappingLoopsMixJobs | gateway-rs/src/service.rs:137-160 | Two overlapping loops put two ranks into one collective with different jobs. |
| NcclDispatch.FailedPublishMixesJobs | gateway-rs/src/service.rs:153-159 | So does a publish that fails half way, even without overlap. |
| Rendezvous.RendezvousIsSafe | worker-rs/src/gpu_worker.rs:136-204 | From a clean store, with keys expiring at any time: a rank that gets through holds rank 0's id, and every rank had held it and set its flag. |
| Rendezvous.AllRanksAgree | worker-rs/src/gpu_worker.rs:136-204 | Ranks that get through, at whatever moments, hold the same id. |
| Rendezvous.GivesUpExactlyWhen | worker-rs/src/gpu_worker.rs:144-196 | In every run, from whatever store: a rank has given up if and only if a store operation of it failed, or it asked 200 times without finding an id, or each of its 200 sweeps missed a flag at the moment it read it, or a sweep found all flags and the id was not of 128 bytes. It is through if and only if one of its first 200 sweeps found all flags, none before did, and the id was of 128 bytes. |
| Rendezvous.GetsThroughExactlyIf | worker-rs/src/gpu_worker.rs:173-197 | From any reachable state in which a rank holds an id and all flags are set, it can still get through if and only if the id is of 128 bytes and it has made fewer than 199 sweeps or missed no flag in its last. |
| Rendezvous.EveryoneCanGetThrough | worker-rs/src/gpu_worker.rs:136-204 | From any store there is a run in which all ranks get through with the id rank 0 generated. |
| Rendezvous.UidIsSafeExactly | worker-rs/src/gpu_worker.rs:144-196 | In all runs from given keys whoever gets through holds rank 0's id, if and only if there is one rank or no id of the right length is left over. |
| Rendezvous.BarrierIsSafeExactly | worker-rs/src/gpu_worker.rs:173-195 | In all runs from given keys nobody gets through before all ranks have set their flags, if and only if there is one rank or no rank's flag is left over. |
| Rendezvous.StaleKeysBreakTheRendezvous | worker-rs/src/gpu_worker.rs:156-183 | With keys from an earlier launch a rank gets through with the old id. |
| WorkerPool.WorkerConservation | worker-rs/src/transport/zmq.rs:46-82 | Permits are conserved, at most NUM_WORKERS slices are in flight, every frame is in exactly one place, and frames start in order of arrival. |
| WorkerPool.FramesAreReceived | worker-rs/src/transport/zmq.rs:46-82 | The frames are what was received, all of it, unchanged and in order. |
| WorkerPool.WaitingMeansBusy | worker-rs/src/transport/zmq.rs:70-74 | A frame waits for a permit only while all permits are in use. |
| WorkerPool.IdleExactly | worker-rs/src/transport/zmq.rs:46-82 | Each step does nothing exactly when it is not its turn. |
| WorkerPool.AllWorkCanBeDone | worker-rs/src/transport/zmq.rs:46-82 | From any reachable state with at least one permit, a continuation finishes every frame received. |

## Left out

- Floating point beyond one rounding per exponential: NaN, infinities, underflow, and the rounding of GPU sums. Division by zero yields 0 in the model; for slices that are not empty it does not occur.
- The bytes of floating-point fields carry bit patterns in `Wire.dfy`, and the store of `System.dfy` holds decoded statistics, because no 32-bit encoding of all reals exists; the two meet in `DecodeEncode`.
- The JSON fallback of the slice reader: a value that is neither binary format is handed on undecoded in `Wire.dfy` and is unreadable in `System.dfy`, where no member of the system writes such slices.
- Integer widths of kernel indices and block counts (32 bits), and of slice counts in responses.
- Wake-ups that lose their effect because a request is cancelled, which skips the unregistration.
- A failed store operation is taken to have had no effect.
- Capacities of the publisher's channels and sockets: a full channel blocks, which the model shows as a delay; messages may also be lost.
- GpuWorker.PartialSoftmax: blocks run one after the other in any order; their memory is disjoint, so their interleaving is not modelled. Threads of a block are interleaved access by access.
- Leftovers.SafeExactlyIfLeftoversBelong: in rank mode slices left over are taken to have a positive sum, which is all that workers write; and a message left over is taken to be computed with its new submission's sum, since runs are respectful otherwise.
- System.Clear: that its second half, no harm to other submissions still active under the id, is also necessary is not claimed, because whether such a submission can still complete depends on what became of its messages.
- RankMode: no message is lost and no rank dies, since either breaks the lock step; which queued message the system's own pull takes is left open.
- Progress.GetResult: whether the bytes of a slice that stands under a result key are valid UTF-8 is a parameter, since the store holds decoded statistics.
- NcclDispatch: a collective is one step of all ranks; decoding errors and unknown job kinds, which make a rank skip a message, do not occur for messages the gateway sends.
- Rendezvous, WorkerPool and the ranks of NcclDispatch are state machines over values rather than classes: the point is the interleaving of several processes, not one object's updates.
- The periodic statistics of the cache manager, environment parsing, sockets, transport set-up, expiry times beyond "a key may expire", and the legacy C++ gateway.
