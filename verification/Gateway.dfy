/** SubmitTask: slicing, publishing, collecting, aggregating. */
module Gateway {
  import opened Exponential
  import opened Aggregation
  import opened Slicing
  import opened Keys
  import opened Messages
  import opened GpuWorker
  import opened GpuAggregator
  import opened System
  import opened RankMode
  import NcclDispatch
  import opened World
  import opened Collector

  /** `ranksReduce` says whether the ranks of rank mode are built with CUDA and so normalise their slices themselves. */
  datatype Config = Config(ncclDispatch: bool, ranksReduce: bool, worldSize: nat, numSlices: nat, sliceTimeoutMs: nat,
                           gpu: Option<Grid>)

  /** A grid of threads for any number of elements, and an order in which they run. */
  datatype Grid = Grid(blockDim: nat, order: nat -> seq<Thread>)

  ghost predicate ValidConfig(cfg: Config) {
    && 0 < cfg.worldSize && 0 < cfg.numSlices
    && (cfg.gpu.Some? ==> ValidGrid(cfg.gpu.value))
  }

  ghost predicate ValidGrid(grid: Grid) {
    0 < grid.blockDim && forall n :: CoversThreads(grid.order(n), CeilDiv(n, grid.blockDim), grid.blockDim)
  }

  /** Chooses between concatenation, the GPU and the CPU; the outcome does not depend on the hardware. */
  method AggregateStats(e: real -> real, stats: seq<SliceStats>, gpu: Option<Grid>) returns (values: seq<real>)
    requires gpu.Some? ==> ValidGrid(gpu.value)
    ensures values == Aggregate(e, stats)
  {
    if stats != [] && stats[0].isNormalized {
      return ConcatValues(stats);
    }
    if gpu.Some? {
      var n := |ConcatValues(stats)|;
      ConcatIsFlatten(stats);
      CeilDivBounds(n, gpu.value.blockDim);
      values := AggregateGpu(e, stats, CeilDiv(n, gpu.value.blockDim), gpu.value.blockDim, gpu.value.order(n));
    } else {
      values := AggregateCpu(e, stats);
    }
  }

  datatype SubmitResult = Ok(values: seq<real>) | InvalidArgument | Internal

  /**
   What the call relies on, before and during it: ids are clear when submitted, nobody outside the system writes
   keys, and the slices of a job are computed in that job's mode, with the sum over the whole job where ranks
   reduce it.
   */
  ghost predicate WellUsed(world: World)
    reads world
  {
    && IsExp(world.e) && Inv(world.e, world.init)
    && |world.states| == |world.steps| + 1 && RespectfulRun(world.e, world.states, world.steps)
  }

  /** In rank mode, the system is well used if publish loops are serialised and an id is used for one vector only. */
  lemma WellUsedInRankMode(world: World, worldSize: nat, ranks: seq<NcclDispatch.State>,
                           silent: seq<seq<NcclDispatch.Step>>)
    requires world.Valid() && IsExp(world.e)
    requires IsRankRun(world.e, worldSize, world.states, world.steps, ranks, silent)
    ensures WellUsed(world)
  {
    RankRunIsRespectful(world.e, worldSize, world.states, world.steps, ranks, silent);
  }

  /** Whatever submission `n` has stored at the end of a respectful run. */
  lemma StoredIsSoftmax(e: real -> real, states: seq<State>, steps: seq<Step>, n: nat)
    requires IsRun(e, states, steps) && n < |states[|steps|].calls|
    ensures var c := states[|steps|].calls[n];
            IsExp(e) && Inv(e, states[0]) && RespectfulRun(e, states, steps) && c.outcome.Stored? ==>
              c.outcome.values == Softmax(e, c.vector)
  {
    if IsExp(e) && Inv(e, states[0]) && RespectfulRun(e, states, steps) {
      InvRun(e, states, steps, |steps|);
      assert JobOk(e, states[|steps|], n);
    }
  }

  /** The submission's own record, apart from what is published and seen. */
  ghost predicate IsMine(world: World, n: nat, job: string, vector: seq<real>, slices: seq<seq<real>>)
    reads world
  {
    && n in world.mine && n < |world.state.calls|
    && world.state.calls[n].job == job && world.state.calls[n].vector == vector && world.state.calls[n].slices == slices
    && world.state.calls[n].outcome.Open?
  }

  /**
   At the moments `times`, one after the other, the first slices of the job went to the end of the queue, each
   once, in order, carrying the job's id and its index.
   */
  ghost predicate PublishedAt(states: seq<State>, from: nat, job: string, slices: seq<seq<real>>, times: seq<nat>) {
    && |times| <= |slices|
    && (forall i, j :: 0 <= i < j < |times| ==> times[i] < times[j])
    && (forall i :: 0 <= i < |times| ==> SentAt(states, from, Message(job, i, slices[i]), times[i]))
  }

  ghost predicate SentAt(states: seq<State>, from: nat, m: Message, t: nat) {
    from <= t && t + 1 < |states| && states[t + 1].queue == states[t].queue + [m]
  }

  lemma PublishedLater(states: seq<State>, states': seq<State>, from: nat, job: string, slices: seq<seq<real>>,
                       times: seq<nat>)
    requires PublishedAt(states, from, job, slices, times) && states <= states'
    ensures PublishedAt(states', from, job, slices, times)
  {
    forall i | 0 <= i < |times| ensures SentAt(states', from, Message(job, i, slices[i]), times[i]) {
      assert SentAt(states, from, Message(job, i, slices[i]), times[i]);
    }
  }

  /** What submission `c` has published since the run was `from` steps long, it has sent in order. */
  ghost predicate SentSoFar(states: seq<State>, from: nat, c: Call) {
    exists times: seq<nat> :: |times| == c.published && PublishedAt(states, from, c.job, c.slices, times)
  }

  /** What the call does for submission `n` of the job once that is made. */
  predicate OwnStep(step: Step, n: nat, job: string) {
    match step
    case Publish(call) => call == n
    case Read(call, _) => call == n
    case StoreResult(call, _) => call == n
    case GiveUp(call) => call == n
    case StoreProgress(id) => id == job
    case _ => false
  }

  /** All the process has done meanwhile is of this kind. */
  ghost predicate ActedFor(acts: seq<Step>, acts': seq<Step>, n: nat, job: string) {
    acts <= acts' && forall k :: |acts| <= k < |acts'| ==> OwnStep(acts'[k], n, job)
  }

  lemma ActedForTwice(a: seq<Step>, b: seq<Step>, c: seq<Step>, n: nat, job: string)
    requires ActedFor(a, b, n, job) && ActedFor(b, c, n, job)
    ensures ActedFor(a, c, n, job)
  {
  }

  lemma ReadingIsActing(a: seq<Step>, b: seq<Step>, n: nat, job: string)
    requires ReadFor(a, b, n)
    ensures ActedFor(a, b, n, job)
  {
  }

  /** Meanwhile the process has done nothing, or made one submission under the job's id and acted for that. */
  ghost predicate SubmittedOnce(first: nat, mine: set<nat>, mine': set<nat>, acts: seq<Step>, acts': seq<Step>,
                                job: string) {
    || acts' == acts
    || exists n :: first <= n && mine' == mine + {n} && |acts| < |acts'| && acts'[|acts|].Submit?
                && acts'[|acts|].job == job && ActedFor(acts + [acts'[|acts|]], acts', n, job)
  }

  lemma OneSubmitted(first: nat, mine: set<nat>, mine': set<nat>, acts: seq<Step>, acts': seq<Step>, n: nat,
                     slices: seq<seq<real>>, vector: seq<real>, collective: bool, job: string)
    requires first <= n && mine' == mine + {n}
    requires ActedFor(acts + [Submit(job, vector, slices, collective)], acts', n, job)
    ensures SubmittedOnce(first, mine, mine', acts, acts', job)
  {
    assert acts'[|acts|] == Submit(job, vector, slices, collective);
  }

  predicate SameSubmission(c: Call, c': Call) {
    && c'.job == c.job && c'.vector == c.vector && c'.slices == c.slices && c'.collective == c.collective
    && c'.published == c.published
  }

  lemma SentLater(states: seq<State>, states': seq<State>, from: nat, from': nat, c: Call, c': Call)
    requires SentSoFar(states, from, c) && states <= states' && from' <= from && SameSubmission(c, c')
    ensures SentSoFar(states', from', c')
  {
    var times: seq<nat> :| |times| == c.published && PublishedAt(states, from, c.job, c.slices, times);
    forall i | 0 <= i < |times| ensures SentAt(states', from', Message(c.job, i, c.slices[i]), times[i]) {
      assert SentAt(states, from, Message(c.job, i, c.slices[i]), times[i]);
    }
    assert PublishedAt(states', from', c'.job, c'.slices, times);
  }

  lemma PublishedNext(states: seq<State>, from: nat, job: string, slices: seq<seq<real>>, times: seq<nat>, t: nat)
    requires PublishedAt(states, from, job, slices, times) && |times| < |slices|
    requires t + 2 == |states| && (forall i :: 0 <= i < |times| ==> times[i] < t)
    requires SentAt(states, from, Message(job, |times|, slices[|times|]), t)
    ensures PublishedAt(states, from, job, slices, times + [t])
  {
  }

  /** One turn of the publish loop, unless the transport fails. */
  method PublishNext(world: World, n: nat, job: string, vector: seq<real>, slices: seq<seq<real>>, ghost from: nat,
                     ghost times: seq<nat>)
    returns (ok: bool, ghost times': seq<nat>)
    requires world.Valid() && IsMine(world, n, job, vector, slices)
    requires world.state.calls[n].published == |times| < |slices|
    requires from < |world.states| && PublishedAt(world.states, from, job, slices, times)
    requires forall i :: 0 <= i < |times| ==> times[i] < |world.steps|
    modifies world, world.notifier
    ensures world.Valid() && world.Elapsed() && world.mine == old(world.mine) && world.sweeps == old(world.sweeps)
    ensures IsMine(world, n, job, vector, slices) && world.state.calls[n].published == |times'|
    ensures world.state.calls[n].collective == old(world.state.calls[n].collective)
    ensures PublishedAt(world.states, from, job, slices, times') && times <= times'
    ensures forall i :: 0 <= i < |times'| ==> times'[i] < |world.steps|
    ensures |times'| == |times| + if ok then 1 else 0
    ensures !ok ==> world.fault(world.awaits)
    ensures world.awaits == old(world.awaits) + 1
    ensures world.acts == old(world.acts) + if ok then [Publish(n)] else []
  {
    world.Await();
    PublishedLater(old(world.states), world.states, from, job, slices, times);
    if world.fault(world.awaits) {
      return false, times;
    }
    ghost var states, t := world.states, |world.steps|;
    world.Act(Publish(n));
    PublishedLater(states, world.states, from, job, slices, times);
    assert SentAt(world.states, from, Message(job, |times|, slices[|times|]), t);
    PublishedNext(world.states, from, job, slices, times, t);
    return true, times + [t];
  }

  /** Publishes every slice in order, each to whoever pulls it; stops at the first publish that fails. */
  method PublishSlices(world: World, n: nat, job: string, vector: seq<real>, slices: seq<seq<real>>)
    returns (ok: bool, ghost times: seq<nat>)
    requires world.Valid() && IsMine(world, n, job, vector, slices) && world.state.calls[n].published == 0
    modifies world, world.notifier
    ensures world.Valid() && world.Elapsed() && world.mine == old(world.mine) && world.sweeps == old(world.sweeps)
    ensures IsMine(world, n, job, vector, slices)
    ensures world.state.calls[n].collective == old(world.state.calls[n].collective)
    ensures PublishedAt(world.states, |old(world.steps)|, job, slices, times)
    ensures world.state.calls[n].published == |times|
    ensures ok <==> |times| == |slices|
    ensures !ok ==> world.fault(world.awaits)
    ensures world.awaits == old(world.awaits) + |times| + if ok then 0 else 1
    ensures ActedFor(old(world.acts), world.acts, n, job)
  {
    ghost var from := |world.steps|;
    times := [];
    for i := 0 to |slices|
      invariant world.Valid() && world.Elapsed() && world.mine == old(world.mine) && world.sweeps == old(world.sweeps)
      invariant IsMine(world, n, job, vector, slices) && world.state.calls[n].published == |times| == i
      invariant PublishedAt(world.states, from, job, slices, times)
      invariant forall k :: 0 <= k < |times| ==> times[k] < |world.steps|
      invariant world.awaits == old(world.awaits) + i
      invariant world.state.calls[n].collective == old(world.state.calls[n].collective)
      invariant ActedFor(old(world.acts), world.acts, n, job)
    {
      ok, times := PublishNext(world, n, job, vector, slices, from, times);
      if !ok {
        return;
      }
    }
    ok := true;
  }

  /** The submission's answer is its outcome, and stood under the result key at some moment from step `from` on. */
  ghost predicate IsStored(c: Call, states: seq<State>, from: nat, job: string, vector: seq<real>, values: seq<real>) {
    && c.job == job && c.vector == vector && c.outcome == Stored(values)
    && exists t :: from <= t < |states| && ResultAt(states[t].store, job, values)
  }

  /**
   It is so of submission `n`, which has published all its slices, and whose progress was stored as completed once
   the result was stored.
   */
  ghost predicate StoredAs(world: World, n: nat, from: nat, job: string, vector: seq<real>, values: seq<real>)
    reads world
  {
    && n < |world.state.calls| && IsStored(world.state.calls[n], world.states, from, job, vector, values)
    && world.state.calls[n].published == |world.state.calls[n].slices|
    && CompletedAfter(world.states, from, job, values)
  }

  /** At some moment from step `from` on the result was there, and then at some moment the progress. */
  ghost predicate CompletedAfter(states: seq<State>, from: nat, job: string, values: seq<real>) {
    exists t, u :: from <= t <= u < |states| && ResultAt(states[t].store, job, values)
                && ProgressAt(states[u].store, job)
  }

  predicate ProgressAt(store: Store, job: string) {
    ProgressKey(job) in store && store[ProgressKey(job)] == Text("completed")
  }

  /**
   The process has made one submission since it had those of `mine`, numbered from `first` on, and that stored
   the values.
   */
  ghost predicate OwnStored(world: World, mine: set<nat>, first: nat, from: nat, job: string, vector: seq<real>,
                            values: seq<real>)
    reads world
  {
    exists n :: first <= n && world.mine == mine + {n} && StoredAs(world, n, from, job, vector, values)
  }

  predicate InfoAt(store: Store, job: string, total: nat) {
    MetadataKey(job) in store && store[MetadataKey(job)] == JobInfo(total)
  }

  /** At some moment from step `from` on, the store held that the job has `total` slices. */
  ghost predicate MadeKnown(states: seq<State>, from: nat, job: string, total: nat) {
    exists t :: from <= t < |states| && InfoAt(states[t].store, job, total)
  }

  lemma KnownLater(states: seq<State>, states': seq<State>, from: nat, job: string, total: nat)
    requires MadeKnown(states, from, job, total) && states <= states'
    ensures MadeKnown(states', from, job, total)
  {
    var t :| from <= t < |states| && InfoAt(states[t].store, job, total);
    assert InfoAt(states'[t].store, job, total);
  }

  /**
   Submission `n` is of this vector, cut like this, in this mode; its job was made known, and what it has published
   it has sent in order, all since step `from`.
   */
  ghost predicate OwnCall(world: World, n: nat, from: nat, job: string, vector: seq<real>, slices: seq<seq<real>>,
                          collective: bool)
    reads world
  {
    && n < |world.state.calls|
    && var c := world.state.calls[n];
       && c.job == job && c.vector == vector && c.slices == slices && c.collective == collective
       && MadeKnown(world.states, from, job, |slices|) && SentSoFar(world.states, from, c)
  }

  /** Submissions made since the process had those of `mine` are of this vector, and have come to their end. */
  ghost predicate Ended(world: World, mine: set<nat>, from: nat, job: string, vector: seq<real>, cfg: Config)
    requires 0 < cfg.worldSize && 0 < cfg.numSlices
    reads world
  {
    forall n :: n in world.mine && n !in mine ==>
      && n < |world.state.calls|
      && CutFor(world.state.calls[n].slices, vector, cfg.ncclDispatch, cfg.worldSize, cfg.numSlices)
      && OwnCall(world, n, from, job, vector, world.state.calls[n].slices, cfg.ncclDispatch && cfg.ranksReduce)
      && !Active(world.state.calls[n])
  }

  ghost predicate ResultAt(store: Store, job: string, values: seq<real>) {
    ResultKey(job) in store && store[ResultKey(job)] == ResultVector(values)
  }

  /**
   From sweep number `before` on, the call waited for `total` slices, beginning after await number `begin` and up to
   now, after `awaits` awaits: the timeout passed, and one slice could not be read in any sweep.
   */
  ghost predicate GaveUp(fault: nat -> bool, states: seq<State>, moments: seq<Moment>, sweeps: seq<Span>, awaits: nat,
                         before: nat, begin: nat, job: string, total: nat, timeout: nat) {
    && begin <= awaits < |moments|
    && moments[begin].clock + timeout <= moments[awaits].clock
    && MissedInEverySweep(fault, states, sweeps, before, job, total)
    && PolledInTime(moments, sweeps, awaits, before, begin, moments[begin].clock + timeout, total)
  }

  /** On some channel. */
  ghost predicate PolledInTime(moments: seq<Moment>, sweeps: seq<Span>, awaits: nat, before: nat, begin: nat,
                               deadline: nat, total: nat) {
    exists rx :: PolledOn(moments, sweeps, awaits, before, begin, rx, deadline, total)
  }

  ghost predicate PolledOn(moments: seq<Moment>, sweeps: seq<Span>, awaits: nat, before: nat, begin: nat, rx: nat,
                           deadline: nat, total: nat) {
    && before < |sweeps|
    && PolledUntil(moments, sweeps, before, begin, sweeps[before].begin, rx, deadline, total, awaits,
                   sweeps[|sweeps| - 1].end)
  }

  lemma GaveUpLater(fault: nat -> bool, states: seq<State>, states': seq<State>, moments: seq<Moment>,
                    sweeps: seq<Span>, awaits: nat, before: nat, begin: nat, job: string, total: nat, timeout: nat)
    requires GaveUp(fault, states, moments, sweeps, awaits, before, begin, job, total, timeout) && states <= states'
    ensures GaveUp(fault, states', moments, sweeps, awaits, before, begin, job, total, timeout)
  {
    var i :| 0 <= i < total && MissedThroughout(fault, states, sweeps, before, job, i);
    MissedLater(fault, states, states', sweeps, before, job, i);
  }

  /** The one submission the call has made gave up, after one await for its metadata and one for each slice. */
  ghost predicate OwnGaveUp(world: World, mine: set<nat>, first: nat, before: nat, awaits: nat, job: string,
                            timeout: nat)
    reads world
  {
    exists n :: first <= n < |world.state.calls| && world.mine == mine + {n}
             && GaveUpOn(world, before, awaits + 1, job, |world.state.calls[n].slices|, timeout)
  }

  ghost predicate GaveUpOn(world: World, before: nat, awaits: nat, job: string, total: nat, timeout: nat)
    reads world
  {
    GaveUp(world.fault, world.states, world.moments, world.sweeps, world.awaits, before, awaits + total, job, total,
           timeout)
  }

  /**
   The last await failed: of those to store the metadata or to publish, which come before the call's first sweep, or
   of those to store the result and the progress, which come after its last.
   */
  ghost predicate StoreFailed(world: World, before: nat)
    reads world
  {
    && world.fault(world.awaits)
    && (|world.sweeps| == before || (before < |world.sweeps| && LastSweep(world).awaitsEnd < world.awaits))
  }

  /** The call has failed: in storing or publishing, or by giving up a wait that began after `begin` awaits. */
  ghost predicate Failed(world: World, before: nat, begin: nat, job: string, total: nat, timeout: nat)
    reads world
  {
    || StoreFailed(world, before)
    || GaveUp(world.fault, world.states, world.moments, world.sweeps, world.awaits, before, begin, job, total, timeout)
  }

  /** Everything SubmitTask does once its arguments are accepted. */
  method RunJob(world: World, cfg: Config, job: string, vector: seq<real>, slices: seq<seq<real>>)
    returns (r: SubmitResult)
    requires world.Valid() && ValidConfig(cfg)
    requires vector != [] && CutFor(slices, vector, cfg.ncclDispatch, cfg.worldSize, cfg.numSlices)
    modifies world, world.notifier
    ensures world.Valid() && world.Elapsed()
    ensures r.Ok? && WellUsed(world) ==> r.values == Softmax(world.e, vector)
    ensures Concluded(world, cfg, old(world.mine), |old(world.state.calls)|, |old(world.steps)|, |old(world.sweeps)|,
                      old(world.awaits), job, vector, r)
    ensures SubmittedOnce(|old(world.state.calls)|, old(world.mine), world.mine, old(world.acts), world.acts, job)
  {
    ghost var acts := world.acts;
    ghost var mine, first, from := world.mine, |world.state.calls|, |world.steps|;
    ghost var before, awaits, begin := |world.sweeps|, world.awaits, world.awaits + 1 + |slices|;
    var begun, n := BeginJob(world, cfg, job, vector, slices);
    if !begun {
      return Internal;
    }
    r := FinishJob(world, cfg, n, job, vector, slices, from, before, begin);
    OneSubmitted(first, mine, world.mine, acts, world.acts, n, slices, vector, cfg.ncclDispatch && cfg.ranksReduce,
                 job);
    OneEnded(world, cfg, mine, first, n, from, job, vector, slices, r, before, awaits, begin);
  }

  /** How a call that began with these numbers of submissions, steps, sweeps and awaits has ended. */
  ghost predicate Concluded(world: World, cfg: Config, mine: set<nat>, first: nat, from: nat, before: nat, awaits: nat,
                            job: string, vector: seq<real>, r: SubmitResult)
    requires ValidConfig(cfg)
    reads world
  {
    && Ended(world, mine, from, job, vector, cfg)
    && match r
       case Ok(values) => OwnStored(world, mine, first, from, job, vector, values)
       case InvalidArgument => false
       case Internal =>
         || StoreFailed(world, before)
         || OwnGaveUp(world, mine, first, before, awaits, job, cfg.sliceTimeoutMs * 1_000_000)
  }

  lemma OneEnded(world: World, cfg: Config, mine: set<nat>, first: nat, n: nat, from: nat, job: string,
                 vector: seq<real>, slices: seq<seq<real>>, r: SubmitResult, before: nat, awaits: nat, begin: nat)
    requires ValidConfig(cfg) && CutFor(slices, vector, cfg.ncclDispatch, cfg.worldSize, cfg.numSlices)
    requires world.mine == mine + {n}
    requires OwnCall(world, n, from, job, vector, slices, cfg.ncclDispatch && cfg.ranksReduce)
    requires !Active(world.state.calls[n])
    requires first <= n
    requires !r.InvalidArgument? && (r.Ok? ==> StoredAs(world, n, from, job, vector, r.values))
    requires r.Internal? ==>
      Failed(world, before, begin, job, |slices|, cfg.sliceTimeoutMs * 1_000_000)
    requires begin == awaits + 1 + |slices|
    ensures Concluded(world, cfg, mine, first, from, before, awaits, job, vector, r)
  {
  }

  /** Everything SubmitTask does once the submission is known. */
  method FinishJob(world: World, cfg: Config, n: nat, job: string, vector: seq<real>, slices: seq<seq<real>>,
                   ghost from: nat, ghost before: nat, ghost begin: nat)
    returns (r: SubmitResult)
    requires world.Valid() && ValidConfig(cfg) && from <= |world.steps|
    requires IsMine(world, n, job, vector, slices) && world.state.calls[n].published == 0
    requires OwnCall(world, n, from, job, vector, slices, cfg.ncclDispatch && cfg.ranksReduce)
    requires before == |world.sweeps| && begin == world.awaits + |slices|
    modifies world, world.notifier
    ensures world.Valid() && world.Elapsed() && world.mine == old(world.mine)
    ensures !r.InvalidArgument?
    ensures OwnCall(world, n, from, job, vector, slices, cfg.ncclDispatch && cfg.ranksReduce)
    ensures !Active(world.state.calls[n])
    ensures r.Ok? ==> StoredAs(world, n, from, job, vector, r.values)
    ensures r.Ok? && WellUsed(world) ==> r.values == Softmax(world.e, vector)
    ensures r.Internal? ==>
      Failed(world, before, begin, job, |slices|, cfg.sliceTimeoutMs * 1_000_000)
    ensures ActedFor(old(world.acts), world.acts, n, job)
  {
    r := PublishAndCollect(world, cfg, n, job, vector, slices, from, before, begin);
    if r.Internal? {
      GiveUpJob(world, cfg, n, from, job, vector, slices, before, begin);
    } else if WellUsed(world) {
      StoredIsSoftmax(world.e, world.states, world.steps, n);
    }
  }

  /** The call returns with an error: its submission has come to its end. */
  method GiveUpJob(world: World, cfg: Config, n: nat, ghost from: nat, ghost job: string, ghost vector: seq<real>,
                   ghost slices: seq<seq<real>>, ghost before: nat, ghost awaits: nat)
    requires world.Valid() && OwnCall(world, n, from, job, vector, slices, cfg.ncclDispatch && cfg.ranksReduce)
    modifies world
    ensures world.Valid() && world.Elapsed() && world.mine == old(world.mine) && world.sweeps == old(world.sweeps)
    ensures world.clock == old(world.clock) && world.awaits == old(world.awaits) && world.moments == old(world.moments)
    ensures OwnCall(world, n, from, job, vector, slices, cfg.ncclDispatch && cfg.ranksReduce)
    ensures !Active(world.state.calls[n])
    ensures old(Failed(world, before, awaits, job, |slices|, cfg.sliceTimeoutMs * 1_000_000)) ==>
      Failed(world, before, awaits, job, |slices|, cfg.sliceTimeoutMs * 1_000_000)
    ensures world.acts == old(world.acts) + [GiveUp(n)]
  {
    ghost var states, c := world.states, world.state.calls[n];
    world.Act(GiveUp(n));
    SentLater(states, world.states, from, from, c, world.state.calls[n]);
    KnownLater(states, world.states, from, job, |slices|);
    if GaveUp(world.fault, states, world.moments, world.sweeps, world.awaits, before, awaits, job, |slices|,
              cfg.sliceTimeoutMs * 1_000_000) {
      GaveUpLater(world.fault, states, world.states, world.moments, world.sweeps, world.awaits, before, awaits, job,
                  |slices|, cfg.sliceTimeoutMs * 1_000_000);
    }
  }

  /** Stores the metadata and so makes the submission known. */
  method BeginJob(world: World, cfg: Config, job: string, vector: seq<real>, slices: seq<seq<real>>)
    returns (ok: bool, n: nat)
    requires world.Valid() && vector != [] && IsPartition(slices, vector)
    modifies world, world.notifier
    ensures world.Valid() && world.Elapsed() && world.sweeps == old(world.sweeps)
    ensures |old(world.state.calls)| <= n && world.mine == old(world.mine) + if ok then {n} else {}
    ensures ok ==> IsMine(world, n, job, vector, slices) && world.state.calls[n].published == 0
    ensures ok ==> InfoAt(world.state.store, job, |slices|)
    ensures ok ==> OwnCall(world, n, |old(world.steps)|, job, vector, slices, cfg.ncclDispatch && cfg.ranksReduce)
    ensures world.awaits == old(world.awaits) + 1
    ensures ok <==> !world.fault(world.awaits)
    ensures world.acts == old(world.acts) +
      if ok then [Submit(job, vector, slices, cfg.ncclDispatch && cfg.ranksReduce)] else []
  {
    world.Await();
    n := |world.state.calls|;
    if world.fault(world.awaits) {
      return false, n;
    }
    world.mine := world.mine + {n};
    world.Act(Submit(job, vector, slices, cfg.ncclDispatch && cfg.ranksReduce));
    assert InfoAt(world.states[|world.steps|].store, job, |slices|);
    assert PublishedAt(world.states, |old(world.steps)|, job, slices, []);
    ok := true;
  }

  /** Publishes, waits for the slices, then aggregates and stores. */
  method PublishAndCollect(world: World, cfg: Config, n: nat, job: string, vector: seq<real>, slices: seq<seq<real>>,
                           ghost from: nat, ghost before: nat, ghost begin: nat)
    returns (r: SubmitResult)
    requires world.Valid() && ValidConfig(cfg) && from <= |world.steps|
    requires IsMine(world, n, job, vector, slices) && world.state.calls[n].published == 0
    requires OwnCall(world, n, from, job, vector, slices, cfg.ncclDispatch && cfg.ranksReduce)
    requires before == |world.sweeps| && begin == world.awaits + |slices|
    modifies world, world.notifier
    ensures world.Valid() && world.Elapsed() && world.mine == old(world.mine)
    ensures !r.InvalidArgument?
    ensures OwnCall(world, n, from, job, vector, slices, cfg.ncclDispatch && cfg.ranksReduce)
    ensures r.Ok? ==> StoredAs(world, n, from, job, vector, r.values)
    ensures r.Internal? ==>
      Failed(world, before, begin, job, |slices|, cfg.sliceTimeoutMs * 1_000_000)
    ensures ActedFor(old(world.acts), world.acts, n, job)
  {
    var published := PublishOwn(world, cfg, n, job, vector, slices, from);
    if !published {
      return Internal;
    }
    r := CollectOwn(world, cfg, n, job, vector, slices, from, before, begin);
  }

  /** Collects and stores what the submission has published. */
  method CollectOwn(world: World, cfg: Config, n: nat, job: string, vector: seq<real>, slices: seq<seq<real>>,
                    ghost from: nat, ghost before: nat, ghost begin: nat)
    returns (r: SubmitResult)
    requires world.Valid() && ValidConfig(cfg) && from <= |world.steps|
    requires IsMine(world, n, job, vector, slices) && world.state.calls[n].published == |slices|
    requires OwnCall(world, n, from, job, vector, slices, cfg.ncclDispatch && cfg.ranksReduce)
    requires before == |world.sweeps| && begin == world.awaits
    modifies world, world.notifier
    ensures world.Valid() && world.Elapsed() && world.mine == old(world.mine)
    ensures !r.InvalidArgument?
    ensures OwnCall(world, n, from, job, vector, slices, cfg.ncclDispatch && cfg.ranksReduce)
    ensures r.Ok? ==> StoredAs(world, n, from, job, vector, r.values)
    ensures r.Internal? ==>
      Failed(world, before, begin, job, |slices|, cfg.sliceTimeoutMs * 1_000_000)
    ensures ActedFor(old(world.acts), world.acts, n, job)
  {
    r := CollectAndStore(world, cfg, n, job, vector, slices, from);
    SentLater(old(world.states), world.states, from, from, old(world.state.calls[n]), world.state.calls[n]);
    KnownLater(old(world.states), world.states, from, job, |slices|);
  }

  /** Publishes the submission's slices. */
  method PublishOwn(world: World, cfg: Config, n: nat, job: string, vector: seq<real>, slices: seq<seq<real>>,
                    ghost from: nat)
    returns (ok: bool)
    requires world.Valid() && from <= |world.steps|
    requires IsMine(world, n, job, vector, slices) && world.state.calls[n].published == 0
    requires OwnCall(world, n, from, job, vector, slices, cfg.ncclDispatch && cfg.ranksReduce)
    modifies world, world.notifier
    ensures world.Valid() && world.Elapsed() && world.mine == old(world.mine) && world.sweeps == old(world.sweeps)
    ensures IsMine(world, n, job, vector, slices)
    ensures OwnCall(world, n, from, job, vector, slices, cfg.ncclDispatch && cfg.ranksReduce)
    ensures ok ==> world.state.calls[n].published == |slices| && world.awaits == old(world.awaits) + |slices|
    ensures !ok ==> world.fault(world.awaits)
    ensures ActedFor(old(world.acts), world.acts, n, job)
  {
    ghost var times;
    ok, times := PublishSlices(world, n, job, vector, slices);
    SentLater(world.states, world.states, |old(world.steps)|, from, world.state.calls[n], world.state.calls[n]);
    KnownLater(old(world.states), world.states, from, job, |slices|);
  }

  /** Waits for the slices of the submission. */
  method CollectSlices(world: World, n: nat, job: string, vector: seq<real>, slices: seq<seq<real>>, timeout: nat)
    returns (r: WaitResult)
    requires world.Valid() && IsMine(world, n, job, vector, slices)
    modifies world, world.notifier
    ensures world.Valid() && world.Elapsed() && world.mine == old(world.mine) && IsMine(world, n, job, vector, slices)
    ensures SameSubmission(old(world.state.calls[n]), world.state.calls[n])
    ensures |old(world.sweeps)| < |world.sweeps| && LastSweep(world).awaitsEnd == world.awaits
    ensures r.Ready? ==> Collected(world.state.calls[n], r.stats)
    ensures r.TimedOut? ==>
      GaveUp(world.fault, world.states, world.moments, world.sweeps, world.awaits, |old(world.sweeps)|,
             old(world.awaits), job, |slices|, timeout)
    ensures ActedFor(old(world.acts), world.acts, n, job)
  {
    ghost var rx := |world.notifier.versions|;
    r := WaitForAllSlices(world, n, job, |slices|, timeout);
    ReadingIsActing(old(world.acts), world.acts, n, job);
    assert PolledOn(world.moments, world.sweeps, world.awaits, |old(world.sweeps)|, old(world.awaits), rx,
                    old(world.clock) + timeout, |slices|);
  }

  /** Waits for the slices, then aggregates and stores. */
  method CollectAndStore(world: World, cfg: Config, n: nat, job: string, vector: seq<real>, slices: seq<seq<real>>,
                         ghost from: nat)
    returns (r: SubmitResult)
    requires world.Valid() && ValidConfig(cfg) && from <= |world.steps|
    requires IsMine(world, n, job, vector, slices) && world.state.calls[n].published == |slices|
    modifies world, world.notifier
    ensures world.Valid() && world.Elapsed() && world.mine == old(world.mine) && n < |world.state.calls|
    ensures SameSubmission(old(world.state.calls[n]), world.state.calls[n])
    ensures !r.InvalidArgument?
    ensures r.Ok? ==> StoredAs(world, n, from, job, vector, r.values)
    ensures r.Internal? ==>
      Failed(world, |old(world.sweeps)|, old(world.awaits), job, |slices|, cfg.sliceTimeoutMs * 1_000_000)
    ensures ActedFor(old(world.acts), world.acts, n, job)
  {
    var result := CollectSlices(world, n, job, vector, slices, cfg.sliceTimeoutMs * 1_000_000);
    if result.TimedOut? {
      return Internal;
    }
    r := StoreFinalResult(world, cfg, n, job, vector, slices, result.stats, from);
  }

  /** Aggregates what was collected and stores it. */
  method StoreFinalResult(world: World, cfg: Config, n: nat, job: string, vector: seq<real>, slices: seq<seq<real>>,
                          stats: seq<SliceStats>, ghost from: nat)
    returns (r: SubmitResult)
    requires world.Valid() && ValidConfig(cfg) && from <= |world.steps|
    requires IsMine(world, n, job, vector, slices) && Collected(world.state.calls[n], stats)
    requires world.state.calls[n].published == |slices|
    modifies world, world.notifier
    ensures world.Valid() && world.Elapsed() && world.mine == old(world.mine) && n < |world.state.calls|
    ensures SameSubmission(old(world.state.calls[n]), world.state.calls[n])
    ensures !r.InvalidArgument?
    ensures r.Ok? ==> StoredAs(world, n, from, job, vector, r.values)
    ensures r.Ok? && WellUsed(world) ==> r.values == Softmax(world.e, vector)
    ensures world.sweeps == old(world.sweeps) && old(world.awaits) < world.awaits <= old(world.awaits) + 2
    ensures r.Internal? <==> world.fault(world.awaits)
    ensures world.state.calls[n].outcome.Stored? <==> world.awaits == old(world.awaits) + 2
    ensures ActedFor(old(world.acts), world.acts, n, job)
  {
    var values := AggregateStats(world.e, stats, cfg.gpu);
    var stored := StoreValues(world, n, job, vector, slices, stats, values, from);
    if !stored {
      return Internal;
    }
    ghost var c, states := world.state.calls[n], world.states;
    stored := StoreCompletion(world, n, job);
    if !stored {
      return Internal;
    }
    StoredLater(c, states, world.states, from, job, vector, values);
    ghost var t :| from <= t < |states| && ResultAt(states[t].store, job, values);
    assert ResultAt(world.states[t].store, job, values);
    assert ProgressAt(world.states[|world.steps|].store, job);
    if WellUsed(world) {
      StoredIsSoftmax(world.e, world.states, world.steps, n);
    }
    return Ok(values);
  }

  /** Stores the result under the job's key. */
  method StoreValues(world: World, n: nat, job: string, vector: seq<real>, slices: seq<seq<real>>,
                     stats: seq<SliceStats>, values: seq<real>, ghost from: nat)
    returns (stored: bool)
    requires world.Valid() && from <= |world.steps|
    requires IsMine(world, n, job, vector, slices) && Collected(world.state.calls[n], stats)
    requires world.state.calls[n].published == |slices|
    requires values == Aggregate(world.e, stats)
    modifies world, world.notifier
    ensures world.Valid() && world.Elapsed() && world.mine == old(world.mine) && n < |world.state.calls|
    ensures SameSubmission(old(world.state.calls[n]), world.state.calls[n])
    ensures stored ==> IsStored(world.state.calls[n], world.states, from, job, vector, values)
    ensures !stored ==> world.state.calls[n].outcome.Open?
    ensures world.sweeps == old(world.sweeps) && world.awaits == old(world.awaits) + 1
    ensures stored <==> !world.fault(world.awaits)
    ensures ActedFor(old(world.acts), world.acts, n, job)
  {
    world.Await();
    if world.fault(world.awaits) {
      return false;
    }
    world.Act(StoreResult(n, stats));
    ghost var t := |world.steps|;
    assert world.state.calls[n].outcome == Stored(values) && ResultAt(world.states[t].store, job, values);
    return true;
  }

  /** Stores the job's progress. */
  method StoreCompletion(world: World, n: nat, job: string) returns (stored: bool)
    requires world.Valid() && n in world.mine && n < |world.state.calls|
    modifies world, world.notifier
    ensures world.Valid() && world.Elapsed() && world.mine == old(world.mine)
    ensures n < |world.state.calls| && world.state.calls[n] == old(world.state.calls[n])
    ensures stored ==> ProgressAt(world.state.store, job)
    ensures world.sweeps == old(world.sweeps) && world.awaits == old(world.awaits) + 1
    ensures stored <==> !world.fault(world.awaits)
    ensures ActedFor(old(world.acts), world.acts, n, job)
  {
    world.Await();
    stored := !world.fault(world.awaits);
    if stored {
      world.Act(StoreProgress(job));
    }
  }

  lemma StoredLater(c: Call, states: seq<State>, states': seq<State>, from: nat, job: string, vector: seq<real>,
                    values: seq<real>)
    requires IsStored(c, states, from, job, vector, values) && states <= states'
    ensures IsStored(c, states', from, job, vector, values)
  {
    var t :| from <= t < |states| && ResultAt(states[t].store, job, values);
    assert ResultAt(states'[t].store, job, values);
  }

  /**
   SubmitTask, with any number of other submissions, workers and notifications interleaved with it.
   If it answers OK, its own submission has sent all slices in order, the answer is what that stored, and it is
   the softmax of the vector submitted if the system is well used. It
   fails if storing or publishing fails, and otherwise only after the slice timeout, with one slice missed by each of
   its sweeps, which it made in time.
   */
  method SubmitTask(world: World, cfg: Config, job: string, task: string, vector: seq<real>) returns (r: SubmitResult)
    requires world.Valid() && ValidConfig(cfg)
    modifies world, world.notifier
    ensures world.Valid() && world.Elapsed()
    ensures r.InvalidArgument? <==> task != "softmax" || vector == [] || (cfg.ncclDispatch && |vector| < cfg.worldSize)
    ensures r.Ok? ==>
      OwnStored(world, old(world.mine), |old(world.state.calls)|, |old(world.steps)|, job, vector, r.values)
    ensures r.Ok? && WellUsed(world) ==> r.values == Softmax(world.e, vector) && |r.values| == |vector|
    ensures r.Internal? ==>
      StoreFailed(world, |old(world.sweeps)|) ||
      OwnGaveUp(world, old(world.mine), |old(world.state.calls)|, |old(world.sweeps)|, old(world.awaits), job,
                cfg.sliceTimeoutMs * 1_000_000)
    ensures Ended(world, old(world.mine), |old(world.steps)|, job, vector, cfg)
    ensures SubmittedOnce(|old(world.state.calls)|, old(world.mine), world.mine, old(world.acts), world.acts, job)
    ensures r.InvalidArgument? ==> world.acts == old(world.acts) && world.awaits == old(world.awaits)
  {
    if task != "softmax" {
      return InvalidArgument;
    }
    if |vector| == 0 {
      return InvalidArgument;
    }
    var sliced := SliceVector(vector, cfg.ncclDispatch, cfg.worldSize, cfg.numSlices);
    match sliced {
      case TooShort => return InvalidArgument;
      case Slices(slices) => r := RunJob(world, cfg, job, vector, slices);
    }
  }
}
