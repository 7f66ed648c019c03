/**
 The distributed system around one store: submissions, the message queue, the workers and the keys
 they write, as a state machine. Steps of different processes interleave arbitrarily; a step that is
 not enabled changes nothing.
 */
module System {
  import opened Exponential
  import opened Vectors
  import opened Aggregation
  import Kernels
  import opened GpuWorker
  import opened Slicing
  import opened Keys
  import opened Messages

  // ----- State

  /** What a key can hold. Only a `SliceFrame` is readable as a slice. */
  datatype Value =
    | SliceFrame(stats: SliceStats)
    | ResultVector(values: seq<real>)
    | JobInfo(totalSlices: nat)
    | Text(text: string)

  type Store = map<string, Value>

  /** A submission ends with its result stored, or is given up. */
  datatype Outcome = Open | Stored(values: seq<real>) | GivenUp

  /**
   A submission: what was submitted, whether its slices go to ranks that normalise them in a collective,
   how much of it is published, and which slices have been read back.
   */
  datatype Call = Call(job: string, vector: seq<real>, slices: seq<seq<real>>, collective: bool, published: nat,
                       seen: set<(nat, SliceStats)>, outcome: Outcome)

  /**
   Who computes a slice: the CPU or the GPU on its own, or a rank for which the collectives returned a maximum
   and a sum.
   */
  datatype Worker = Cpu | Gpu | Rank(globalMax: real, globalSum: real)

  /**
   `held` are messages some worker has pulled and not finished; `unannounced` are written slices not yet
   published as done.
   */
  datatype State = State(store: Store, calls: seq<Call>, queue: seq<Message>, held: multiset<Message>,
                         unannounced: multiset<Message>, announced: set<string>)

  // ----- Steps

  /** A submission as it starts. */
  function NewCall(job: string, vector: seq<real>, slices: seq<seq<real>>, collective: bool): Call {
    Call(job, vector, slices, collective, 0, {}, Open)
  }

  /** Submissions are named by their position in `calls`. */
  datatype Step =
    | Submit(job: string, vector: seq<real>, slices: seq<seq<real>>, collective: bool)
    | Publish(call: nat)
    | Pull(k: nat)
    | Lose(k: nat)
    | Write(m: Message, worker: Worker)
    | Announce(m: Message)
    | Crash(m: Message)
    | Read(call: nat, i: nat)
    | StoreResult(call: nat, stats: seq<SliceStats>)
    | StoreProgress(job: string)
    | GiveUp(call: nat)
    | Expire(key: string)
    | Foreign(key: string, value: Value)

  function ReadableAt(store: Store, job: string, i: nat): Option<SliceStats> {
    var key := SliceKey(job, i);
    if key in store && store[key].SliceFrame? then Some(store[key].stats) else None
  }

  /** What a worker sends back for a slice. */
  function WorkerStats(e: real -> real, data: seq<real>, worker: Worker): SliceStats
    requires data != []
  {
    match worker
    case Cpu => SoftmaxPartial(e, data)
    case Gpu => StatsAt(e, data, GpuMax(data))
    case Rank(globalMax, globalSum) => NormalizedStats(AllReduceSlice(e, data, globalMax, globalSum))
  }

  /**
   A worker at work on a slice, in whatever order its threads run: the CPU's shift is the slice's maximum, the GPU's
   differs from it where padding shows, and a rank uses what the collectives returned.
   */
  method Compute(e: real -> real, data: seq<real>, worker: Worker, pass1: Launch, pass2: Launch, pass3: seq<Thread>)
    returns (stats: SliceStats)
    requires data != [] && ValidLaunch(pass1, |data|) && ValidLaunch(pass2, |data|)
    requires CoversThreads(pass3, Kernels.NumBlocks(|data|), Kernels.BLOCK_SIZE)
    ensures stats == WorkerStats(e, data, worker)
    ensures stats.isNormalized <==> worker.Rank?
    ensures worker.Cpu? ==> stats.localMax in data && forall k :: 0 <= k < |data| ==> data[k] <= stats.localMax
    ensures worker.Gpu? ==> PaddedMax(data, stats.localMax)
    ensures !worker.Rank? ==> stats == StatsAt(e, data, stats.localMax)
  {
    match worker
    case Cpu =>
      stats := SoftmaxPartial(e, data);
    case Gpu =>
      stats := PartialSoftmax(e, data, pass1, pass2);
    case Rank(globalMax, globalSum) =>
      var _, _, probs := AllReduceSoftmax(e, data, globalMax, globalSum, pass1, pass2, pass3);
      stats := NormalizedStats(probs);
  }

  /** All slices have been read back, and `stats` are values read. */
  predicate Collected(c: Call, stats: seq<SliceStats>) {
    && |stats| == |c.slices|
    && forall i | 0 <= i < |stats| :: (i, stats[i]) in c.seen
  }

  function Apply(e: real -> real, s: State, step: Step): State {
    match step
    case Submit(job, vector, slices, collective) =>
      if vector != [] && IsPartition(slices, vector) then
        s.(calls := s.calls + [NewCall(job, vector, slices, collective)],
           store := s.store[MetadataKey(job) := JobInfo(|slices|)])
      else s
    case Publish(n) =>
      if n < |s.calls| && s.calls[n].outcome.Open? && s.calls[n].published < |s.calls[n].slices| then
        var c := s.calls[n];
        s.(queue := s.queue + [Message(c.job, c.published, c.slices[c.published])],
           calls := s.calls[n := c.(published := c.published + 1)])
      else s
    case Pull(k) =>
      if k < |s.queue| then s.(queue := s.queue[..k] + s.queue[k + 1..], held := s.held + multiset{s.queue[k]}) else s
    case Lose(k) =>
      if k < |s.queue| then s.(queue := s.queue[..k] + s.queue[k + 1..]) else s
    case Write(m, worker) =>
      if m in s.held && m.data != [] then
        s.(store := s.store[SliceKey(m.job, m.sliceId) := SliceFrame(WorkerStats(e, m.data, worker))],
           held := s.held - multiset{m}, unannounced := s.unannounced + multiset{m})
      else s
    case Announce(m) =>
      if m in s.unannounced then
        s.(unannounced := s.unannounced - multiset{m}, announced := s.announced + {m.job})
      else s
    case Crash(m) =>
      s.(held := s.held - multiset{m}, unannounced := s.unannounced - multiset{m})
    case Read(n, i) =>
      if n < |s.calls| && i < |s.calls[n].slices| && ReadableAt(s.store, s.calls[n].job, i).Some? then
        var c := s.calls[n];
        s.(calls := s.calls[n := c.(seen := c.seen + {(i, ReadableAt(s.store, c.job, i).value)})])
      else s
    case StoreResult(n, stats) =>
      if n < |s.calls| && s.calls[n].outcome.Open? && Collected(s.calls[n], stats) then
        var values := Aggregate(e, stats);
        s.(store := s.store[ResultKey(s.calls[n].job) := ResultVector(values)],
           calls := s.calls[n := s.calls[n].(outcome := Stored(values))])
      else s
    case StoreProgress(job) => s.(store := s.store[ProgressKey(job) := Text("completed")])
    case GiveUp(n) =>
      if n < |s.calls| && s.calls[n].outcome.Open? then
        s.(calls := s.calls[n := s.calls[n].(outcome := GivenUp)])
      else s
    case Expire(key) => s.(store := s.store - {key})
    case Foreign(key, value) => s.(store := s.store[key := value])
  }

  ghost predicate StepAt(e: real -> real, states: seq<State>, steps: seq<Step>, t: nat)
    requires t < |steps| && |states| == |steps| + 1
  {
    states[t + 1] == Apply(e, states[t], steps[t])
  }

  /** `steps` lead through `states`, one after the other. */
  ghost predicate IsRun(e: real -> real, states: seq<State>, steps: seq<Step>) {
    && |states| == |steps| + 1
    && forall t :: 0 <= t < |steps| ==> StepAt(e, states, steps, t)
  }

  lemma RunMore(e: real -> real, states: seq<State>, steps: seq<Step>, step: Step)
    requires IsRun(e, states, steps)
    ensures IsRun(e, states + [Apply(e, states[|steps|], step)], steps + [step])
  {
    var states', steps' := states + [Apply(e, states[|steps|], step)], steps + [step];
    forall t | 0 <= t < |steps'| ensures StepAt(e, states', steps', t) {
      if t < |steps| {
        assert StepAt(e, states, steps, t);
      }
    }
  }

  // ----- What the environment has to respect

  /** Until it ends, a submission may publish, read and store. */
  predicate Active(c: Call) {
    c.outcome.Open?
  }

  predicate SameWork(c: Call, c': Call) {
    c.slices == c'.slices && c.collective == c'.collective
  }

  /** All submissions under the id of submission `n` do the same work. */
  ghost predicate Undisputed(calls: seq<Call>, n: nat)
    requires n < |calls|
  {
    forall m :: 0 <= m < |calls| && calls[m].job == calls[n].job ==> SameWork(calls[m], calls[n])
  }

  /**
   Whose work stands under an id: active submissions and, as long as nothing else is submitted under it, past
   ones.
   */
  ghost predicate Current(calls: seq<Call>, n: nat)
    requires n < |calls|
  {
    Active(calls[n]) || Undisputed(calls, n)
  }

  /** What submission `m` has still to publish belongs to submission `c` just as well. */
  ghost predicate PublishesOk(e: real -> real, m: Call, c: Call) {
    forall i :: m.published <= i < |m.slices| ==> MessageOk(e, Message(m.job, i, m.slices[i]), c)
  }

  /**
   Whatever is left under the submission's id belongs to it just as well: messages left over, and those that
   other submissions still active have yet to publish, carry its slices, and readable slices left over describe
   them.
   */
  ghost predicate SafeFor(e: real -> real, s: State, c: Call) {
    && MessagesOk(e, s, c) && FramesOk(e, s.store, c)
    && forall m :: 0 <= m < |s.calls| && Active(s.calls[m]) ==> PublishesOk(e, s.calls[m], c)
  }

  /** The submission is safe, and its slices do no harm to other submissions active under its id. */
  ghost predicate Clear(e: real -> real, s: State, c: Call) {
    && SafeFor(e, s, c)
    && forall n :: 0 <= n < |s.calls| && Active(s.calls[n]) ==> PublishesOk(e, c, s.calls[n])
  }

  /**
   The slices of a job are computed in the job's mode; and the sum a collective returned to a rank is the sum
   over that job's slices.
   */
  ghost predicate InMode(e: real -> real, c: Call, worker: Worker) {
    if c.collective then
      worker.Rank? && worker.globalSum == AllReduceSum(e, c.slices, worker.globalMax)
    else !worker.Rank?
  }

  /** Ids are clear when submitted, nobody outside the system writes keys, and workers keep to the mode of the job. */
  ghost predicate Respectful(e: real -> real, s: State, step: Step) {
    && !step.Foreign?
    && (step.Submit? ==> Clear(e, s, NewCall(step.job, step.vector, step.slices, step.collective)))
    && (step.Write? ==> forall n :: 0 <= n < |s.calls| && s.calls[n].job == step.m.job && Current(s.calls, n) ==>
          InMode(e, s.calls[n], step.worker))
  }

  ghost predicate RespectfulAt(e: real -> real, states: seq<State>, steps: seq<Step>, t: nat)
    requires t < |steps| && |states| == |steps| + 1
  {
    Respectful(e, states[t], steps[t])
  }

  ghost predicate RespectfulRun(e: real -> real, states: seq<State>, steps: seq<Step>)
    requires |states| == |steps| + 1
  {
    forall t :: 0 <= t < |steps| ==> RespectfulAt(e, states, steps, t)
  }

  // ----- Safety: whatever is in the system about a job belongs to the vector submitted

  /**
   What is right for slice `i` among others: partial statistics at some shift or, in a collective job, its share
   of the softmax. The mode is read off the first slice. A single slice need only be right on its own.
   */
  ghost predicate DescribesSlice(e: real -> real, s: SliceStats, c: Call, i: nat)
    requires i < |c.slices|
  {
    if |c.slices| == 1 then RightAlone(e, s, c.slices[0])
    else
      && (if c.collective then s.expValues == Divided(e, c.slices[i], Total(e, c.vector)) else Fits(e, s, c.slices[i]))
      && (i == 0 ==> s.isNormalized == c.collective)
  }

  /**
   A message carries the job's slice. A message without data is never worked on; and where a single slice is
   computed on its own, other data do no harm if they are the slice moved by a constant.
   */
  ghost predicate MessageOk(e: real -> real, m: Message, c: Call) {
    m.job == c.job && m.sliceId < |c.slices| && m.data != [] ==>
      || m.data == c.slices[m.sliceId]
      || (|c.slices| == 1 && !c.collective && Moved(m.data, c.slices[0]))
  }

  ghost predicate SeenOk(e: real -> real, c: Call) {
    forall p :: p in c.seen ==> p.0 < |c.slices| && DescribesSlice(e, p.1, c, p.0)
  }

  ghost predicate StoredOk(e: real -> real, c: Call) {
    c.outcome.Stored? ==>
      && c.outcome.values == Softmax(e, c.vector)
      && exists stats: seq<SliceStats> :: Collected(c, stats)
  }

  ghost predicate CallOk(e: real -> real, c: Call) {
    && c.vector != [] && IsPartition(c.slices, c.vector) && c.published <= |c.slices|
    && StoredOk(e, c) && (Active(c) ==> SeenOk(e, c))
  }

  ghost predicate MessagesOk(e: real -> real, s: State, c: Call) {
    && (forall m :: m in s.queue ==> MessageOk(e, m, c))
    && (forall m :: m in s.held ==> MessageOk(e, m, c))
  }

  ghost predicate FramesOk(e: real -> real, store: Store, c: Call) {
    forall i :: 0 <= i < |c.slices| && ReadableAt(store, c.job, i).Some? ==>
      DescribesSlice(e, ReadableAt(store, c.job, i).value, c, i)
  }

  /** What is in the system about submission `n`. */
  ghost predicate JobOk(e: real -> real, s: State, n: nat)
    requires n < |s.calls|
  {
    && CallOk(e, s.calls[n])
    && (Current(s.calls, n) ==> MessagesOk(e, s, s.calls[n]) && FramesOk(e, s.store, s.calls[n]))
    && (Active(s.calls[n]) ==> OthersOk(e, s.calls, n))
  }

  ghost predicate OthersOk(e: real -> real, calls: seq<Call>, n: nat)
    requires n < |calls|
  {
    forall m :: 0 <= m < |calls| && m != n && Active(calls[m]) ==> PublishesOk(e, calls[m], calls[n])
  }

  ghost predicate Inv(e: real -> real, s: State) {
    forall n :: 0 <= n < |s.calls| ==> JobOk(e, s, n)
  }

  lemma WorkerDescribes(e: real -> real, c: Call, i: nat, worker: Worker)
    requires IsExp(e) && c.vector != [] && IsPartition(c.slices, c.vector)
    requires i < |c.slices| && InMode(e, c, worker)
    ensures DescribesSlice(e, WorkerStats(e, c.slices[i], worker), c, i)
  {
    if c.collective {
      AllReduceSumIsTotal(e, c.slices, worker.globalMax);
      TotalIsPositive(e, c.vector);
      ReducedSlice(e, c.slices[i], worker.globalMax, Total(e, c.vector), worker.globalSum);
      if |c.slices| == 1 {
        assert c.slices == [c.slices[0]];
        FlattenOne(c.slices[0]);
        ShareAlone(e, WorkerStats(e, c.slices[i], worker), c.slices[0]);
      }
    } else if |c.slices| == 1 {
      OnlyTheSoftmaxMatters(e, c.slices[0], c.slices[0], worker);
    }
  }

  /** A single slice computed on its own is right for data moved by a constant. */
  lemma OnlyTheSoftmaxMatters(e: real -> real, data: seq<real>, slice: seq<real>, worker: Worker)
    requires IsExp(e) && data != [] && slice != [] && !worker.Rank? && Moved(data, slice)
    ensures RightAlone(e, WorkerStats(e, data, worker), slice)
  {
    var s := WorkerStats(e, data, worker);
    SameSoftmaxExactlyIfMoved(e, data, slice);
    FlattenOne(data);
    AggregateIsSoftmax(e, [s], [data]);
    SingleSlice(e, s, slice);
  }

  /** What a worker in the job's mode makes of a message of the job. */
  lemma MessageDescribes(e: real -> real, c: Call, m: Message, worker: Worker)
    requires IsExp(e) && c.vector != [] && IsPartition(c.slices, c.vector)
    requires m.job == c.job && m.sliceId < |c.slices| && m.data != [] && MessageOk(e, m, c) && InMode(e, c, worker)
    ensures DescribesSlice(e, WorkerStats(e, m.data, worker), c, m.sliceId)
  {
    if m.data == c.slices[m.sliceId] {
      WorkerDescribes(e, c, m.sliceId, worker);
    } else {
      OnlyTheSoftmaxMatters(e, m.data, c.slices[0], worker);
    }
  }

  lemma FramesAfterWrite(e: real -> real, s: State, m: Message, worker: Worker, c: Call)
    requires IsExp(e) && CallOk(e, c) && MessagesOk(e, s, c) && FramesOk(e, s.store, c) && m in s.held && m.data != []
    requires c.job == m.job ==> InMode(e, c, worker)
    ensures FramesOk(e, Apply(e, s, Write(m, worker)).store, c)
  {
    var store := Apply(e, s, Write(m, worker)).store;
    forall i | 0 <= i < |c.slices| && ReadableAt(store, c.job, i).Some?
      ensures DescribesSlice(e, ReadableAt(store, c.job, i).value, c, i)
    {
      if SliceKey(c.job, i) == SliceKey(m.job, m.sliceId) {
        SliceKeyIsInjective(c.job, i, m.job, m.sliceId);
        assert MessageOk(e, m, c);
        MessageDescribes(e, c, m, worker);
      } else {
        assert ReadableAt(store, c.job, i) == ReadableAt(s.store, c.job, i);
      }
    }
  }

  /** A write that is not a slice frame, or goes elsewhere, leaves the readable slices alone. */
  lemma FramesAfterUpdate(e: real -> real, store: Store, store': Store, c: Call)
    requires FramesOk(e, store, c)
    requires forall i :: 0 <= i < |c.slices| ==> ReadableAt(store', c.job, i) in {None, ReadableAt(store, c.job, i)}
    ensures FramesOk(e, store', c)
  {
    forall i | 0 <= i < |c.slices| && ReadableAt(store', c.job, i).Some?
      ensures DescribesSlice(e, ReadableAt(store', c.job, i).value, c, i)
    {
      assert ReadableAt(store', c.job, i) == ReadableAt(store, c.job, i);
    }
  }

  lemma SliceKeyIsNotMetadataKey(job: string, i: nat, job': string)
    ensures SliceKey(job, i) != MetadataKey(job')
  {
    assert SliceKey(job, i)[0] != MetadataKey(job')[0];
  }

  /** The store after a submission's metadata is written. */
  lemma FramesAfterSubmit(e: real -> real, store: Store, c: Call, job: string, total: nat)
    requires FramesOk(e, store, c)
    ensures FramesOk(e, store[MetadataKey(job) := JobInfo(total)], c)
  {
    forall i | 0 <= i < |c.slices| ensures SliceKey(c.job, i) != MetadataKey(job) {
      SliceKeyIsNotMetadataKey(c.job, i, job);
    }
    FramesAfterUpdate(e, store, store[MetadataKey(job) := JobInfo(total)], c);
  }

  /** A submission about to be made. */
  ghost predicate Submittable(c: Call) {
    c == NewCall(c.job, c.vector, c.slices, c.collective) && c.vector != [] && IsPartition(c.slices, c.vector)
  }

  lemma SubmittedOk(e: real -> real, s: State, c: Call)
    requires Submittable(c) && SafeFor(e, s, c)
    ensures var s' := Apply(e, s, Submit(c.job, c.vector, c.slices, c.collective));
            s'.calls == s.calls + [c] && JobOk(e, s', |s.calls|)
  {
    FramesAfterSubmit(e, s.store, c, c.job, |c.slices|);
  }

  lemma ResultOk(e: real -> real, c: Call, stats: seq<SliceStats>)
    requires IsExp(e) && CallOk(e, c) && Active(c) && Collected(c, stats)
    ensures Aggregate(e, stats) == Softmax(e, c.vector)
  {
    forall i | 0 <= i < |stats| ensures DescribesSlice(e, stats[i], c, i) {
      assert (i, stats[i]) in c.seen;
    }
    if |c.slices| == 1 {
      assert stats == [stats[0]] && c.slices == [c.slices[0]];
      FlattenOne(c.slices[0]);
      SingleSlice(e, stats[0], c.slices[0]);
    } else if c.collective {
      SharesConcatenate(e, stats, c.slices, Total(e, c.vector));
    } else {
      AggregateIsSoftmax(e, stats, c.slices);
    }
  }

  lemma StillCollected(e: real -> real, c: Call, c': Call)
    requires StoredOk(e, c)
    requires c'.slices == c.slices && c'.vector == c.vector && c'.outcome == c.outcome && c.seen <= c'.seen
    ensures StoredOk(e, c')
  {
    if c.outcome.Stored? {
      var stats: seq<SliceStats> :| Collected(c, stats);
      assert Collected(c', stats);
    }
  }

  /** What a step can do to a submission. */
  ghost predicate CallMoved(e: real -> real, store: Store, step: Step, c: Call, c': Call) {
    && c'.job == c.job && c'.vector == c.vector && c'.slices == c.slices && c'.collective == c.collective
    && c.published <= c'.published && (c'.published != c.published ==> c'.published <= |c.slices| && c.outcome.Open?)
    && (c'.seen != c.seen ==>
          && step.Read? && step.i < |c.slices| && ReadableAt(store, c.job, step.i).Some?
          && c'.seen == c.seen + {(step.i, ReadableAt(store, c.job, step.i).value)})
    && (c'.outcome != c.outcome ==>
          && c.outcome.Open? && c'.seen == c.seen
          && (|| c'.outcome == GivenUp
              || (step.StoreResult? && Collected(c, step.stats) && c'.outcome == Stored(Aggregate(e, step.stats)))))
  }

  lemma CallFrame(e: real -> real, s: State, step: Step, n: nat)
    requires n < |s.calls|
    ensures |s.calls| <= |Apply(e, s, step).calls|
    ensures CallMoved(e, s.store, step, s.calls[n], Apply(e, s, step).calls[n])
  {
    if !step.Publish? && !step.Read? && !step.StoreResult? && !step.GiveUp? {
      OthersKeepCalls(e, s, step);
    }
  }

  lemma OthersKeepCalls(e: real -> real, s: State, step: Step)
    requires !step.Publish? && !step.Read? && !step.StoreResult? && !step.GiveUp?
    ensures s.calls <= Apply(e, s, step).calls
  {
  }

  lemma CallStep(e: real -> real, s: State, step: Step, n: nat)
    requires IsExp(e) && n < |s.calls| && CallOk(e, s.calls[n])
    requires Active(s.calls[n]) ==> FramesOk(e, s.store, s.calls[n])
    ensures |s.calls| <= |Apply(e, s, step).calls| && CallOk(e, Apply(e, s, step).calls[n])
  {
    CallFrame(e, s, step, n);
    var c, c' := s.calls[n], Apply(e, s, step).calls[n];
    if c'.outcome != c.outcome && c'.outcome.Stored? {
      ResultOk(e, c, step.stats);
      assert Collected(c', step.stats);
    } else if c'.outcome == c.outcome {
      StillCollected(e, c, c');
    }
  }

  /** What is said of messages and slices does not depend on how far the submission has come. */
  lemma SameForMoved(e: real -> real, s: State, c: Call, c': Call)
    requires c'.job == c.job && c'.vector == c.vector && c'.slices == c.slices && c'.collective == c.collective
    ensures MessagesOk(e, s, c) ==> MessagesOk(e, s, c')
    ensures FramesOk(e, s.store, c) ==> FramesOk(e, s.store, c')
  {
  }

  lemma CurrentBefore(e: real -> real, s: State, step: Step, n: nat)
    requires n < |s.calls|
    ensures |s.calls| <= |Apply(e, s, step).calls| && (Current(Apply(e, s, step).calls, n) ==> Current(s.calls, n))
  {
    var calls, calls' := s.calls, Apply(e, s, step).calls;
    CallFrame(e, s, step, n);
    if Undisputed(calls', n) {
      forall m | 0 <= m < |calls| && calls[m].job == calls[n].job ensures SameWork(calls[m], calls[n]) {
        CallFrame(e, s, step, m);
        assert SameWork(calls'[m], calls'[n]);
      }
    }
  }

  /** A message in the system was there before, or is the next slice of the submission that publishes. */
  ghost predicate ComesFrom(s: State, step: Step, m: Message) {
    || m in s.queue || m in s.held
    || (step.Publish? && step.call < |s.calls|
        && var c := s.calls[step.call];
           Active(c) && c.published < |c.slices| && m == Message(c.job, c.published, c.slices[c.published]))
  }

  lemma QueuedComesFrom(e: real -> real, s: State, step: Step, m: Message)
    requires m in Apply(e, s, step).queue
    ensures ComesFrom(s, step, m)
  {
    var q := Apply(e, s, step).queue;
    var i :| 0 <= i < |q| && q[i] == m;
    match step {
      case Pull(k) => assert k < |s.queue| ==> m == s.queue[if i < k then i else i + 1];
      case Lose(k) => assert k < |s.queue| ==> m == s.queue[if i < k then i else i + 1];
      case _ =>
    }
  }

  lemma HeldComesFrom(e: real -> real, s: State, step: Step, m: Message)
    requires m in Apply(e, s, step).held
    ensures ComesFrom(s, step, m)
  {
    if step.Pull? && m !in s.held {
      assert m == s.queue[step.k];
    }
  }

  /**
   Whatever is published carries the slice, because it comes from a submission of the same work or one that does
   no harm.
   */
  lemma MessagesStep(e: real -> real, s: State, step: Step, n: nat)
    requires n < |s.calls| && MessagesOk(e, s, s.calls[n]) && Current(s.calls, n)
    requires Active(s.calls[n]) ==> OthersOk(e, s.calls, n)
    ensures MessagesOk(e, Apply(e, s, step), s.calls[n])
  {
    var s', c := Apply(e, s, step), s.calls[n];
    forall m | m in s'.queue ensures MessageOk(e, m, c) {
      QueuedComesFrom(e, s, step, m);
      ComingMessageOk(e, s, step, n, m);
    }
    forall m | m in s'.held ensures MessageOk(e, m, c) {
      HeldComesFrom(e, s, step, m);
      ComingMessageOk(e, s, step, n, m);
    }
  }

  lemma ComingMessageOk(e: real -> real, s: State, step: Step, n: nat, m: Message)
    requires n < |s.calls| && MessagesOk(e, s, s.calls[n]) && Current(s.calls, n)
    requires Active(s.calls[n]) ==> OthersOk(e, s.calls, n)
    requires ComesFrom(s, step, m)
    ensures MessageOk(e, m, s.calls[n])
  {
    if m !in s.queue && m !in s.held && step.call != n {
      assert Active(s.calls[n]) ==> PublishesOk(e, s.calls[step.call], s.calls[n]);
    }
  }

  lemma FramesStep(e: real -> real, s: State, step: Step, n: nat)
    requires IsExp(e) && n < |s.calls| && Current(s.calls, n)
    requires CallOk(e, s.calls[n]) && MessagesOk(e, s, s.calls[n]) && FramesOk(e, s.store, s.calls[n])
    requires Respectful(e, s, step)
    ensures FramesOk(e, Apply(e, s, step).store, s.calls[n])
  {
    var s', c := Apply(e, s, step), s.calls[n];
    if step.Write? && s' != s {
      FramesAfterWrite(e, s, step.m, step.worker, c);
    } else if step.Submit? && s' != s {
      FramesAfterSubmit(e, s.store, c, step.job, |step.slices|);
    } else {
      FramesAfterUpdate(e, s.store, s'.store, c);
    }
  }

  lemma OthersStep(e: real -> real, s: State, step: Step, n: nat)
    requires n < |s.calls| && Respectful(e, s, step) && |s.calls| <= |Apply(e, s, step).calls|
    requires Active(s.calls[n]) && OthersOk(e, s.calls, n)
    ensures OthersOk(e, Apply(e, s, step).calls, n)
  {
    var calls, calls' := s.calls, Apply(e, s, step).calls;
    CallFrame(e, s, step, n);
    forall m | 0 <= m < |calls'| && m != n && Active(calls'[m]) ensures PublishesOk(e, calls'[m], calls'[n]) {
      if m < |calls| {
        CallFrame(e, s, step, m);
        assert PublishesOk(e, calls[m], calls[n]);
        PublishesStay(e, calls[m], calls'[m], calls[n], calls'[n]);
      } else {
        PublishesStay(e, calls'[m], calls'[m], calls[n], calls'[n]);
      }
    }
  }

  lemma PublishesStay(e: real -> real, m: Call, m': Call, c: Call, c': Call)
    requires PublishesOk(e, m, c)
    requires m'.job == m.job && m'.slices == m.slices && m.published <= m'.published
    requires c'.job == c.job && c'.slices == c.slices && c'.collective == c.collective
    ensures PublishesOk(e, m', c')
  {
    forall i | m'.published <= i < |m'.slices| ensures MessageOk(e, Message(m'.job, i, m'.slices[i]), c') {
      assert MessageOk(e, Message(m.job, i, m.slices[i]), c);
    }
  }

  /** Which key a step writes. */
  function KeyWritten(s: State, step: Step): Option<KeyUse> {
    match step
    case Submit(job, _, _, _) => Some(KeyUse.Metadata(job))
    case Write(m, _) => Some(KeyUse.Slice(m.job, m.sliceId))
    case StoreResult(n, _) => if n < |s.calls| then Some(KeyUse.Result(s.calls[n].job)) else None
    case StoreProgress(job) => Some(KeyUse.Progress(job))
    case _ => None
  }

  lemma OneKeyWritten(e: real -> real, s: State, step: Step, key: string)
    requires !step.Foreign?
    requires KeyWritten(s, step).None? || KeyOf(KeyWritten(s, step).value) != key
    ensures key in Apply(e, s, step).store ==> key in s.store && Apply(e, s, step).store[key] == s.store[key]
    ensures key in s.store && !step.Expire? ==> key in Apply(e, s, step).store
  {
  }

  /** Keys of different families never meet, apart from result keys of jobs with colons. */
  lemma KeyWrittenElsewhere(s: State, step: Step, u: KeyUse)
    requires KeyWritten(s, step).Some? && KeyWritten(s, step).value != u
    requires u.Metadata? || (u.Result? && ':' !in u.job)
    ensures KeyOf(KeyWritten(s, step).value) != KeyOf(u)
  {
    var w := KeyWritten(s, step).value;
    if w.Result? {
      if u.Metadata? {
        assert KeyOf(w)[0] != KeyOf(u)[0];
      } else {
        assert w.job == KeyOf(w)[7..] && u.job == KeyOf(u)[7..];
      }
    } else if KeyOf(w) == KeyOf(u) {
      KeysAreDisjoint(w, u);
    }
  }

  /** One submission, one step of anybody. */
  lemma JobStep(e: real -> real, s: State, step: Step, n: nat)
    requires IsExp(e) && n < |s.calls| && JobOk(e, s, n)
    requires Respectful(e, s, step)
    ensures |s.calls| <= |Apply(e, s, step).calls| && JobOk(e, Apply(e, s, step), n)
  {
    var s' := Apply(e, s, step);
    CallStep(e, s, step, n);
    CallFrame(e, s, step, n);
    CurrentBefore(e, s, step, n);
    if Current(s'.calls, n) {
      MessagesStep(e, s, step, n);
      FramesStep(e, s, step, n);
      SameForMoved(e, s', s.calls[n], s'.calls[n]);
    }
    if Active(s'.calls[n]) {
      OthersStep(e, s, step, n);
    }
  }

  lemma InvStep(e: real -> real, s: State, step: Step)
    requires IsExp(e) && Inv(e, s)
    requires Respectful(e, s, step)
    ensures Inv(e, Apply(e, s, step))
  {
    var s' := Apply(e, s, step);
    forall n | 0 <= n < |s'.calls| ensures JobOk(e, s', n) {
      if n < |s.calls| {
        JobStep(e, s, step, n);
      } else {
        SubmittedOk(e, s, s'.calls[n]);
      }
    }
  }

  lemma JobAt(e: real -> real, states: seq<State>, steps: seq<Step>, n: nat, t: nat)
    requires IsExp(e) && IsRun(e, states, steps) && t < |steps| && RespectfulAt(e, states, steps, t)
    requires n < |states[t].calls| && JobOk(e, states[t], n)
    ensures n < |states[t + 1].calls| && JobOk(e, states[t + 1], n)
  {
    assert StepAt(e, states, steps, t);
    JobStep(e, states[t], steps[t], n);
  }

  /** Whatever becomes of the others: submission `n`, once in order, stays in order. */
  lemma {:induction false} JobRun(e: real -> real, states: seq<State>, steps: seq<Step>, n: nat, t: nat, u: nat)
    requires IsExp(e) && IsRun(e, states, steps) && t <= u <= |steps|
    requires forall k :: t <= k < |steps| ==> RespectfulAt(e, states, steps, k)
    requires n < |states[t].calls| && JobOk(e, states[t], n)
    ensures n < |states[u].calls| && JobOk(e, states[u], n)
    decreases u
  {
    if t < u {
      JobRun(e, states, steps, n, t, u - 1);
      JobAt(e, states, steps, n, u - 1);
    }
  }

  lemma InvAt(e: real -> real, states: seq<State>, steps: seq<Step>, t: nat)
    requires IsExp(e) && IsRun(e, states, steps) && RespectfulRun(e, states, steps) && t < |steps|
    requires Inv(e, states[t])
    ensures Inv(e, states[t + 1])
  {
    assert StepAt(e, states, steps, t) && RespectfulAt(e, states, steps, t);
    InvStep(e, states[t], steps[t]);
  }

  lemma {:induction false} InvRun(e: real -> real, states: seq<State>, steps: seq<Step>, t: nat)
    requires IsExp(e) && IsRun(e, states, steps) && RespectfulRun(e, states, steps)
    requires Inv(e, states[0]) && t <= |steps|
    ensures Inv(e, states[t])
  {
    if t > 0 {
      InvRun(e, states, steps, t - 1);
      InvAt(e, states, steps, t - 1);
    }
  }

  /**
   Safety of every run: from any store and any messages left over from before, as long as ids are clear
   when submitted and nobody outside the system writes keys, every result ever stored is the softmax of
   the vector submitted.
   */
  lemma EveryStoredResultIsSoftmax(e: real -> real, states: seq<State>, steps: seq<Step>, t: nat, n: nat)
    requires IsExp(e) && IsRun(e, states, steps) && RespectfulRun(e, states, steps)
    requires states[0].calls == [] && t <= |steps| && n < |states[t].calls|
    ensures var c := states[t].calls[n];
            c.outcome.Stored? ==> c.outcome.values == Softmax(e, c.vector)
  {
    InvRun(e, states, steps, t);
    assert JobOk(e, states[t], n);
  }

  // ----- What only grows

  ghost predicate CallsKept(s: State, s': State) {
    && |s.calls| <= |s'.calls|
    && forall n :: 0 <= n < |s.calls| ==>
         && s'.calls[n].job == s.calls[n].job && s'.calls[n].vector == s.calls[n].vector
         && s'.calls[n].slices == s.calls[n].slices && s.calls[n].seen <= s'.calls[n].seen
         && (s.calls[n].outcome.Stored? ==> s'.calls[n].outcome == s.calls[n].outcome)
  }

  ghost predicate KeysKept(s: State, s': State) {
    s.store.Keys <= s'.store.Keys
  }

  lemma KeptStep(e: real -> real, s: State, step: Step)
    ensures CallsKept(s, Apply(e, s, step))
    ensures !step.Expire? ==> KeysKept(s, Apply(e, s, step))
  {
    forall n | 0 <= n < |s.calls| ensures CallMoved(e, s.store, step, s.calls[n], Apply(e, s, step).calls[n]) {
      CallFrame(e, s, step, n);
    }
  }

  /** Over a run, submissions stay what they are, and without expiry no key goes away. */
  lemma {:induction false} KeptRun(e: real -> real, states: seq<State>, steps: seq<Step>, t: nat, u: nat)
    requires IsRun(e, states, steps) && t <= u <= |steps|
    ensures CallsKept(states[t], states[u])
    ensures (forall k :: t <= k < u ==> !steps[k].Expire?) ==> KeysKept(states[t], states[u])
    decreases u
  {
    if t < u {
      KeptRun(e, states, steps, t, u - 1);
      assert StepAt(e, states, steps, u - 1);
      KeptStep(e, states[u - 1], steps[u - 1]);
    }
  }

  /** Metadata under the job's key is that of one of its submissions. */
  ghost predicate InfoTracked(s: State, job: string) {
    MetadataKey(job) in s.store ==>
      exists n :: 0 <= n < |s.calls| && s.calls[n].job == job
               && s.store[MetadataKey(job)] == JobInfo(|s.calls[n].slices|)
  }

  /** A result under the job's key is what one of its submissions stored. */
  ghost predicate ResultTracked(s: State, job: string) {
    ResultKey(job) in s.store ==>
      exists n :: 0 <= n < |s.calls| && s.calls[n].job == job && s.calls[n].outcome.Stored?
               && s.store[ResultKey(job)] == ResultVector(s.calls[n].outcome.values)
  }

  lemma InfoTrackedStep(e: real -> real, s: State, step: Step, job: string)
    requires InfoTracked(s, job) && !step.Foreign?
    ensures InfoTracked(Apply(e, s, step), job)
  {
    var s', w := Apply(e, s, step), KeyWritten(s, step);
    KeptStep(e, s, step);
    if w == Some(KeyUse.Metadata(job)) {
      assert s' != s ==> s'.calls[|s.calls|].job == job;
    } else {
      if w.Some? { KeyWrittenElsewhere(s, step, KeyUse.Metadata(job)); }
      OneKeyWritten(e, s, step, MetadataKey(job));
    }
  }

  lemma ResultTrackedStep(e: real -> real, s: State, step: Step, job: string)
    requires ResultTracked(s, job) && ':' !in job && !step.Foreign?
    ensures ResultTracked(Apply(e, s, step), job)
  {
    var s', w := Apply(e, s, step), KeyWritten(s, step);
    KeptStep(e, s, step);
    if w == Some(KeyUse.Result(job)) {
      assert s'.calls[step.call].job == job;
    } else {
      if w.Some? { KeyWrittenElsewhere(s, step, KeyUse.Result(job)); }
      OneKeyWritten(e, s, step, ResultKey(job));
    }
  }

  lemma TrackedStep(e: real -> real, s: State, step: Step, job: string)
    requires InfoTracked(s, job) && (':' !in job ==> ResultTracked(s, job)) && !step.Foreign?
    ensures InfoTracked(Apply(e, s, step), job)
    ensures ':' !in job ==> ResultTracked(Apply(e, s, step), job)
  {
    InfoTrackedStep(e, s, step, job);
    if ':' !in job {
      ResultTrackedStep(e, s, step, job);
    }
  }

  /**
   Whatever the steps, as long as nobody outside the system writes keys: what stands under a job's keys comes
   from its submissions.
   */
  lemma {:induction false} TrackedRun(e: real -> real, states: seq<State>, steps: seq<Step>, job: string, t: nat)
    requires IsRun(e, states, steps) && t <= |steps|
    requires forall k :: 0 <= k < |steps| ==> !steps[k].Foreign?
    requires InfoTracked(states[0], job) && ResultTracked(states[0], job)
    ensures InfoTracked(states[t], job)
    ensures ':' !in job ==> ResultTracked(states[t], job)
  {
    if t > 0 {
      TrackedRun(e, states, steps, job, t - 1);
      assert StepAt(e, states, steps, t - 1);
      TrackedStep(e, states[t - 1], steps[t - 1], job);
    }
  }

  /** The converse: whoever submits makes the job known. */
  ghost predicate InfoKnown(s: State, job: string) {
    (exists n :: 0 <= n < |s.calls| && s.calls[n].job == job) ==> MetadataKey(job) in s.store
  }

  lemma InfoKnownStep(e: real -> real, s: State, step: Step, job: string)
    requires InfoKnown(s, job) && step != Expire(MetadataKey(job))
    ensures InfoKnown(Apply(e, s, step), job)
  {
    var s' := Apply(e, s, step);
    if n :| 0 <= n < |s'.calls| && s'.calls[n].job == job {
      if n < |s.calls| {
        CallFrame(e, s, step, n);
        assert s.calls[n].job == job;
      } else {
        assert step.Submit? && step.job == job;
      }
    }
  }

  lemma {:induction false} InfoKnownRun(e: real -> real, states: seq<State>, steps: seq<Step>, job: string, t: nat)
    requires IsRun(e, states, steps) && t <= |steps| && InfoKnown(states[0], job)
    requires forall k :: 0 <= k < |steps| ==> steps[k] != Expire(MetadataKey(job))
    ensures InfoKnown(states[t], job)
  {
    if t > 0 {
      InfoKnownRun(e, states, steps, job, t - 1);
      assert StepAt(e, states, steps, t - 1);
      InfoKnownStep(e, states[t - 1], steps[t - 1], job);
    }
  }

  // ----- Notifications follow the slices they announce

  /** Before moment `t`, some worker wrote the slice of message `m`. */
  ghost predicate WrittenBefore(states: seq<State>, steps: seq<Step>, t: nat, m: Message)
    requires t <= |steps| <= |states|
  {
    exists k :: 0 <= k < t && steps[k].Write? && steps[k].m == m && m in states[k].held && m.data != []
  }

  ghost predicate AnnouncedOk(states: seq<State>, steps: seq<Step>, t: nat)
    requires t <= |steps| < |states|
  {
    && (forall m :: m in states[t].unannounced ==> WrittenBefore(states, steps, t, m))
    && (forall job :: job in states[t].announced ==>
          exists m: Message :: m.job == job && WrittenBefore(states, steps, t, m))
  }

  lemma ComesToBeUnannounced(e: real -> real, s: State, step: Step, m: Message)
    requires m in Apply(e, s, step).unannounced
    ensures m in s.unannounced || (step.Write? && step.m == m && m in s.held && m.data != [])
  {
  }

  lemma ComesToBeAnnounced(e: real -> real, s: State, step: Step, job: string)
    requires job in Apply(e, s, step).announced
    ensures job in s.announced || (step.Announce? && step.m.job == job && step.m in s.unannounced)
  {
  }

  lemma UnannouncedIsWritten(e: real -> real, states: seq<State>, steps: seq<Step>, t: nat, m: Message)
    requires IsRun(e, states, steps) && t < |steps| && AnnouncedOk(states, steps, t) && m in states[t + 1].unannounced
    ensures WrittenBefore(states, steps, t + 1, m)
  {
    assert StepAt(e, states, steps, t);
    ComesToBeUnannounced(e, states[t], steps[t], m);
    if m in states[t].unannounced {
      WrittenStays(states, steps, t, m);
    }
  }

  lemma AnnouncedIsWritten(e: real -> real, states: seq<State>, steps: seq<Step>, t: nat, job: string)
    returns (m: Message)
    requires IsRun(e, states, steps) && t < |steps| && AnnouncedOk(states, steps, t) && job in states[t + 1].announced
    ensures m.job == job && WrittenBefore(states, steps, t + 1, m)
  {
    assert StepAt(e, states, steps, t);
    ComesToBeAnnounced(e, states[t], steps[t], job);
    if job in states[t].announced {
      m :| m.job == job && WrittenBefore(states, steps, t, m);
    } else {
      m := steps[t].m;
    }
    WrittenStays(states, steps, t, m);
  }

  /**
   Where nothing was written or announced before, a notification is only sent for a job of which a slice has been
   written.
   */
  lemma {:induction false} AnnouncedAfterWritten(e: real -> real, states: seq<State>, steps: seq<Step>, t: nat)
    requires IsRun(e, states, steps) && t <= |steps|
    requires states[0].unannounced == multiset{} && states[0].announced == {}
    ensures AnnouncedOk(states, steps, t)
  {
    if t > 0 {
      AnnouncedAfterWritten(e, states, steps, t - 1);
      forall m | m in states[t].unannounced ensures WrittenBefore(states, steps, t, m) {
        UnannouncedIsWritten(e, states, steps, t - 1, m);
      }
      forall job | job in states[t].announced
        ensures exists m: Message :: m.job == job && WrittenBefore(states, steps, t, m)
      {
        var m := AnnouncedIsWritten(e, states, steps, t - 1, job);
      }
    }
  }

  /** A worker that has written a slice, which can then be read, goes on to announce it, unless it dies first. */
  lemma WriteThenAnnounce(e: real -> real, s: State, m: Message, worker: Worker)
    requires m in s.held && m.data != []
    ensures
      var s' := Apply(e, s, Write(m, worker));
      && ReadableAt(s'.store, m.job, m.sliceId) == Some(WorkerStats(e, m.data, worker))
      && s'.held == s.held - multiset{m} && s'.queue == s.queue && s'.calls == s.calls
      && m.job in Apply(e, s', Announce(m)).announced
      && Apply(e, s', Crash(m)).unannounced == s.unannounced
  {
  }

  lemma WrittenStays(states: seq<State>, steps: seq<Step>, t: nat, m: Message)
    requires t < |steps| <= |states| && WrittenBefore(states, steps, t, m)
    ensures WrittenBefore(states, steps, t + 1, m)
  {
  }

  // ----- What the environment can do at any time

  lemma WithoutOne(q: seq<Message>, k: nat)
    requires k < |q|
    ensures multiset(q[..k] + q[k + 1..]) == multiset(q) - multiset{q[k]}
  {
    assert q == q[..k] + ([q[k]] + q[k + 1..]);
  }

  /** Any queued message may be pulled, by anybody, or be lost. */
  lemma QueueIsUnreliable(e: real -> real, s: State, k: nat)
    requires k < |s.queue|
    ensures multiset(Apply(e, s, Lose(k)).queue) == multiset(s.queue) - multiset{s.queue[k]}
    ensures multiset(Apply(e, s, Pull(k)).queue) == multiset(s.queue) - multiset{s.queue[k]}
    ensures Apply(e, s, Pull(k)).held == s.held + multiset{s.queue[k]} && Apply(e, s, Lose(k)).held == s.held
  {
    WithoutOne(s.queue, k);
  }

  /** Any key may expire or be written by others, and a worker may die with what it holds. */
  lemma EnvironmentIsFree(e: real -> real, s: State, key: string, value: Value, m: Message)
    ensures key !in Apply(e, s, Expire(key)).store
    ensures key in Apply(e, s, Foreign(key, value)).store && Apply(e, s, Foreign(key, value)).store[key] == value
    ensures m in s.held ==> Apply(e, s, Crash(m)).held[m] == s.held[m] - 1
    ensures m in s.unannounced ==> m.job in Apply(e, s, Announce(m)).announced
  {
  }

  // ----- Ids are not always clear: slice keys never expire

  const NOTHING := State(map[], [], [], multiset{}, multiset{}, {})

  lemma Extend(e: real -> real, states: seq<State>, steps: seq<Step>, step: Step)
    returns (states': seq<State>, steps': seq<Step>)
    requires IsRun(e, states, steps)
    ensures IsRun(e, states', steps')
    ensures states' == states + [Apply(e, states[|steps|], step)] && steps' == steps + [step]
  {
    RunMore(e, states, steps, step);
    states', steps' := states + [Apply(e, states[|steps|], step)], steps + [step];
  }

  /** The system when a first submission of `[x]` under the id `job` is published and pulled. */
  function Pulled(x: real): State {
    State(map[MetadataKey("job") := JobInfo(1)], [Call("job", [x], [[x]], false, 1, {}, Open)], [],
          multiset{Message("job", 0, [x])}, multiset{}, {})
  }

  lemma FirstPulled(e: real -> real, x: real) returns (states: seq<State>, steps: seq<Step>)
    ensures IsRun(e, states, steps) && states[0] == NOTHING && states[|steps|] == Pulled(x)
    ensures forall t :: 0 <= t < |steps| ==> !steps[t].Foreign?
  {
    var m, c := Message("job", 0, [x]), Call("job", [x], [[x]], false, 0, {}, Open);
    assert Flatten([[x]]) == [x] + Flatten([]) == [x];
    states, steps := Extend(e, [NOTHING], [], Submit("job", [x], [[x]], false));
    assert states[1] == NOTHING.(calls := [c], store := map[MetadataKey("job") := JobInfo(1)]);
    states, steps := Extend(e, states, steps, Publish(0));
    assert states[2] == states[1].(calls := [c.(published := 1)], queue := [m]);
    states, steps := Extend(e, states, steps, Pull(0));
  }

  /** The store after the first submission's only slice has been written. */
  lemma FirstSubmission(e: real -> real, x: real) returns (states: seq<State>, steps: seq<Step>)
    ensures IsRun(e, states, steps) && states[0] == NOTHING
    ensures |states[|steps|].calls| == 1
    ensures ReadableAt(states[|steps|].store, "job", 0) == Some(SoftmaxPartial(e, [x]))
    ensures forall t :: 0 <= t < |steps| ==> !steps[t].Foreign?
  {
    states, steps := FirstPulled(e, x);
    states, steps := Extend(e, states, steps, Write(Message("job", 0, [x]), Cpu));
  }

  /**
   The code accepts an id that was used before, and slice keys never expire. Then a second submission,
   of two elements in one slice, reads the first one's slice at once and stores a vector of length one.
   */
  lemma ReusedJobIdGoesWrong(e: real -> real, x: real, y: real) returns (states: seq<State>, steps: seq<Step>)
    ensures IsRun(e, states, steps) && states[0] == NOTHING
    ensures forall t :: 0 <= t < |steps| ==> !steps[t].Foreign?
    ensures var s := states[|steps|];
            && |s.calls| == 2 && s.calls[1].vector == [x, y] && s.calls[1].outcome.Stored?
            && s.calls[1].outcome.values != Softmax(e, [x, y])
  {
    states, steps := FirstSubmission(e, x);
    var stale := SoftmaxPartial(e, [x]);
    var again := Submit("job", [x, y], [[x, y]], false);
    assert Flatten([[x, y]]) == [x, y] + Flatten([]) == [x, y];
    SliceKeyIsNotMetadataKey("job", 0, "job");
    states, steps := Extend(e, states, steps, again);
    states, steps := Extend(e, states, steps, Read(1, 0));
    assert states[|steps|].calls[1].seen == {(0, stale)};
    SingleSliceLength(e, stale);
    states, steps := Extend(e, states, steps, StoreResult(1, [stale]));
  }

  lemma SingleSliceLength(e: real -> real, s: SliceStats)
    ensures |Aggregate(e, [s])| == |s.expValues|
  {
    assert [s][1..] == [];
    assert ConcatValues([s]) == s.expValues + ConcatValues([]);
    var g := MaxOf(LocalMaxes([s]));
    var sum := GlobalSum(e, [s], g);
    assert NormalizeAll(e, [s], g, sum) ==
      NormalizeSlice(s.expValues, Exp(e, s.localMax - g), sum) + NormalizeAll(e, [], g, sum);
  }
}
