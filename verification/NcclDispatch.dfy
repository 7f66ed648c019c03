/**
 Rank-pinned dispatch and the lock step of the collectives.

 The gateway pushes slice `r` of each job to the queue of rank `r`. Every rank pulls from its own
 queue and takes part in two collectives per message; a collective completes when all ranks have
 entered it, whatever job each of them is working on.
 */
module NcclDispatch {
  import opened Exponential
  import opened Vectors
  import opened Aggregation
  import opened Kernels
  import opened GpuWorker
  import opened GpuAggregator
  import opened Keys
  import opened Messages
  import System

  // ----- The publisher: one queue per rank

  datatype PublishResult = Sent | InvalidRank | RankOutOfRange | ChannelClosed

  class ZmqMultiPublisher {
    var queues: seq<seq<Message>>
    /** Ranks whose sending thread is gone. */
    var closed: set<nat>

    ghost predicate Valid()
      reads this
    {
      |queues| <= USIZE_MAX
    }

    constructor (worldSize: nat)
      requires worldSize <= USIZE_MAX
      ensures Valid() && closed == {}
      ensures |queues| == worldSize && forall r :: 0 <= r < worldSize ==> queues[r] == []
    {
      queues, closed := seq(worldSize, _ => []), {};
    }

    /** The subject is the rank in decimal; the message goes to that rank's queue and to no other. */
    method Publish(subject: string, payload: Message) returns (r: PublishResult)
      requires Valid()
      modifies this`queues
      ensures Valid()
      ensures r.InvalidRank? <==> ParseUsize(subject) == -1
      ensures r.Sent? || r.ChannelClosed? <==> 0 <= ParseUsize(subject) < |old(queues)|
      ensures r.ChannelClosed? ==> ParseUsize(subject) in closed
      ensures r.Sent? ==> ParseUsize(subject) !in closed
      ensures queues == if r.Sent? then old(queues)[ParseUsize(subject) := old(queues)[ParseUsize(subject)] + [payload]]
                        else old(queues)
    {
      var rank := ParseUsize(subject);
      if rank == -1 {
        return InvalidRank;
      }
      if |queues| <= rank {
        return RankOutOfRange;
      }
      if rank in closed {
        return ChannelClosed;
      }
      queues := queues[rank := queues[rank] + [payload]];
      return Sent;
    }

    /** A slice goes to the rank with its number. */
    method PublishSlice(m: Message) returns (ok: bool)
      requires Valid() && m.sliceId < |queues|
      modifies this`queues
      ensures Valid() && (ok <==> m.sliceId !in closed)
      ensures queues == if ok then old(queues)[m.sliceId := old(queues)[m.sliceId] + [m]] else old(queues)
    {
      ParseUsizeOfDecimal(m.sliceId);
      var result := Publish(Decimal(m.sliceId), m);
      ok := result.Sent?;
    }

    /**
     One job's publish loop on its own: every rank's queue grows by exactly that rank's slice, up to the first
     rank whose channel is closed, where the loop stops.
     */
    method PublishJob(job: string, slices: seq<seq<real>>) returns (sent: nat)
      requires Valid() && |slices| == |queues|
      modifies this`queues
      ensures Valid() && |queues| == |old(queues)|
      ensures sent <= |slices| && (forall r :: 0 <= r < sent ==> r !in closed) && (sent < |slices| ==> sent in closed)
      ensures forall r :: 0 <= r < |queues| ==>
        queues[r] == if r < sent then old(queues)[r] + [Message(job, r, slices[r])] else old(queues)[r]
    {
      for sliceId := 0 to |slices|
        invariant Valid() && |queues| == |old(queues)|
        invariant forall r :: 0 <= r < sliceId ==> r !in closed
        invariant forall r :: 0 <= r < |queues| ==>
          queues[r] == if r < sliceId then old(queues)[r] + [Message(job, r, slices[r])] else old(queues)[r]
      {
        var ok := PublishSlice(Message(job, sliceId, slices[sliceId]));
        if !ok {
          return sliceId;
        }
      }
      sent := |slices|;
    }
  }

  // ----- The system of one gateway and its ranks

  datatype Stage = Idle | InMax | InSum | Writing

  /** How many messages a rank has pulled, and what it is doing with the last one. */
  datatype Rank = Rank(pulled: nat, stage: Stage)

  datatype Job = Job(id: string, slices: seq<seq<real>>)

  /** A publish loop under way: which dispatched job it belongs to, and which slice comes next. */
  datatype Loop = Loop(index: nat, next: nat)

  /**
   `logs[r]` is everything ever pushed to rank `r`, of which the rank has pulled a prefix. `globalMax` and
   `globalSum` are the results of the latest collectives, `rounds` the number of collectives completed.
   */
  datatype State = State(logs: seq<seq<Message>>, ranks: seq<Rank>, dispatched: seq<Job>, loops: seq<Loop>,
                         globalMax: real, globalSum: real, rounds: nat, written: map<(string, nat), seq<real>>)

  datatype Step =
    | Begin(job: Job)
    | Push(loop: nat)
    | Abort(loop: nat)
    | Pull(rank: nat)
    | ReduceMax
    | ReduceSum
    | Write(rank: nat)

  function Initial(worldSize: nat): State {
    State(seq(worldSize, _ => []), seq(worldSize, _ => Rank(0, Idle)), [], [], 0.0, 0.0, 0, map[])
  }

  /** The message a rank is working on. */
  function Current(s: State, r: nat): Message {
    if r < |s.logs| && r < |s.ranks| && 0 < s.ranks[r].pulled <= |s.logs[r]| then
      s.logs[r][s.ranks[r].pulled - 1]
    else Message("", 0, [])
  }

  /** What each rank contributes its data from. */
  function RankData(s: State): (d: seq<seq<real>>)
    ensures |d| == |s.ranks|
    ensures forall r :: 0 <= r < |d| ==> d[r] == Current(s, r).data
  {
    seq(|s.ranks|, r requires 0 <= r < |s.ranks| => Current(s, r).data)
  }

  /** A rank's contribution to the first collective. No rank is ever given an empty slice. */
  function LocalMax(slice: seq<real>): real {
    if slice == [] then MAX_PAD else GpuMax(slice)
  }

  /** The result of the first collective: the largest of the ranks' maxima. */
  function LargestMax(data: seq<seq<real>>): real {
    if data == [] then MAX_PAD
    else if |data| == 1 then LocalMax(data[0])
    else Max(LocalMax(data[0]), LargestMax(data[1..]))
  }

  /** It bounds the ranks' maxima and is one of them; each of these is the padded maximum of the rank's slice. */
  lemma {:induction false} LargestMaxIs(data: seq<seq<real>>)
    requires data != []
    ensures forall r :: 0 <= r < |data| ==> LocalMax(data[r]) <= LargestMax(data)
    ensures exists r :: 0 <= r < |data| && LocalMax(data[r]) == LargestMax(data)
    ensures forall r :: 0 <= r < |data| && data[r] != [] ==> PaddedMax(data[r], LocalMax(data[r]))
  {
    forall r | 0 <= r < |data| && data[r] != [] ensures PaddedMax(data[r], LocalMax(data[r])) {
      GpuMaxIsPadded(data[r]);
    }
    if 2 <= |data| {
      LargestMaxIs(data[1..]);
      var r :| 0 <= r < |data[1..]| && LocalMax(data[1..][r]) == LargestMax(data[1..]);
      assert data[1..][r] == data[r + 1];
      forall k | 1 <= k < |data| ensures LocalMax(data[k]) <= LargestMax(data) {
        assert data[k] == data[1..][k - 1];
      }
    }
  }

  predicate AllAt(s: State, stage: Stage) {
    forall r | 0 <= r < |s.ranks| :: s.ranks[r].stage == stage
  }

  function Apply(e: real -> real, s: State, step: Step): State {
    match step
    case Begin(job) =>
      if |job.slices| == |s.logs| then
        s.(dispatched := s.dispatched + [job], loops := s.loops + [Loop(|s.dispatched|, 0)])
      else s
    case Push(i) =>
      if i < |s.loops| && s.loops[i].index < |s.dispatched| then
        var Loop(k, r) := s.loops[i];
        if r < |s.logs| && r < |s.dispatched[k].slices| then
          var message := Message(s.dispatched[k].id, r, s.dispatched[k].slices[r]);
          s.(logs := s.logs[r := s.logs[r] + [message]],
             loops := if r + 1 == |s.logs| then s.loops[..i] + s.loops[i + 1..] else s.loops[i := Loop(k, r + 1)])
        else s
      else s
    case Abort(i) =>
      if i < |s.loops| then s.(loops := s.loops[..i] + s.loops[i + 1..]) else s
    case Pull(r) =>
      if r < |s.ranks| && r < |s.logs| && s.ranks[r].stage == Idle && s.ranks[r].pulled < |s.logs[r]| then
        s.(ranks := s.ranks[r := Rank(s.ranks[r].pulled + 1, InMax)])
      else s
    case ReduceMax =>
      if AllAt(s, InMax) then
        s.(globalMax := LargestMax(RankData(s)), rounds := s.rounds + 1, ranks := Moved(s.ranks, InSum))
      else s
    case ReduceSum =>
      if AllAt(s, InSum) then
        s.(globalSum := AllReduceSum(e, RankData(s), s.globalMax), rounds := s.rounds + 1,
           ranks := Moved(s.ranks, Writing))
      else s
    case Write(r) =>
      if r < |s.ranks| && s.ranks[r].stage == Writing then
        var m := Current(s, r);
        s.(written := s.written[(m.job, m.sliceId) := AllReduceSlice(e, m.data, s.globalMax, s.globalSum)],
           ranks := s.ranks[r := Rank(s.ranks[r].pulled, Idle)])
      else s
  }

  function Moved(ranks: seq<Rank>, stage: Stage): (r: seq<Rank>)
    ensures |r| == |ranks|
    ensures forall i :: 0 <= i < |r| ==> r[i] == Rank(ranks[i].pulled, stage)
  {
    seq(|ranks|, i requires 0 <= i < |ranks| => Rank(ranks[i].pulled, stage))
  }

  ghost predicate StepAt(e: real -> real, states: seq<State>, steps: seq<Step>, t: nat)
    requires t < |steps| && |states| == |steps| + 1
  {
    states[t + 1] == Apply(e, states[t], steps[t])
  }

  /** `steps` lead through `states`, starting with nothing dispatched to `worldSize` ranks. */
  ghost predicate IsRun(e: real -> real, worldSize: nat, states: seq<State>, steps: seq<Step>) {
    && 0 < worldSize && |states| == |steps| + 1 && states[0] == Initial(worldSize)
    && forall t :: 0 <= t < |steps| ==> StepAt(e, states, steps, t)
  }

  // ----- In every run: the ranks go through the collectives in lock step

  predicate Waiting(rank: Rank) {
    rank.stage == InMax || rank.stage == InSum
  }

  /** The number of collectives completed determines where a rank can be. */
  predicate InStep(rank: Rank, rounds: nat) {
    match rank.stage
    case Idle => rounds == 2 * rank.pulled
    case InMax => rounds == 2 * rank.pulled - 2
    case InSum => rounds == 2 * rank.pulled - 1
    case Writing => rounds == 2 * rank.pulled && 0 < rank.pulled
  }

  ghost predicate LockStep(s: State, worldSize: nat) {
    && 0 < worldSize == |s.logs| == |s.ranks|
    && forall r :: 0 <= r < |s.ranks| ==> InStep(s.ranks[r], s.rounds) && s.ranks[r].pulled <= |s.logs[r]|
  }

  lemma LockStepKept(e: real -> real, s: State, step: Step, worldSize: nat)
    requires LockStep(s, worldSize)
    ensures LockStep(Apply(e, s, step), worldSize)
  {
  }

  lemma {:induction false} LockStepRun(e: real -> real, worldSize: nat, states: seq<State>, steps: seq<Step>, t: nat)
    requires IsRun(e, worldSize, states, steps) && t <= |steps|
    ensures LockStep(states[t], worldSize)
  {
    if t > 0 {
      LockStepRun(e, worldSize, states, steps, t - 1);
      assert StepAt(e, states, steps, t - 1);
      LockStepKept(e, states[t - 1], steps[t - 1], worldSize);
    }
  }

  /**
   In every run, whatever the publish loops do: two ranks waiting in a collective are in the same one, and
   both work on the message with the same number in their queues. So they mix jobs exactly when the
   queues hold messages of different jobs under that number.
   */
  lemma WaitingRanksMatch(e: real -> real, worldSize: nat, states: seq<State>, steps: seq<Step>, t: nat, q: nat, r: nat)
    requires IsRun(e, worldSize, states, steps) && t <= |steps|
    requires q < |states[t].ranks| && r < |states[t].ranks|
    requires Waiting(states[t].ranks[q]) && Waiting(states[t].ranks[r])
    ensures var s := states[t];
            && |s.logs| == |s.ranks| && s.ranks[q].stage == s.ranks[r].stage
            && 0 < s.ranks[q].pulled == s.ranks[r].pulled
            && s.ranks[q].pulled <= |s.logs[q]| && s.ranks[q].pulled <= |s.logs[r]|
            && Current(s, q) == s.logs[q][s.ranks[q].pulled - 1] && Current(s, r) == s.logs[r][s.ranks[q].pulled - 1]
  {
    LockStepRun(e, worldSize, states, steps, t);
    assert InStep(states[t].ranks[q], states[t].rounds) && InStep(states[t].ranks[r], states[t].rounds);
  }

  // ----- What happens between a pull and the write that follows

  /** What rank `r` pulled at step `p` is what it works on at moment `t`. */
  ghost predicate PulledAt(states: seq<State>, steps: seq<Step>, r: nat, p: nat, t: nat)
    requires |states| == |steps| + 1 && t < |states|
  {
    p < t && steps[p] == Pull(r) && Current(states[p + 1], r) == Current(states[t], r)
  }

  /** At step `m` all ranks went through the first collective, with the data they work on at moment `t`. */
  ghost predicate MaxTaken(states: seq<State>, steps: seq<Step>, m: nat, t: nat)
    requires |states| == |steps| + 1 && t < |states|
  {
    && m < t && steps[m] == ReduceMax && AllAt(states[m], InMax)
    && |states[t].ranks| == |states[m].ranks| && states[t].globalMax == LargestMax(RankData(states[m]))
  }

  /** At step `s` all ranks went through the second, with the same data as at step `m` through the first. */
  ghost predicate SumTaken(e: real -> real, states: seq<State>, steps: seq<Step>, m: nat, s: nat, t: nat)
    requires |states| == |steps| + 1 && t < |states|
  {
    && m < s < t && steps[s] == ReduceSum && AllAt(states[s], InSum) && RankData(states[s]) == RankData(states[m])
    && states[t].globalSum == AllReduceSum(e, RankData(states[m]), states[t].globalMax)
  }

  ghost predicate WentThrough(e: real -> real, states: seq<State>, steps: seq<Step>, r: nat, t: nat)
    requires |states| == |steps| + 1 && t < |states| && r < |states[t].ranks|
  {
    match states[t].ranks[r].stage
    case Idle => true
    case InMax => exists p :: PulledAt(states, steps, r, p, t)
    case InSum =>
      && AllAt(states[t], InSum)
      && exists p, m :: PulledAt(states, steps, r, p, t) && p < m && MaxTaken(states, steps, m, t)
                     && RankData(states[m]) == RankData(states[t])
    case Writing =>
      exists p, m, s :: PulledAt(states, steps, r, p, t) && p < m && MaxTaken(states, steps, m, t)
                     && SumTaken(e, states, steps, m, s, t)
  }

  lemma SameMessage(e: real -> real, worldSize: nat, s: State, step: Step, r: nat)
    requires LockStep(s, worldSize) && r < worldSize && 0 < s.ranks[r].pulled
    requires step != Pull(r) || s.ranks[r].stage != Idle
    ensures Current(Apply(e, s, step), r) == Current(s, r)
  {
  }

  lemma SameData(e: real -> real, worldSize: nat, s: State, step: Step)
    requires LockStep(s, worldSize) && (AllAt(s, InMax) || AllAt(s, InSum))
    ensures RankData(Apply(e, s, step)) == RankData(s)
  {
    var s' := Apply(e, s, step);
    forall r | 0 <= r < worldSize ensures Current(s', r) == Current(s, r) {
      assert InStep(s.ranks[r], s.rounds);
      SameMessage(e, worldSize, s, step, r);
    }
  }

  /** One step of the run, for a rank that does not pull. */
  lemma WentThroughStep(e: real -> real, worldSize: nat, states: seq<State>, steps: seq<Step>, r: nat, t: nat)
    requires IsRun(e, worldSize, states, steps) && t < |steps| && r < worldSize && LockStep(states[t], worldSize)
    requires LockStep(states[t + 1], worldSize) && WentThrough(e, states, steps, r, t)
    requires steps[t] != Pull(r) || states[t].ranks[r].stage != Idle
    requires states[t].ranks[r].stage in {Idle, InMax}
    ensures WentThrough(e, states, steps, r, t + 1)
  {
    assert StepAt(e, states, steps, t);
    assert InStep(states[t].ranks[r], states[t].rounds);
    if states[t + 1].ranks[r].stage != Idle {
      SameMessage(e, worldSize, states[t], steps[t], r);
      match states[t].ranks[r].stage
      case Idle =>
      case InMax =>
        var p :| PulledAt(states, steps, r, p, t);
        assert PulledAt(states, steps, r, p, t + 1);
        if steps[t].ReduceMax? && AllAt(states[t], InMax) {
          SameData(e, worldSize, states[t], steps[t]);
          assert MaxTaken(states, steps, t, t + 1);
        }
    }
  }

  /** The same, for a rank between its collectives. */
  lemma SumFollowsMax(e: real -> real, worldSize: nat, states: seq<State>, steps: seq<Step>, r: nat, t: nat)
    requires IsRun(e, worldSize, states, steps) && t < |steps| && r < worldSize && LockStep(states[t], worldSize)
    requires LockStep(states[t + 1], worldSize) && WentThrough(e, states, steps, r, t)
    requires states[t].ranks[r].stage == InSum
    ensures WentThrough(e, states, steps, r, t + 1)
  {
    assert StepAt(e, states, steps, t);
    assert InStep(states[t].ranks[r], states[t].rounds);
    var p, m :| PulledAt(states, steps, r, p, t) && p < m && MaxTaken(states, steps, m, t)
             && RankData(states[m]) == RankData(states[t]);
    SameData(e, worldSize, states[t], steps[t]);
    SameMessage(e, worldSize, states[t], steps[t], r);
    assert PulledAt(states, steps, r, p, t + 1) && MaxTaken(states, steps, m, t + 1);
    if steps[t].ReduceSum? {
      assert SumTaken(e, states, steps, m, t, t + 1);
    }
  }

  /** The same, for a rank about to write. */
  lemma WriteFollowsSum(e: real -> real, worldSize: nat, states: seq<State>, steps: seq<Step>, r: nat, t: nat)
    requires IsRun(e, worldSize, states, steps) && t < |steps| && r < worldSize && LockStep(states[t], worldSize)
    requires LockStep(states[t + 1], worldSize) && WentThrough(e, states, steps, r, t)
    requires states[t].ranks[r].stage == Writing
    ensures WentThrough(e, states, steps, r, t + 1)
  {
    assert StepAt(e, states, steps, t);
    assert InStep(states[t].ranks[r], states[t].rounds);
    if states[t + 1].ranks[r].stage != Idle {
      SameMessage(e, worldSize, states[t], steps[t], r);
      var p, m, s :| PulledAt(states, steps, r, p, t) && p < m && MaxTaken(states, steps, m, t)
                  && SumTaken(e, states, steps, m, s, t);
      assert PulledAt(states, steps, r, p, t + 1) && MaxTaken(states, steps, m, t + 1);
      assert SumTaken(e, states, steps, m, s, t + 1);
    }
  }

  /**
   In every run, whatever the publish loops do: between a rank's pull and its write, all ranks went through two
   collectives together, in each with the same data, and their results are the maximum and the sum it writes with.
   */
  lemma {:induction false} WriteFollowsTwoCollectives(e: real -> real, worldSize: nat, states: seq<State>,
                                                      steps: seq<Step>, r: nat, t: nat)
    requires IsRun(e, worldSize, states, steps) && t <= |steps| && r < worldSize
    ensures r < |states[t].ranks| && WentThrough(e, states, steps, r, t)
  {
    LockStepRun(e, worldSize, states, steps, t);
    if t > 0 {
      LockStepRun(e, worldSize, states, steps, t - 1);
      WriteFollowsTwoCollectives(e, worldSize, states, steps, r, t - 1);
      if steps[t - 1] == Pull(r) && states[t - 1].ranks[r].stage == Idle {
        assert StepAt(e, states, steps, t - 1);
        if states[t].ranks[r].stage != Idle {
          assert PulledAt(states, steps, r, t - 1, t);
        }
      } else {
        match states[t - 1].ranks[r].stage
        case InSum => SumFollowsMax(e, worldSize, states, steps, r, t - 1);
        case Writing => WriteFollowsSum(e, worldSize, states, steps, r, t - 1);
        case _ => WentThroughStep(e, worldSize, states, steps, r, t - 1);
      }
    }
  }

  // ----- When ranks come to mix jobs

  predicate RankStep(step: Step) {
    step.Pull? || step.ReduceMax? || step.ReduceSum? || step.Write?
  }

  /** Two ranks wait in a collective with messages of different jobs. */
  ghost predicate Mixed(s: State) {
    exists q, r :: 0 <= q < |s.ranks| && 0 <= r < |s.ranks| && MixedAt(s, q, r)
  }

  ghost predicate MixedAt(s: State, q: nat, r: nat)
    requires q < |s.ranks| && r < |s.ranks|
  {
    Waiting(s.ranks[q]) && Waiting(s.ranks[r]) && Current(s, q).job != Current(s, r).job
  }

  /**
   Every rank has been sent messages up to number `p`, and two have been sent messages of different jobs as
   number `p`.
   */
  ghost predicate LogsDiffer(s: State, p: nat) {
    && (forall r :: 0 <= r < |s.logs| ==> p <= |s.logs[r]|)
    && exists q, r :: 0 <= q < |s.logs| && 0 <= r < |s.logs| && LogsDifferAt(s, p, q, r)
  }

  ghost predicate LogsDifferAt(s: State, p: nat, q: nat, r: nat)
    requires q < |s.logs| && r < |s.logs|
  {
    p < |s.logs[q]| && p < |s.logs[r]| && s.logs[q][p].job != s.logs[r][p].job
  }

  /** The run can go on, by steps of the ranks alone, to a state in which jobs are mixed. */
  ghost predicate CanMix(e: real -> real, worldSize: nat, states: seq<State>, steps: seq<Step>) {
    exists states', steps' :: Continues(e, worldSize, states, steps, states', steps') && Mixed(states'[|steps'|])
  }

  ghost predicate Continues(e: real -> real, worldSize: nat, states: seq<State>, steps: seq<Step>,
                            states': seq<State>, steps': seq<Step>) {
    && IsRun(e, worldSize, states, steps) && IsRun(e, worldSize, states', steps')
    && states <= states' && steps <= steps'
    && forall t :: |steps| <= t < |steps'| ==> RankStep(steps'[t])
  }

  lemma {:induction false} LogsStay(e: real -> real, worldSize: nat, states: seq<State>, steps: seq<Step>,
                                    states': seq<State>, steps': seq<Step>, t: nat)
    requires Continues(e, worldSize, states, steps, states', steps') && |steps| <= t <= |steps'|
    ensures states'[t].logs == states[|steps|].logs && states[|steps|].rounds <= states'[t].rounds
  {
    if t > |steps| {
      LogsStay(e, worldSize, states, steps, states', steps', t - 1);
      assert StepAt(e, states', steps', t - 1);
    }
  }

  lemma ContinueBy(e: real -> real, worldSize: nat, states0: seq<State>, steps0: seq<Step>, states: seq<State>,
                   steps: seq<Step>, step: Step)
    returns (states': seq<State>, steps': seq<Step>)
    requires Continues(e, worldSize, states0, steps0, states, steps) && RankStep(step)
    ensures Continues(e, worldSize, states0, steps0, states', steps')
    ensures states' == states + [Apply(e, states[|steps|], step)] && steps' == steps + [step]
  {
    states', steps' := states + [Apply(e, states[|steps|], step)], steps + [step];
    forall t | 0 <= t < |steps'| ensures StepAt(e, states', steps', t) {
      assert t < |steps| ==> StepAt(e, states, steps, t);
    }
  }

  /**
   Between collectives, a rank that has been sent its next message comes to wait with it, and nothing else
   changes for the others.
   */
  lemma ComesToWait(e: real -> real, worldSize: nat, states0: seq<State>, steps0: seq<Step>, states: seq<State>,
                    steps: seq<Step>, p: nat, r: nat)
    returns (states': seq<State>, steps': seq<Step>)
    requires Continues(e, worldSize, states0, steps0, states, steps)
    requires LockStep(states[|steps|], worldSize) && states[|steps|].rounds == 2 * p
    requires r < worldSize && p < |states[|steps|].logs[r]|
    ensures Continues(e, worldSize, states0, steps0, states', steps')
    ensures var s, s' := states[|steps|], states'[|steps'|];
            && LockStep(s', worldSize) && s'.rounds == 2 * p && s'.logs == s.logs && s'.ranks[r] == Rank(p + 1, InMax)
            && forall q :: 0 <= q < worldSize && q != r ==> s'.ranks[q] == s.ranks[q]
  {
    states', steps' := states, steps;
    assert InStep(states[|steps|].ranks[r], 2 * p);
    if states'[|steps'|].ranks[r].stage == Writing {
      LockStepKept(e, states'[|steps'|], Write(r), worldSize);
      states', steps' := ContinueBy(e, worldSize, states0, steps0, states', steps', Write(r));
    }
    if states'[|steps'|].ranks[r].stage == Idle {
      LockStepKept(e, states'[|steps'|], Pull(r), worldSize);
      states', steps' := ContinueBy(e, worldSize, states0, steps0, states', steps', Pull(r));
    }
  }

  /** When every rank has been sent message `p`, the ranks can go through its two collectives. */
  lemma GoThrough(e: real -> real, worldSize: nat, states0: seq<State>, steps0: seq<Step>, states: seq<State>,
                  steps: seq<Step>, p: nat)
    returns (states': seq<State>, steps': seq<Step>)
    requires Continues(e, worldSize, states0, steps0, states, steps)
    requires LockStep(states[|steps|], worldSize) && 2 * p <= states[|steps|].rounds < 2 * p + 2
    requires forall r :: 0 <= r < worldSize ==> p < |states[|steps|].logs[r]|
    ensures Continues(e, worldSize, states0, steps0, states', steps')
    ensures var s, s' := states[|steps|], states'[|steps'|];
            LockStep(s', worldSize) && s'.rounds == 2 * p + 2 && s'.logs == s.logs
  {
    states', steps' := states, steps;
    if states[|steps|].rounds == 2 * p {
      for k := 0 to worldSize
        invariant Continues(e, worldSize, states0, steps0, states', steps')
        invariant LockStep(states'[|steps'|], worldSize) && states'[|steps'|].rounds == 2 * p
        invariant states'[|steps'|].logs == states[|steps|].logs
        invariant forall r :: 0 <= r < k ==> states'[|steps'|].ranks[r] == Rank(p + 1, InMax)
      {
        states', steps' := ComesToWait(e, worldSize, states0, steps0, states', steps', p, k);
      }
      LockStepKept(e, states'[|steps'|], ReduceMax, worldSize);
      states', steps' := ContinueBy(e, worldSize, states0, steps0, states', steps', ReduceMax);
    }
    AllInSum(states'[|steps'|], worldSize, p);
    LockStepKept(e, states'[|steps'|], ReduceSum, worldSize);
    states', steps' := ContinueBy(e, worldSize, states0, steps0, states', steps', ReduceSum);
  }

  lemma AllInSum(s: State, worldSize: nat, p: nat)
    requires LockStep(s, worldSize) && s.rounds == 2 * p + 1
    ensures AllAt(s, InSum) && forall r :: 0 <= r < worldSize ==> s.ranks[r] == Rank(p + 1, InSum)
  {
    forall r | 0 <= r < worldSize ensures s.ranks[r] == Rank(p + 1, InSum) {
      assert InStep(s.ranks[r], s.rounds);
    }
  }

  /** The ranks can go on until message `p` is next, if all have been sent all messages before it. */
  lemma {:induction false} GoOnTo(e: real -> real, worldSize: nat, states0: seq<State>, steps0: seq<Step>,
                                  states: seq<State>, steps: seq<Step>, p: nat)
    returns (states': seq<State>, steps': seq<Step>)
    requires Continues(e, worldSize, states0, steps0, states, steps)
    requires LockStep(states[|steps|], worldSize) && states[|steps|].rounds < 2 * p + 2
    requires forall r :: 0 <= r < worldSize ==> p <= |states[|steps|].logs[r]|
    ensures Continues(e, worldSize, states0, steps0, states', steps')
    ensures var s, s' := states[|steps|], states'[|steps'|];
            LockStep(s', worldSize) && 2 * p <= s'.rounds < 2 * p + 2 && s'.logs == s.logs
    decreases 2 * p + 2 - states[|steps|].rounds
  {
    states', steps' := states, steps;
    if states[|steps|].rounds < 2 * p {
      states', steps' := GoThrough(e, worldSize, states0, steps0, states, steps, states[|steps|].rounds / 2);
      states', steps' := GoOnTo(e, worldSize, states0, steps0, states', steps', p);
    }
  }

  /** Two ranks that have been sent message `p` come to wait with it. */
  lemma BothComeToWait(e: real -> real, worldSize: nat, states0: seq<State>, steps0: seq<Step>, states: seq<State>,
                       steps: seq<Step>, p: nat, q: nat, r: nat)
    returns (states': seq<State>, steps': seq<Step>)
    requires Continues(e, worldSize, states0, steps0, states, steps)
    requires LockStep(states[|steps|], worldSize) && 2 * p <= states[|steps|].rounds < 2 * p + 2
    requires q < worldSize && r < worldSize && LogsDifferAt(states[|steps|], p, q, r)
    ensures Continues(e, worldSize, states0, steps0, states', steps')
    ensures Mixed(states'[|steps'|])
  {
    states', steps' := states, steps;
    if states[|steps|].rounds == 2 * p {
      states', steps' := ComesToWait(e, worldSize, states0, steps0, states', steps', p, q);
      states', steps' := ComesToWait(e, worldSize, states0, steps0, states', steps', p, r);
    } else {
      AllInSum(states[|steps|], worldSize, p);
    }
    assert MixedAt(states'[|steps'|], q, r);
  }

  /** If jobs are mixed, the logs differ at the message that is next. */
  lemma MixedLogsDiffer(s: State, worldSize: nat)
    requires LockStep(s, worldSize) && Mixed(s)
    ensures LogsDiffer(s, s.rounds / 2)
  {
    var q, r :| 0 <= q < |s.ranks| && 0 <= r < |s.ranks| && MixedAt(s, q, r);
    var p := s.rounds / 2;
    forall i | 0 <= i < |s.logs| ensures p <= |s.logs[i]| {
      assert InStep(s.ranks[i], s.rounds);
    }
    assert InStep(s.ranks[q], s.rounds) && InStep(s.ranks[r], s.rounds);
    assert LogsDifferAt(s, p, q, r);
  }

  /**
   Whatever the publish loops did: from any state of any run, the ranks can come to mix jobs exactly if, for some
   message number not yet through its collectives, everybody has been sent all messages before it, and two ranks
   have been sent messages of different jobs under it.
   */
  lemma RanksMixExactlyIfLogsDiffer(e: real -> real, worldSize: nat, states: seq<State>, steps: seq<Step>)
    requires IsRun(e, worldSize, states, steps)
    ensures CanMix(e, worldSize, states, steps) <==>
      exists p :: states[|steps|].rounds / 2 <= p && LogsDiffer(states[|steps|], p)
  {
    var s := states[|steps|];
    LockStepRun(e, worldSize, states, steps, |steps|);
    if CanMix(e, worldSize, states, steps) {
      var states', steps' :| Continues(e, worldSize, states, steps, states', steps') && Mixed(states'[|steps'|]);
      var s' := states'[|steps'|];
      LogsStay(e, worldSize, states, steps, states', steps', |steps'|);
      LockStepRun(e, worldSize, states', steps', |steps'|);
      MixedLogsDiffer(s', worldSize);
      var q, r :| 0 <= q < |s'.logs| && 0 <= r < |s'.logs| && LogsDifferAt(s', s'.rounds / 2, q, r);
      assert LogsDifferAt(s, s'.rounds / 2, q, r);
      assert LogsDiffer(s, s'.rounds / 2);
    }
    if p :| s.rounds / 2 <= p && LogsDiffer(s, p) {
      var q, r :| 0 <= q < |s.logs| && 0 <= r < |s.logs| && LogsDifferAt(s, p, q, r);
      var states', steps' := GoOnTo(e, worldSize, states, steps, states, steps, p);
      assert LogsDifferAt(states'[|steps'|], p, q, r);
      states', steps' := BothComeToWait(e, worldSize, states, steps, states', steps', p, q, r);
    }
  }

  // ----- With serialised publish loops: the same job, and each rank its own slice

  /** A loop starts only when no other is under way, and no publish fails. */
  predicate Serialised(s: State, step: Step) {
    (step.Begin? ==> s.loops == []) && !step.Abort?
  }

  ghost predicate SerialisedRun(states: seq<State>, steps: seq<Step>)
    requires |states| == |steps| + 1
  {
    forall t :: 0 <= t < |steps| ==> SerialisedAt(states, steps, t)
  }

  ghost predicate SerialisedAt(states: seq<State>, steps: seq<Step>, t: nat)
    requires t < |steps| && |states| == |steps| + 1
  {
    Serialised(states[t], steps[t])
  }

  /** How many messages rank `r` has been sent. */
  function SentTo(s: State, r: nat): int {
    |s.dispatched| - if s.loops != [] && s.loops[0].next <= r then 1 else 0
  }

  ghost predicate LogOk(s: State, r: nat)
    requires r < |s.logs|
  {
    && |s.logs[r]| == SentTo(s, r)
    && forall k :: 0 <= k < |s.logs[r]| ==>
         r < |s.dispatched[k].slices| && s.logs[r][k] == Message(s.dispatched[k].id, r, s.dispatched[k].slices[r])
  }

  ghost predicate InOrder(s: State) {
    && (s.loops == [] || (|s.loops| == 1 && s.loops[0].index + 1 == |s.dispatched| && s.loops[0].next < |s.logs|))
    && (forall k :: 0 <= k < |s.dispatched| ==> |s.dispatched[k].slices| == |s.logs|)
    && (forall r :: 0 <= r < |s.logs| ==> LogOk(s, r))
  }

  lemma InOrderKept(e: real -> real, s: State, step: Step, worldSize: nat)
    requires LockStep(s, worldSize) && InOrder(s) && Serialised(s, step)
    ensures InOrder(Apply(e, s, step))
  {
    var s' := Apply(e, s, step);
    forall r | 0 <= r < |s'.logs| ensures LogOk(s', r) {
      assert LogOk(s, r);
    }
  }

  lemma {:induction false} InOrderRun(e: real -> real, worldSize: nat, states: seq<State>, steps: seq<Step>, t: nat)
    requires IsRun(e, worldSize, states, steps) && SerialisedRun(states, steps) && t <= |steps|
    ensures LockStep(states[t], worldSize) && InOrder(states[t])
  {
    LockStepRun(e, worldSize, states, steps, t);
    if t == 0 {
      assert forall r :: 0 <= r < worldSize ==> LogOk(Initial(worldSize), r);
    } else {
      InOrderRun(e, worldSize, states, steps, t - 1);
      assert StepAt(e, states, steps, t - 1) && SerialisedAt(states, steps, t - 1);
      InOrderKept(e, states[t - 1], steps[t - 1], worldSize);
    }
  }

  /**
   No run with serialised loops has two ranks waiting in collectives of different jobs, and each rank holds its
   own slice.
   */
  lemma SerialisedLoopsKeepJobsApart(e: real -> real, worldSize: nat, states: seq<State>, steps: seq<Step>, t: nat,
                                     q: nat, r: nat)
    requires IsRun(e, worldSize, states, steps) && SerialisedRun(states, steps) && t <= |steps|
    requires q < |states[t].ranks| && r < |states[t].ranks|
    requires Waiting(states[t].ranks[q]) && Waiting(states[t].ranks[r])
    ensures exists k :: 0 <= k < |states[t].dispatched| && HoldsSlice(states[t], q, k) && HoldsSlice(states[t], r, k)
  {
    var s := states[t];
    WaitingRanksMatch(e, worldSize, states, steps, t, q, r);
    InOrderRun(e, worldSize, states, steps, t);
    var k := s.ranks[q].pulled - 1;
    assert LogOk(s, q) && LogOk(s, r);
    assert HoldsSlice(s, q, k) && HoldsSlice(s, r, k);
  }

  /** Where all logs name the same jobs in the same order, jobs are never mixed. */
  lemma SameOrderNeverMixes(e: real -> real, worldSize: nat, states: seq<State>, steps: seq<Step>)
    requires IsRun(e, worldSize, states, steps)
    requires forall p, q, r :: 0 <= p && 0 <= q < |states[|steps|].logs| && 0 <= r < |states[|steps|].logs| ==>
               !LogsDifferAt(states[|steps|], p, q, r)
    ensures !CanMix(e, worldSize, states, steps)
  {
    RanksMixExactlyIfLogsDiffer(e, worldSize, states, steps);
  }

  /** So with serialised loops the ranks can never come to mix jobs. */
  lemma SerialisedLoopsNeverMix(e: real -> real, worldSize: nat, states: seq<State>, steps: seq<Step>)
    requires IsRun(e, worldSize, states, steps) && SerialisedRun(states, steps)
    ensures !CanMix(e, worldSize, states, steps)
  {
    var s := states[|steps|];
    InOrderRun(e, worldSize, states, steps, |steps|);
    forall p, q, r | 0 <= p && 0 <= q < |s.logs| && 0 <= r < |s.logs| ensures !LogsDifferAt(s, p, q, r) {
      assert LogOk(s, q) && LogOk(s, r);
    }
    SameOrderNeverMixes(e, worldSize, states, steps);
  }

  ghost predicate HoldsSlice(s: State, r: nat, k: nat)
    requires k < |s.dispatched|
  {
    r < |s.dispatched[k].slices| && Current(s, r) == Message(s.dispatched[k].id, r, s.dispatched[k].slices[r])
  }

  // ----- The values written are the job's softmax

  ghost predicate IsSoftmaxSlice(e: real -> real, job: Job, r: nat, probs: seq<real>) {
    r < |job.slices| && probs == Divided(e, job.slices[r], Total(e, Flatten(job.slices)))
  }

  ghost predicate WrittenOk(e: real -> real, s: State, key: (string, nat))
    requires key in s.written
  {
    exists k :: 0 <= k < |s.dispatched| && s.dispatched[k].id == key.0
             && IsSoftmaxSlice(e, s.dispatched[k], key.1, s.written[key])
  }

  ghost predicate ValuesOk(e: real -> real, s: State) {
    && (forall k :: 0 <= k < |s.dispatched| ==> Flatten(s.dispatched[k].slices) != [])
    && SumOk(e, s)
    && (forall key :: key in s.written ==> WrittenOk(e, s, key))
  }

  /** When all ranks are in the second collective, they hold the slices of one job. */
  lemma CollectiveData(s: State, k: nat)
    requires LockStep(s, |s.ranks|) && InOrder(s) && AllAt(s, InSum)
    requires s.rounds == 2 * k + 1
    ensures k < |s.dispatched| && RankData(s) == s.dispatched[k].slices
    ensures forall r :: 0 <= r < |s.ranks| ==> s.ranks[r].pulled == k + 1
  {
    forall r | 0 <= r < |s.ranks|
      ensures s.ranks[r].pulled == k + 1 && k < |s.dispatched| && Current(s, r).data == s.dispatched[k].slices[r]
    {
      assert InStep(s.ranks[r], s.rounds);
      assert LogOk(s, r);
    }
    assert s.ranks[0].pulled == k + 1;
  }

  lemma SumKept(e: real -> real, s: State)
    requires IsExp(e) && LockStep(s, |s.ranks|) && InOrder(s) && ValuesOk(e, s)
    ensures ValuesOk(e, Apply(e, s, ReduceSum))
  {
    var s' := Apply(e, s, ReduceSum);
    if AllAt(s, InSum) {
      assert InStep(s.ranks[0], s.rounds);
      var k := s.ranks[0].pulled - 1;
      CollectiveData(s, k);
      AllReduceSumIsTotal(e, s.dispatched[k].slices, s.globalMax);
      forall key | key in s'.written ensures WrittenOk(e, s', key) {
        assert WrittenOk(e, s, key);
      }
    }
  }

  lemma WriteKept(e: real -> real, s: State, r: nat)
    requires IsExp(e) && LockStep(s, |s.ranks|) && InOrder(s) && ValuesOk(e, s)
    ensures ValuesOk(e, Apply(e, s, Write(r)))
  {
    var s' := Apply(e, s, Write(r));
    if r < |s.ranks| && s.ranks[r].stage == Writing {
      var k, m := s.ranks[r].pulled - 1, Current(s, r);
      assert InStep(s.ranks[r], s.rounds) && LogOk(s, r);
      var v := Flatten(s.dispatched[k].slices);
      TotalIsPositive(e, v);
      ReducedSlice(e, m.data, s.globalMax, Total(e, v), s.globalSum);
      assert IsSoftmaxSlice(e, s'.dispatched[k], r, s'.written[(m.job, m.sliceId)]);
      assert WrittenOk(e, s', (m.job, m.sliceId));
      forall key | key in s'.written ensures WrittenOk(e, s', key) {
        assert key != (m.job, m.sliceId) ==> WrittenOk(e, s, key);
      }
      assert SumOk(e, s');
    }
  }

  lemma ValuesKept(e: real -> real, s: State, step: Step)
    requires IsExp(e) && LockStep(s, |s.ranks|) && InOrder(s) && ValuesOk(e, s) && Serialised(s, step)
    requires step.Begin? ==> Flatten(step.job.slices) != []
    ensures ValuesOk(e, Apply(e, s, step))
  {
    if step.ReduceSum? {
      SumKept(e, s);
    } else if step.Write? {
      WriteKept(e, s, step.rank);
    } else {
      PulledIsDispatched(s);
      OthersKept(e, s, step);
      WrittenStays(e, s, Apply(e, s, step));
    }
  }

  lemma WrittenStays(e: real -> real, s: State, s': State)
    requires forall key :: key in s.written ==> WrittenOk(e, s, key)
    requires s.dispatched <= s'.dispatched && s'.written == s.written
    ensures forall key :: key in s'.written ==> WrittenOk(e, s', key)
  {
    forall key | key in s'.written ensures WrittenOk(e, s', key) {
      assert WrittenOk(e, s, key);
    }
  }

  /** The sum of the latest collective belongs to the job of every rank that is writing. */
  ghost predicate SumOk(e: real -> real, s: State) {
    forall r :: 0 <= r < |s.ranks| && s.ranks[r].stage == Writing && 0 < s.ranks[r].pulled <= |s.dispatched| ==>
      s.globalSum == ShiftedTotal(e, Flatten(s.dispatched[s.ranks[r].pulled - 1].slices), s.globalMax)
  }

  lemma PulledIsDispatched(s: State)
    requires LockStep(s, |s.ranks|) && InOrder(s)
    ensures forall r :: 0 <= r < |s.ranks| ==> s.ranks[r].pulled <= |s.dispatched|
  {
    forall r | 0 <= r < |s.ranks| ensures s.ranks[r].pulled <= |s.dispatched| {
      assert LogOk(s, r);
    }
  }

  lemma OthersKept(e: real -> real, s: State, step: Step)
    requires SumOk(e, s) && forall r :: 0 <= r < |s.ranks| ==> s.ranks[r].pulled <= |s.dispatched|
    requires !step.ReduceSum? && !step.Write?
    ensures s.dispatched <= Apply(e, s, step).dispatched && Apply(e, s, step).written == s.written
    ensures SumOk(e, Apply(e, s, step))
  {
  }

  ghost predicate NonEmptyJobs(steps: seq<Step>) {
    forall k :: 0 <= k < |steps| && steps[k].Begin? ==> Flatten(steps[k].job.slices) != []
  }

  lemma {:induction false} ValuesRun(e: real -> real, worldSize: nat, states: seq<State>, steps: seq<Step>, t: nat)
    requires IsExp(e) && IsRun(e, worldSize, states, steps) && SerialisedRun(states, steps) && NonEmptyJobs(steps)
    requires t <= |steps|
    ensures ValuesOk(e, states[t])
  {
    if t > 0 {
      ValuesRun(e, worldSize, states, steps, t - 1);
      InOrderRun(e, worldSize, states, steps, t - 1);
      assert StepAt(e, states, steps, t - 1) && SerialisedAt(states, steps, t - 1);
      ValuesKept(e, states[t - 1], steps[t - 1]);
    }
  }

  // ----- What the collectives return, seen from the system as a whole

  /** What serialised loops keep. */
  ghost predicate RanksOk(e: real -> real, s: State) {
    LockStep(s, |s.ranks|) && InOrder(s) && ValuesOk(e, s)
  }

  lemma RanksOkKept(e: real -> real, s: State, step: Step)
    requires IsExp(e) && RanksOk(e, s) && Serialised(s, step)
    requires step.Begin? ==> Flatten(step.job.slices) != []
    ensures RanksOk(e, Apply(e, s, step)) && |Apply(e, s, step).ranks| == |s.ranks|
  {
    LockStepKept(e, s, step, |s.ranks|);
    InOrderKept(e, s, step, |s.ranks|);
    ValuesKept(e, s, step);
  }

  lemma InitiallyOk(e: real -> real, worldSize: nat)
    requires 0 < worldSize
    ensures RanksOk(e, Initial(worldSize))
  {
    assert forall r :: 0 <= r < worldSize ==> LogOk(Initial(worldSize), r);
  }

  /** A rank about to write works on its own slice of a job, and holds the sum over that job. */
  lemma WriterHoldsItsJob(e: real -> real, s: State, r: nat)
    requires IsExp(e) && RanksOk(e, s) && r < |s.ranks| && s.ranks[r].stage == Writing
    ensures var k := s.ranks[r].pulled - 1;
            && 0 <= k < |s.dispatched| && HoldsSlice(s, r, k)
            && s.globalSum == AllReduceSum(e, s.dispatched[k].slices, s.globalMax)
  {
    PulledIsDispatched(s);
    var k := s.ranks[r].pulled - 1;
    assert InStep(s.ranks[r], s.rounds) && LogOk(s, r);
    AllReduceSumIsTotal(e, s.dispatched[k].slices, s.globalMax);
  }

  /** So it is in every run with serialised loops. */
  lemma SumsBelongToTheJob(e: real -> real, worldSize: nat, states: seq<State>, steps: seq<Step>, t: nat, r: nat)
    requires IsExp(e) && IsRun(e, worldSize, states, steps) && SerialisedRun(states, steps) && NonEmptyJobs(steps)
    requires t <= |steps|
    requires r < |states[t].ranks| && states[t].ranks[r].stage == Writing
    ensures var s := states[t];
            var k := s.ranks[r].pulled - 1;
            && 0 <= k < |s.dispatched| && HoldsSlice(s, r, k)
            && s.globalSum == AllReduceSum(e, s.dispatched[k].slices, s.globalMax)
  {
    ValuesRun(e, worldSize, states, steps, t);
    InOrderRun(e, worldSize, states, steps, t);
    WriterHoldsItsJob(e, states[t], r);
  }

  /**
   The submissions whose work stands under the id of a rank's message are in rank mode and have the slices
   dispatched.
   */
  ghost predicate WorksFor(s: State, r: nat, calls: seq<System.Call>)
    requires r < |s.ranks| && 0 < s.ranks[r].pulled <= |s.dispatched|
  {
    forall n :: 0 <= n < |calls| && calls[n].job == Current(s, r).job && System.Current(calls, n) ==>
      calls[n].collective && calls[n].slices == s.dispatched[s.ranks[r].pulled - 1].slices
  }

  /**
   So what a rank writes with the results of its collectives is written in the job's mode, as the system as a
   whole requires.
   */
  lemma RanksWriteInMode(e: real -> real, s: State, r: nat, system: System.State)
    requires IsExp(e) && RanksOk(e, s) && r < |s.ranks| && s.ranks[r].stage == Writing
    requires 0 < s.ranks[r].pulled <= |s.dispatched| && WorksFor(s, r, system.calls)
    ensures System.Respectful(e, system, System.Write(Current(s, r), System.Rank(s.globalMax, s.globalSum)))
  {
    WriterHoldsItsJob(e, s, r);
  }

  /** And it is what the system as a whole has a rank write. */
  lemma RanksWriteTheirShare(e: real -> real, s: State, r: nat)
    requires r < |s.ranks| && s.ranks[r].stage == Writing && Current(s, r).data != []
    ensures var m := Current(s, r);
            && (m.job, m.sliceId) in Apply(e, s, Write(r)).written
            && System.WorkerStats(e, m.data, System.Rank(s.globalMax, s.globalSum))
            == NormalizedStats(Apply(e, s, Write(r)).written[(m.job, m.sliceId)])
  {
  }

  /** What the gateway concatenates for a job once every rank has written its slice. */
  function Collected(s: State, id: string, n: nat): seq<real> {
    if n == 0 then []
    else Collected(s, id, n - 1) + if (id, n - 1) in s.written then s.written[(id, n - 1)] else []
  }

  lemma {:induction false} CollectedIsDivided(e: real -> real, s: State, k: nat, n: nat)
    requires ValuesOk(e, s) && k < |s.dispatched| && n <= |s.dispatched[k].slices|
    requires forall j :: 0 <= j < |s.dispatched| && s.dispatched[j].id == s.dispatched[k].id ==> j == k
    requires forall r :: 0 <= r < n ==> (s.dispatched[k].id, r) in s.written
    ensures Collected(s, s.dispatched[k].id, n) ==
      Divided(e, Flatten(s.dispatched[k].slices[..n]), Total(e, Flatten(s.dispatched[k].slices)))
  {
    var job := s.dispatched[k];
    if n > 0 {
      CollectedIsDivided(e, s, k, n - 1);
      assert WrittenOk(e, s, (job.id, n - 1));
      assert IsSoftmaxSlice(e, job, n - 1, s.written[(job.id, n - 1)]);
      FlattenNext(job.slices, n - 1);
      DividedConcat(e, Flatten(job.slices[..n - 1]), job.slices[n - 1], Total(e, Flatten(job.slices)));
    }
  }

  /**
   In every run with serialised loops, once all ranks have written a job whose id no other job carries,
   the concatenation of what they wrote is the softmax of the job's vector.
   */
  lemma NcclResultIsSoftmax(e: real -> real, worldSize: nat, states: seq<State>, steps: seq<Step>, t: nat, k: nat)
    requires IsExp(e) && IsRun(e, worldSize, states, steps) && SerialisedRun(states, steps) && NonEmptyJobs(steps)
    requires t <= |steps|
    requires k < |states[t].dispatched|
    requires forall j :: 0 <= j < |states[t].dispatched| && states[t].dispatched[j].id == states[t].dispatched[k].id ==>
               j == k
    requires forall r :: 0 <= r < worldSize ==> (states[t].dispatched[k].id, r) in states[t].written
    ensures Collected(states[t], states[t].dispatched[k].id, worldSize) ==
      Softmax(e, Flatten(states[t].dispatched[k].slices))
  {
    var s := states[t];
    ValuesRun(e, worldSize, states, steps, t);
    InOrderRun(e, worldSize, states, steps, t);
    CollectedIsDivided(e, s, k, worldSize);
    assert s.dispatched[k].slices[..worldSize] == s.dispatched[k].slices;
  }

  // ----- The hypothesis is needed

  /** Two ranks wait in the first collective with messages of different jobs. */
  ghost predicate MixesJobs(s: State) {
    && |s.ranks| == 2 && s.ranks[0].stage == InMax && s.ranks[1].stage == InMax
    && Current(s, 0).job != Current(s, 1).job
  }

  function Dispatched(jobs: seq<Job>, loops: seq<Loop>, log0: seq<Message>, log1: seq<Message>): State {
    Initial(2).(dispatched := jobs, loops := loops, logs := [log0, log1])
  }

  lemma Extend(e: real -> real, states: seq<State>, steps: seq<Step>, step: Step, s: State)
    returns (states': seq<State>, steps': seq<Step>)
    requires IsRun(e, 2, states, steps) && s == Apply(e, states[|steps|], step)
    ensures IsRun(e, 2, states', steps') && states' == states + [s] && steps' == steps + [step]
  {
    states', steps' := states + [s], steps + [step];
    forall t | 0 <= t < |steps'| ensures StepAt(e, states', steps', t) {
      if t < |steps| {
        assert StepAt(e, states, steps, t);
      }
    }
  }

  /** Extends a run by a push, to logs and loops given explicitly. */
  lemma ExtendByPush(e: real -> real, states: seq<State>, steps: seq<Step>, i: nat, jobs: seq<Job>, loops: seq<Loop>,
                     log0: seq<Message>, log1: seq<Message>)
    returns (states': seq<State>, steps': seq<Step>)
    requires IsRun(e, 2, states, steps)
    requires var s := states[|steps|];
             && |s.logs| == 2 && s == Dispatched(jobs, s.loops, s.logs[0], s.logs[1])
             && i < |s.loops| && s.loops[i].index < |jobs| && |jobs[s.loops[i].index].slices| == 2
             && var Loop(k, r) := s.loops[i];
                var m := Message(jobs[k].id, r, jobs[k].slices[if r == 0 then 0 else 1]);
                if r == 0 then loops == s.loops[i := Loop(k, 1)] && log0 == s.logs[0] + [m] && log1 == s.logs[1]
                else r == 1 && loops == s.loops[..i] + s.loops[i + 1..] && log0 == s.logs[0] && log1 == s.logs[1] + [m]
    ensures IsRun(e, 2, states', steps') && states' == states + [Dispatched(jobs, loops, log0, log1)]
    ensures steps' == steps + [Push(i)]
  {
    var s := states[|steps|];
    assert Apply(e, s, Push(i)).logs == [log0, log1];
    states', steps' := Extend(e, states, steps, Push(i), Dispatched(jobs, loops, log0, log1));
  }

  lemma PullBoth(e: real -> real, s: State) returns (s1: State, s2: State)
    requires |s.logs| == 2 && s.ranks == [Rank(0, Idle), Rank(0, Idle)]
    requires s.logs[0] != [] && s.logs[1] != [] && s.logs[0][0].job != s.logs[1][0].job
    ensures s1 == Apply(e, s, Pull(0)) && s2 == Apply(e, s1, Pull(1)) && MixesJobs(s2)
  {
    s1 := Apply(e, s, Pull(0));
    s2 := Apply(e, s1, Pull(1));
  }

  lemma HalfOverlapping(e: real -> real, a: Job, b: Job) returns (states: seq<State>, steps: seq<Step>)
    requires |a.slices| == |b.slices| == 2
    ensures IsRun(e, 2, states, steps) && steps == [Begin(a), Begin(b), Push(0), Push(1)]
    ensures states[4] ==
      Dispatched([a, b], [Loop(0, 1), Loop(1, 1)], [Message(a.id, 0, a.slices[0]), Message(b.id, 0, b.slices[0])], [])
  {
    var a0, b0 := Message(a.id, 0, a.slices[0]), Message(b.id, 0, b.slices[0]);
    states, steps := [Initial(2)], [];
    states, steps := Extend(e, states, steps, Begin(a), Dispatched([a], [Loop(0, 0)], [], []));
    states, steps := Extend(e, states, steps, Begin(b), Dispatched([a, b], [Loop(0, 0), Loop(1, 0)], [], []));
    states, steps := ExtendByPush(e, states, steps, 0, [a, b], [Loop(0, 1), Loop(1, 0)], [a0], []);
    states, steps := ExtendByPush(e, states, steps, 1, [a, b], [Loop(0, 1), Loop(1, 1)], [a0, b0], []);
  }

  /** Two overlapping publish loops: rank 0 gets the first job first, rank 1 the second. */
  lemma OverlappingLoopsMixJobs(e: real -> real, a: Job, b: Job) returns (states: seq<State>, steps: seq<Step>)
    requires |a.slices| == |b.slices| == 2 && a.id != b.id
    ensures IsRun(e, 2, states, steps) && MixesJobs(states[|steps|])
    ensures forall t :: 0 <= t < |steps| ==> !steps[t].Abort?
  {
    var a0, a1 := Message(a.id, 0, a.slices[0]), Message(a.id, 1, a.slices[1]);
    var b0, b1 := Message(b.id, 0, b.slices[0]), Message(b.id, 1, b.slices[1]);
    states, steps := HalfOverlapping(e, a, b);
    states, steps := ExtendByPush(e, states, steps, 1, [a, b], [Loop(0, 1)], [a0, b0], [b1]);
    states, steps := ExtendByPush(e, states, steps, 0, [a, b], [], [a0, b0], [b1, a1]);
    var s7, s8 := PullBoth(e, states[|steps|]);
    states, steps := Extend(e, states, steps, Pull(0), s7);
    states, steps := Extend(e, states, steps, Pull(1), s8);
  }

  /** Overlapping loops do no harm when they reach all ranks in the same order. */
  lemma OverlapCanBeHarmless(e: real -> real, a: Job, b: Job) returns (states: seq<State>, steps: seq<Step>)
    requires |a.slices| == |b.slices| == 2
    ensures IsRun(e, 2, states, steps) && !SerialisedRun(states, steps) && !CanMix(e, 2, states, steps)
    ensures states[|steps|].loops == [] && states[|steps|].dispatched == [a, b]
  {
    var a0, a1 := Message(a.id, 0, a.slices[0]), Message(a.id, 1, a.slices[1]);
    var b0, b1 := Message(b.id, 0, b.slices[0]), Message(b.id, 1, b.slices[1]);
    states, steps := HalfOverlapping(e, a, b);
    assert StepAt(e, states, steps, 0);
    var begun := states[1];
    assert begun.loops == [Loop(0, 0)];
    states, steps := ExtendByPush(e, states, steps, 0, [a, b], [Loop(1, 1)], [a0, b0], [a1]);
    states, steps := ExtendByPush(e, states, steps, 0, [a, b], [], [a0, b0], [a1, b1]);
    assert states[1] == begun && !SerialisedAt(states, steps, 1);
    SameOrderNeverMixes(e, 2, states, steps);
  }

  lemma AfterFailedPublish(e: real -> real, a: Job, b: Job) returns (states: seq<State>, steps: seq<Step>)
    requires |a.slices| == |b.slices| == 2
    ensures IsRun(e, 2, states, steps) && steps == [Begin(a), Push(0), Abort(0), Begin(b)]
    ensures states[0].loops == [] && states[3].loops == []
    ensures states[4] == Dispatched([a, b], [Loop(1, 0)], [Message(a.id, 0, a.slices[0])], [])
  {
    var a0 := Message(a.id, 0, a.slices[0]);
    states, steps := [Initial(2)], [];
    states, steps := Extend(e, states, steps, Begin(a), Dispatched([a], [Loop(0, 0)], [], []));
    states, steps := ExtendByPush(e, states, steps, 0, [a], [Loop(0, 1)], [a0], []);
    states, steps := Extend(e, states, steps, Abort(0), Dispatched([a], [], [a0], []));
    states, steps := Extend(e, states, steps, Begin(b), Dispatched([a, b], [Loop(1, 0)], [a0], []));
  }

  /**
   A publish loop that fails after its first slice leaves rank 0 one message ahead for ever, even if loops never
   overlap.
   */
  lemma FailedPublishMixesJobs(e: real -> real, a: Job, b: Job) returns (states: seq<State>, steps: seq<Step>)
    requires |a.slices| == |b.slices| == 2 && a.id != b.id
    ensures IsRun(e, 2, states, steps) && MixesJobs(states[|steps|])
    ensures forall t :: 0 <= t < |steps| && steps[t].Begin? ==> states[t].loops == []
  {
    var a0, b0, b1 := Message(a.id, 0, a.slices[0]), Message(b.id, 0, b.slices[0]), Message(b.id, 1, b.slices[1]);
    states, steps := AfterFailedPublish(e, a, b);
    states, steps := ExtendByPush(e, states, steps, 0, [a, b], [Loop(1, 1)], [a0, b0], []);
    states, steps := ExtendByPush(e, states, steps, 0, [a, b], [], [a0, b0], [b1]);
    var s7, s8 := PullBoth(e, states[|steps|]);
    states, steps := Extend(e, states, steps, Pull(0), s7);
    states, steps := Extend(e, states, steps, Pull(1), s8);
  }
}
