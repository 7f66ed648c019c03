/**
 The system as a whole in rank mode: its steps taken together with those of the ranks, whose collectives
 determine what is written. Publish loops are serialised, no publish fails, and an id is used again for the
 same vector only. Then nothing needs to be assumed of the workers.
 */
module RankMode {
  import opened Exponential
  import opened Vectors
  import opened Aggregation
  import opened Slicing
  import opened Keys
  import opened Messages
  import opened System
  import opened Leftovers
  import Ranks = NcclDispatch

  // ----- The two machines together

  /** What ranks do between two steps of the system. */
  predicate Silent(step: Ranks.Step) {
    step.Pull? || step.ReduceMax? || step.ReduceSum?
  }

  function After(e: real -> real, ranks: Ranks.State, moves: seq<Ranks.Step>): Ranks.State
    decreases |moves|
  {
    if moves == [] then ranks else After(e, Ranks.Apply(e, ranks, moves[0]), moves[1..])
  }

  /** Rank `r` writes its slice, as computed from the results of the latest collectives. */
  ghost predicate WritesAs(e: real -> real, ranks: Ranks.State, m: Message, worker: Worker, ranks': Ranks.State,
                           r: nat) {
    && r < |ranks.ranks| && ranks.ranks[r].stage == Ranks.Writing
    && m == Ranks.Current(ranks, r) && worker == Rank(ranks.globalMax, ranks.globalSum)
    && ranks' == Ranks.Apply(e, ranks, Ranks.Write(r))
  }

  /** The job of a submission, as it is dispatched to the ranks. */
  function JobOf(c: Call): Ranks.Job {
    Ranks.Job(c.job, c.slices)
  }

  /**
   A turn of the publish loop of submission `c`. The first turn begins the loop, which must wait for other loops to
   end; later turns go on with it.
   */
  ghost predicate PublishesTo(e: real -> real, c: Call, ranks: Ranks.State, ranks': Ranks.State) {
    if c.published == 0 then
      ranks.loops == [] && ranks' == Ranks.Apply(e, Ranks.Apply(e, ranks, Ranks.Begin(JobOf(c))), Ranks.Push(0))
    else
      && ranks.loops != [] && ranks.loops[0].index < |ranks.dispatched|
      && ranks.dispatched[ranks.loops[0].index] == JobOf(c) && ranks.loops[0].next == c.published
      && ranks' == Ranks.Apply(e, ranks, Ranks.Push(0))
  }

  /** A step of the system and what it is to the ranks. Submitting only writes metadata; it may come at any time. */
  ghost predicate Together(e: real -> real, s: State, step: Step, ranks: Ranks.State, ranks': Ranks.State) {
    match step
    case Submit(job, vector, slices, collective) =>
      && collective && vector != [] && IsPartition(slices, vector) && |slices| == |ranks.logs|
      && (forall n :: 0 <= n < |s.calls| && s.calls[n].job == job ==> s.calls[n].slices == slices)
      && ranks' == ranks
    case Publish(n) =>
      if n < |s.calls| && Active(s.calls[n]) && s.calls[n].published < |s.calls[n].slices| then
        PublishesTo(e, s.calls[n], ranks, ranks')
      else ranks' == ranks
    case Write(m, worker) =>
      exists r :: 0 <= r < |ranks.ranks| && WritesAs(e, ranks, m, worker, ranks', r)
    case GiveUp(n) =>
      // no publish fails half way
      && (n < |s.calls| && Active(s.calls[n]) ==> s.calls[n].published in {0, |s.calls[n].slices|})
      && ranks' == ranks
    case Lose(_) => false
    case Crash(_) => false
    case Foreign(_, _) => false
    case _ => ranks' == ranks
  }

  ghost predicate TogetherAt(e: real -> real, states: seq<State>, steps: seq<Step>, ranks: seq<Ranks.State>,
                             silent: seq<seq<Ranks.Step>>, t: nat)
    requires t < |steps| && |states| == |ranks| == |steps| + 1 && |silent| == |steps|
  {
    && (forall k :: 0 <= k < |silent[t]| ==> Silent(silent[t][k]))
    && Together(e, states[t], steps[t], After(e, ranks[t], silent[t]), ranks[t + 1])
  }

  /** Nothing of any job is left over. */
  ghost predicate Blank(s: State) {
    && s.calls == [] && s.queue == [] && s.held == multiset{}
    && forall job, i :: 0 <= i ==> ReadableAt(s.store, job, i).None?
  }

  /** A run of the system together with `worldSize` ranks. */
  ghost predicate IsRankRun(e: real -> real, worldSize: nat, states: seq<State>, steps: seq<Step>,
                            ranks: seq<Ranks.State>, silent: seq<seq<Ranks.Step>>) {
    && 0 < worldSize && IsRun(e, states, steps) && Blank(states[0])
    && |ranks| == |steps| + 1 && |silent| == |steps| && ranks[0] == Ranks.Initial(worldSize)
    && forall t :: 0 <= t < |steps| ==> TogetherAt(e, states, steps, ranks, silent, t)
  }

  // ----- What holds of both

  /**
   Every submission has one slice per rank, and submissions under one id do the same work; whatever is dispatched
   is the work of a submission.
   */
  ghost predicate Matches(s: State, ranks: Ranks.State) {
    && (forall n :: 0 <= n < |s.calls| ==> ForRanks(s.calls[n], |ranks.logs|) && Undisputed(s.calls, n))
    && (forall k :: 0 <= k < |ranks.dispatched| ==> Dispatches(s.calls, ranks.dispatched[k]))
  }

  ghost predicate ForRanks(c: Call, worldSize: nat) {
    c.collective && c.vector != [] && |c.slices| == worldSize && Flatten(c.slices) == c.vector
  }

  ghost predicate Dispatches(calls: seq<Call>, job: Ranks.Job) {
    exists n :: 0 <= n < |calls| && JobOf(calls[n]) == job
  }

  ghost predicate Known(calls: seq<Call>, job: string) {
    exists n :: 0 <= n < |calls| && calls[n].job == job
  }

  /** Whatever message or readable slice there is belongs to a submission. */
  ghost predicate NoStray(s: State) {
    && (forall m :: m in s.queue ==> Known(s.calls, m.job))
    && (forall m :: m in s.held ==> Known(s.calls, m.job))
    && (forall job, i :: 0 <= i && ReadableAt(s.store, job, i).Some? ==> Known(s.calls, job))
  }

  ghost predicate Joint(e: real -> real, s: State, ranks: Ranks.State) {
    Inv(e, s) && Ranks.RanksOk(e, ranks) && Matches(s, ranks) && NoStray(s)
  }

  lemma {:induction false} SilentMoves(e: real -> real, ranks: Ranks.State, moves: seq<Ranks.Step>)
    requires IsExp(e) && Ranks.RanksOk(e, ranks) && forall k :: 0 <= k < |moves| ==> Silent(moves[k])
    ensures Ranks.RanksOk(e, After(e, ranks, moves)) && After(e, ranks, moves).dispatched == ranks.dispatched
    ensures |After(e, ranks, moves).logs| == |ranks.logs|
    decreases |moves|
  {
    if moves != [] {
      assert Silent(moves[0]);
      Ranks.RanksOkKept(e, ranks, moves[0]);
      SilentMoves(e, Ranks.Apply(e, ranks, moves[0]), moves[1..]);
    }
  }

  lemma KnownLater(e: real -> real, s: State, step: Step, job: string)
    requires Known(s.calls, job)
    ensures Known(Apply(e, s, step).calls, job)
  {
    var n :| 0 <= n < |s.calls| && s.calls[n].job == job;
    CallFrame(e, s, step, n);
  }

  lemma ComingMessageKnown(e: real -> real, s: State, step: Step, m: Message)
    requires NoStray(s) && ComesFrom(s, step, m)
    ensures Known(Apply(e, s, step).calls, m.job)
  {
    if m !in s.queue && m !in s.held {
      assert s.calls[step.call].job == m.job;
    }
    KnownLater(e, s, step, m.job);
  }

  lemma MessagesKnown(e: real -> real, s: State, step: Step)
    requires NoStray(s)
    ensures forall m :: m in Apply(e, s, step).queue ==> Known(Apply(e, s, step).calls, m.job)
    ensures forall m :: m in Apply(e, s, step).held ==> Known(Apply(e, s, step).calls, m.job)
  {
    forall m | m in Apply(e, s, step).queue ensures Known(Apply(e, s, step).calls, m.job) {
      QueuedComesFrom(e, s, step, m);
      ComingMessageKnown(e, s, step, m);
    }
    forall m | m in Apply(e, s, step).held ensures Known(Apply(e, s, step).calls, m.job) {
      HeldComesFrom(e, s, step, m);
      ComingMessageKnown(e, s, step, m);
    }
  }

  lemma SlicesKnown(e: real -> real, s: State, step: Step, job: string, i: nat)
    requires NoStray(s) && !step.Foreign? && ReadableAt(Apply(e, s, step).store, job, i).Some?
    ensures Known(Apply(e, s, step).calls, job)
  {
    if ReadableAt(s.store, job, i).None? {
      assert step.Write? && SliceKey(job, i) == SliceKey(step.m.job, step.m.sliceId) && step.m in s.held;
      SliceKeyIsInjective(job, i, step.m.job, step.m.sliceId);
      KnownLater(e, s, step, step.m.job);
    } else {
      KnownLater(e, s, step, job);
    }
  }

  lemma NoStrayStep(e: real -> real, s: State, step: Step)
    requires NoStray(s) && !step.Foreign?
    ensures NoStray(Apply(e, s, step))
  {
    var s' := Apply(e, s, step);
    MessagesKnown(e, s, step);
    forall job, i | 0 <= i && ReadableAt(s'.store, job, i).Some? ensures Known(s'.calls, job) {
      SlicesKnown(e, s, step, job, i);
    }
  }

  // ----- Every step is respectful

  /** An id is clear if it is new, or used again for the same vector. */
  lemma SubmitIsRespectful(e: real -> real, s: State, step: Step, ranks: Ranks.State, ranks': Ranks.State)
    requires IsExp(e) && Joint(e, s, ranks) && step.Submit? && Together(e, s, step, ranks, ranks')
    ensures Respectful(e, s, step)
  {
    var c := NewCall(step.job, step.vector, step.slices, step.collective);
    if n :| 0 <= n < |s.calls| && s.calls[n].job == step.job {
      assert ForRanks(s.calls[n], |ranks.logs|);
      RetryIsClear(e, s, n);
    } else {
      assert !Known(s.calls, step.job);
      forall i: nat | i < |c.slices| ensures ReadableAt(s.store, c.job, i).None? {
      }
      NothingLeftIsClear(e, s, c);
    }
  }

  lemma NothingLeftIsClear(e: real -> real, s: State, c: Call)
    requires NoStray(s) && !Known(s.calls, c.job)
    requires forall i :: 0 <= i < |c.slices| ==> ReadableAt(s.store, c.job, i).None?
    ensures Clear(e, s, c)
  {
  }

  /** What a rank has written is what the system then has to read. */
  lemma WrittenIsReadable(e: real -> real, s: State, step: Step, ranks: Ranks.State, ranks': Ranks.State)
    requires Together(e, s, step, ranks, ranks') && step.Write? && step.m in s.held && step.m.data != []
    ensures (step.m.job, step.m.sliceId) in ranks'.written
    ensures ReadableAt(Apply(e, s, step).store, step.m.job, step.m.sliceId)
         == Some(NormalizedStats(ranks'.written[(step.m.job, step.m.sliceId)]))
  {
    var r :| 0 <= r < |ranks.ranks| && WritesAs(e, ranks, step.m, step.worker, ranks', r);
    Ranks.RanksWriteTheirShare(e, ranks, r);
  }

  /** All submissions under the id of a rank's message have the slices the rank works on. */
  lemma RanksWorkForTheirIds(e: real -> real, s: State, ranks: Ranks.State, r: nat)
    requires IsExp(e) && Ranks.RanksOk(e, ranks) && Matches(s, ranks)
    requires r < |ranks.ranks| && ranks.ranks[r].stage == Ranks.Writing
    ensures 0 < ranks.ranks[r].pulled <= |ranks.dispatched| && Ranks.WorksFor(ranks, r, s.calls)
  {
    Ranks.WriterHoldsItsJob(e, ranks, r);
    var k := ranks.ranks[r].pulled - 1;
    assert Dispatches(s.calls, ranks.dispatched[k]);
    var o :| 0 <= o < |s.calls| && JobOf(s.calls[o]) == ranks.dispatched[k];
    assert ForRanks(s.calls[o], |ranks.logs|) && Undisputed(s.calls, o);
    forall n | 0 <= n < |s.calls| && s.calls[n].job == Ranks.Current(ranks, r).job
      ensures s.calls[n].collective && s.calls[n].slices == ranks.dispatched[k].slices
    {
      assert SameWork(s.calls[n], s.calls[o]);
    }
  }

  /** What the collectives return belongs to the job under whose id it is written. */
  lemma WriteIsRespectful(e: real -> real, s: State, step: Step, ranks: Ranks.State, ranks': Ranks.State)
    requires IsExp(e) && Ranks.RanksOk(e, ranks) && Matches(s, ranks) && step.Write?
    requires Together(e, s, step, ranks, ranks')
    ensures Respectful(e, s, step)
  {
    var r :| 0 <= r < |ranks.ranks| && WritesAs(e, ranks, step.m, step.worker, ranks', r);
    RanksWorkForTheirIds(e, s, ranks, r);
    Ranks.RanksWriteInMode(e, ranks, r, s);
    assert step == Write(Ranks.Current(ranks, r), Rank(ranks.globalMax, ranks.globalSum));
  }

  lemma StepIsRespectful(e: real -> real, s: State, step: Step, ranks: Ranks.State, ranks': Ranks.State)
    requires IsExp(e) && Joint(e, s, ranks) && Together(e, s, step, ranks, ranks')
    ensures Respectful(e, s, step)
  {
    if step.Submit? {
      SubmitIsRespectful(e, s, step, ranks, ranks');
    } else if step.Write? {
      WriteIsRespectful(e, s, step, ranks, ranks');
    }
  }

  lemma PublishStep(e: real -> real, c: Call, ranks: Ranks.State, ranks': Ranks.State)
    requires IsExp(e) && Ranks.RanksOk(e, ranks) && ForRanks(c, |ranks.logs|) && PublishesTo(e, c, ranks, ranks')
    ensures Ranks.RanksOk(e, ranks') && |ranks'.logs| == |ranks.logs|
    ensures ranks'.dispatched == ranks.dispatched || ranks'.dispatched == ranks.dispatched + [JobOf(c)]
  {
    var begun := ranks;
    if c.published == 0 {
      Ranks.RanksOkKept(e, ranks, Ranks.Begin(JobOf(c)));
      begun := Ranks.Apply(e, ranks, Ranks.Begin(JobOf(c)));
    }
    Ranks.RanksOkKept(e, begun, Ranks.Push(0));
  }

  lemma RanksStep(e: real -> real, s: State, step: Step, ranks: Ranks.State, ranks': Ranks.State)
    requires IsExp(e) && Ranks.RanksOk(e, ranks) && Matches(s, ranks) && Together(e, s, step, ranks, ranks')
    ensures Ranks.RanksOk(e, ranks') && |ranks'.logs| == |ranks.logs|
    ensures forall k :: 0 <= k < |ranks'.dispatched| ==> Dispatches(s.calls, ranks'.dispatched[k])
  {
    if step.Publish? && ranks' != ranks {
      var c := s.calls[step.call];
      assert ForRanks(c, |ranks.logs|) && JobOf(c) == JobOf(s.calls[step.call]);
      PublishStep(e, c, ranks, ranks');
    } else if step.Write? {
      var r :| 0 <= r < |ranks.ranks| && WritesAs(e, ranks, step.m, step.worker, ranks', r);
      Ranks.RanksOkKept(e, ranks, Ranks.Write(r));
    }
  }

  lemma DispatchesLater(e: real -> real, s: State, step: Step, job: Ranks.Job)
    requires Dispatches(s.calls, job)
    ensures Dispatches(Apply(e, s, step).calls, job)
  {
    var n :| 0 <= n < |s.calls| && JobOf(s.calls[n]) == job;
    CallFrame(e, s, step, n);
    assert JobOf(Apply(e, s, step).calls[n]) == job;
  }

  lemma CallsStep(e: real -> real, s: State, step: Step, ranks: Ranks.State, ranks': Ranks.State, n: nat)
    requires Matches(s, ranks) && Together(e, s, step, ranks, ranks') && n < |Apply(e, s, step).calls|
    ensures ForRanks(Apply(e, s, step).calls[n], |ranks.logs|) && Undisputed(Apply(e, s, step).calls, n)
  {
    var calls, calls' := s.calls, Apply(e, s, step).calls;
    if n < |calls| { CallFrame(e, s, step, n); }
    forall m | 0 <= m < |calls'| && calls'[m].job == calls'[n].job ensures SameWork(calls'[m], calls'[n]) {
      if m < |calls| { CallFrame(e, s, step, m); }
      if m < |calls| && n < |calls| {
        assert Undisputed(calls, n) && SameWork(calls[m], calls[n]);
      } else if m < |calls| {
        assert ForRanks(calls[m], |ranks.logs|);
      } else if n < |calls| {
        assert ForRanks(calls[n], |ranks.logs|);
      }
    }
  }

  lemma MatchesStep(e: real -> real, s: State, step: Step, ranks: Ranks.State, ranks': Ranks.State)
    requires Matches(s, ranks) && Together(e, s, step, ranks, ranks') && |ranks'.logs| == |ranks.logs|
    requires forall k :: 0 <= k < |ranks'.dispatched| ==> Dispatches(s.calls, ranks'.dispatched[k])
    ensures Matches(Apply(e, s, step), ranks')
  {
    forall n | 0 <= n < |Apply(e, s, step).calls|
      ensures ForRanks(Apply(e, s, step).calls[n], |ranks.logs|) && Undisputed(Apply(e, s, step).calls, n)
    {
      CallsStep(e, s, step, ranks, ranks', n);
    }
    forall k | 0 <= k < |ranks'.dispatched| ensures Dispatches(Apply(e, s, step).calls, ranks'.dispatched[k]) {
      DispatchesLater(e, s, step, ranks'.dispatched[k]);
    }
  }

  lemma JointStep(e: real -> real, s: State, step: Step, ranks: Ranks.State, ranks': Ranks.State)
    requires IsExp(e) && Joint(e, s, ranks) && Together(e, s, step, ranks, ranks')
    ensures Respectful(e, s, step) && Joint(e, Apply(e, s, step), ranks')
  {
    StepIsRespectful(e, s, step, ranks, ranks');
    InvStep(e, s, step);
    RanksStep(e, s, step, ranks, ranks');
    MatchesStep(e, s, step, ranks, ranks');
    NoStrayStep(e, s, step);
  }

  lemma JointAt(e: real -> real, worldSize: nat, states: seq<State>, steps: seq<Step>,
                ranks: seq<Ranks.State>, silent: seq<seq<Ranks.Step>>, t: nat)
    requires IsExp(e) && IsRankRun(e, worldSize, states, steps, ranks, silent) && t < |steps|
    requires Joint(e, states[t], ranks[t])
    ensures RespectfulAt(e, states, steps, t) && Joint(e, states[t + 1], ranks[t + 1])
  {
    assert StepAt(e, states, steps, t) && TogetherAt(e, states, steps, ranks, silent, t);
    SilentMoves(e, ranks[t], silent[t]);
    JointStep(e, states[t], steps[t], After(e, ranks[t], silent[t]), ranks[t + 1]);
  }

  lemma JointFromBlank(e: real -> real, worldSize: nat, s: State)
    requires 0 < worldSize && Blank(s)
    ensures Joint(e, s, Ranks.Initial(worldSize))
  {
    Ranks.InitiallyOk(e, worldSize);
  }

  lemma {:induction false} JointRun(e: real -> real, worldSize: nat, states: seq<State>, steps: seq<Step>,
                                    ranks: seq<Ranks.State>, silent: seq<seq<Ranks.Step>>, t: nat)
    requires IsExp(e) && IsRankRun(e, worldSize, states, steps, ranks, silent) && t <= |steps|
    ensures Joint(e, states[t], ranks[t])
  {
    if t == 0 {
      JointFromBlank(e, worldSize, states[0]);
    } else {
      JointRun(e, worldSize, states, steps, ranks, silent, t - 1);
      JointAt(e, worldSize, states, steps, ranks, silent, t - 1);
    }
  }

  /**
   With serialised publish loops and ids used for one vector each, every run of the system with its ranks is
   respectful, whenever other submissions write their metadata.
   */
  lemma RankRunIsRespectful(e: real -> real, worldSize: nat, states: seq<State>, steps: seq<Step>,
                            ranks: seq<Ranks.State>, silent: seq<seq<Ranks.Step>>)
    requires IsExp(e) && IsRankRun(e, worldSize, states, steps, ranks, silent)
    ensures Inv(e, states[0]) && RespectfulRun(e, states, steps)
  {
    forall t | 0 <= t < |steps| ensures RespectfulAt(e, states, steps, t) {
      JointRun(e, worldSize, states, steps, ranks, silent, t);
      JointAt(e, worldSize, states, steps, ranks, silent, t);
    }
    JointFromBlank(e, worldSize, states[0]);
  }

  /**
   So in rank mode, too, every result ever stored is the softmax of the vector submitted, whatever the
   interleaving.
   */
  lemma RankModeStoresOnlySoftmax(e: real -> real, worldSize: nat, states: seq<State>, steps: seq<Step>,
                                  ranks: seq<Ranks.State>, silent: seq<seq<Ranks.Step>>, t: nat, n: nat)
    requires IsExp(e) && IsRankRun(e, worldSize, states, steps, ranks, silent)
    requires t <= |steps| && n < |states[t].calls|
    ensures var c := states[t].calls[n]; c.outcome.Stored? ==> c.outcome.values == Softmax(e, c.vector)
  {
    RankRunIsRespectful(e, worldSize, states, steps, ranks, silent);
    EveryStoredResultIsSoftmax(e, states, steps, t, n);
  }

  // ----- There are such runs

  lemma ExtendRankRun(e: real -> real, worldSize: nat, states: seq<State>, steps: seq<Step>, ranks: seq<Ranks.State>,
                      silent: seq<seq<Ranks.Step>>, step: Step, moves: seq<Ranks.Step>, ranks1: Ranks.State)
    returns (states': seq<State>, steps': seq<Step>, ranks': seq<Ranks.State>, silent': seq<seq<Ranks.Step>>)
    requires IsRankRun(e, worldSize, states, steps, ranks, silent)
    requires forall k :: 0 <= k < |moves| ==> Silent(moves[k])
    requires Together(e, states[|steps|], step, After(e, ranks[|steps|], moves), ranks1)
    ensures IsRankRun(e, worldSize, states', steps', ranks', silent')
    ensures states' == states + [Apply(e, states[|steps|], step)] && steps' == steps + [step]
    ensures ranks' == ranks + [ranks1]
  {
    states', steps' := Extend(e, states, steps, step);
    ranks', silent' := ranks + [ranks1], silent + [moves];
    forall t | 0 <= t < |steps'| ensures TogetherAt(e, states', steps', ranks', silent', t) {
      assert t < |steps| ==> TogetherAt(e, states, steps, ranks, silent, t);
    }
  }

  /** The rank's machine when it has the sum of `[x]` and is about to write. */
  function Computed(e: real -> real, x: real): Ranks.State {
    var g := Ranks.LargestMax([[x]]);
    Ranks.State([[Message("job", 0, [x])]], [Ranks.Rank(1, Ranks.Writing)], [Ranks.Job("job", [[x]])], [], g,
                AllReduceSum(e, [[x]], g), 2, map[])
  }

  function Dispatched(x: real): Ranks.State {
    Ranks.Initial(1).(logs := [[Message("job", 0, [x])]], dispatched := [Ranks.Job("job", [[x]])])
  }

  lemma ComputedAfter(e: real -> real, x: real)
    ensures After(e, Dispatched(x), [Ranks.Pull(0), Ranks.ReduceMax, Ranks.ReduceSum]) == Computed(e, x)
  {
    var s0, moves := Dispatched(x), [Ranks.Pull(0), Ranks.ReduceMax, Ranks.ReduceSum];
    var s1 := Ranks.Apply(e, s0, moves[0]);
    assert s1 == s0.(ranks := [Ranks.Rank(1, Ranks.InMax)]);
    assert Ranks.RankData(s1) == [[x]];
    var s2 := Ranks.Apply(e, s1, moves[1]);
    assert s2 == s1.(globalMax := Ranks.LargestMax([[x]]), rounds := 1, ranks := [Ranks.Rank(1, Ranks.InSum)]);
    assert Ranks.RankData(s2) == [[x]];
    var s3 := Ranks.Apply(e, s2, moves[2]);
    assert s3 == Computed(e, x);
    assert moves[1..] == [Ranks.ReduceMax, Ranks.ReduceSum] && moves[1..][1..] ==
      [Ranks.ReduceSum] && moves[1..][1..][1..] == [];
    assert After(e, s2, moves[1..][1..]) == After(e, s3, []);
  }

  lemma PushedIsDispatched(e: real -> real, x: real)
    ensures var begun := Ranks.Initial(1).(dispatched := [Ranks.Job("job", [[x]])], loops := [Ranks.Loop(0, 0)]);
            && begun == Ranks.Apply(e, Ranks.Initial(1), Ranks.Begin(Ranks.Job("job", [[x]])))
            && Ranks.Apply(e, begun, Ranks.Push(0)) == Dispatched(x)
  {
    var begun := Ranks.Initial(1).(dispatched := [Ranks.Job("job", [[x]])], loops := [Ranks.Loop(0, 0)]);
    var pushed := Ranks.Apply(e, begun, Ranks.Push(0));
    assert begun.logs == [[]] && [] + [Message("job", 0, [x])] == [Message("job", 0, [x])];
    assert pushed.logs == [[Message("job", 0, [x])]] && pushed.loops == [];
    assert Dispatched(x).logs == pushed.logs && Dispatched(x).loops == pushed.loops;
  }

  /** The system with one job of one element, submitted, published and pulled. */
  function Submitted(x: real): State {
    NOTHING.(calls := [NewCall("job", [x], [[x]], true)], store := map[MetadataKey("job") := JobInfo(1)])
  }

  function Published(x: real): State {
    Submitted(x).(calls := [NewCall("job", [x], [[x]], true).(published := 1)], queue := [Message("job", 0, [x])])
  }

  function HeldByRank(x: real): State {
    Published(x).(queue := [], held := multiset{Message("job", 0, [x])})
  }

  lemma SystemSteps(e: real -> real, x: real)
    ensures Apply(e, NOTHING, Submit("job", [x], [[x]], true)) == Submitted(x)
    ensures Apply(e, Submitted(x), Publish(0)) == Published(x)
    ensures Apply(e, Published(x), Pull(0)) == HeldByRank(x)
  {
    FlattenOne([x]);
  }

  /** One rank: up to the slice being pulled. */
  lemma ARankPulls(e: real -> real, x: real)
    returns (states: seq<State>, steps: seq<Step>, ranks: seq<Ranks.State>, silent: seq<seq<Ranks.Step>>)
    ensures IsRankRun(e, 1, states, steps, ranks, silent)
    ensures states[|steps|] == HeldByRank(x) && ranks[|steps|] == Dispatched(x)
  {
    states, steps, ranks, silent := [NOTHING], [], [Ranks.Initial(1)], [];
    FlattenOne([x]);
    PushedIsDispatched(e, x);
    SystemSteps(e, x);
    states, steps, ranks, silent :=
      ExtendRankRun(e, 1, states, steps, ranks, silent, Submit("job", [x], [[x]], true), [], Ranks.Initial(1));
    states, steps, ranks, silent := ExtendRankRun(e, 1, states, steps, ranks, silent, Publish(0), [], Dispatched(x));
    states, steps, ranks, silent := ExtendRankRun(e, 1, states, steps, ranks, silent, Pull(0), [], Dispatched(x));
  }

  /** Up to the slice being readable. */
  lemma ARankWrites(e: real -> real, x: real)
    returns (states: seq<State>, steps: seq<Step>, ranks: seq<Ranks.State>, silent: seq<seq<Ranks.Step>>)
    ensures IsRankRun(e, 1, states, steps, ranks, silent)
    ensures var s := states[|steps|];
            && s.calls == [NewCall("job", [x], [[x]], true).(published := 1)]
            && ReadableAt(s.store, "job", 0).Some?
  {
    var m, at := Message("job", 0, [x]), Computed(e, x);
    var written := Ranks.Apply(e, at, Ranks.Write(0));
    states, steps, ranks, silent := ARankPulls(e, x);
    ComputedAfter(e, x);
    assert WritesAs(e, at, m, Rank(at.globalMax, at.globalSum), written, 0);
    var moves := [Ranks.Pull(0), Ranks.ReduceMax, Ranks.ReduceSum];
    states, steps, ranks, silent :=
      ExtendRankRun(e, 1, states, steps, ranks, silent, Write(m, Rank(at.globalMax, at.globalSum)), moves, written);
  }

  /** A run in which a result is stored. */
  lemma ARankRunStores(e: real -> real, x: real)
    returns (states: seq<State>, steps: seq<Step>, ranks: seq<Ranks.State>, silent: seq<seq<Ranks.Step>>)
    ensures IsRankRun(e, 1, states, steps, ranks, silent)
    ensures |states[|steps|].calls| == 1 && states[|steps|].calls[0].vector == [x]
    ensures states[|steps|].calls[0].outcome.Stored?
  {
    states, steps, ranks, silent := ARankWrites(e, x);
    var stats := ReadableAt(states[|steps|].store, "job", 0).value;
    states, steps, ranks, silent := ExtendRankRun(e, 1, states, steps, ranks, silent, Read(0, 0), [], ranks[|steps|]);
    assert (0, stats) in states[|steps|].calls[0].seen;
    assert Collected(states[|steps|].calls[0], [stats]);
    states, steps, ranks, silent := ExtendRankRun(e, 1, states, steps, ranks, silent, StoreResult(0, [stats]), [],
                                                  ranks[|steps|]);
  }

  lemma SubmitAdds(e: real -> real, s: State, c: Call)
    requires Submittable(c)
    ensures Apply(e, s, Submit(c.job, c.vector, c.slices, c.collective)).calls == s.calls + [c]
    ensures Apply(e, s, Submit(c.job, c.vector, c.slices, c.collective)).queue == s.queue
  {
  }

  lemma PublishAdds(e: real -> real, s: State, c: Call)
    requires s.calls != [] && s.calls[0] == c && Active(c) && c.published < |c.slices|
    ensures Apply(e, s, Publish(0)).calls == s.calls[0 := c.(published := c.published + 1)]
    ensures Apply(e, s, Publish(0)).queue == s.queue + [Message(c.job, c.published, c.slices[c.published])]
  {
  }

  /** Two ranks, and a submission half published. */
  lemma HalfPublished(e: real -> real, c: Call)
    returns (states: seq<State>, steps: seq<Step>, ranks: seq<Ranks.State>, silent: seq<seq<Ranks.Step>>)
    requires Submittable(c) && c.collective && |c.slices| == 2
    ensures IsRankRun(e, 2, states, steps, ranks, silent)
    ensures steps == [Submit(c.job, c.vector, c.slices, true), Publish(0)] && ranks[|steps|] == OnePushed(JobOf(c))
    ensures states[|steps|].calls == [c.(published := 1)] && states[|steps|].queue == [Message(c.job, 0, c.slices[0])]
  {
    TwoPushes(e, JobOf(c));
    SubmitAdds(e, NOTHING, c);
    states, steps, ranks, silent := [NOTHING], [], [Ranks.Initial(2)], [];
    states, steps, ranks, silent := ExtendRankRun(e, 2, states, steps, ranks, silent,
                                                  Submit(c.job, c.vector, c.slices, true), [], Ranks.Initial(2));
    PublishAdds(e, states[1], c);
    states, steps, ranks, silent := ExtendRankRun(e, 2, states, steps, ranks, silent, Publish(0), [],
                                                  OnePushed(JobOf(c)));
  }

  /** A second submission may write its metadata during the first one's publish loop. */
  lemma MetadataMayComeBetween(e: real -> real, c: Call, d: Call)
    returns (states: seq<State>, steps: seq<Step>, ranks: seq<Ranks.State>, silent: seq<seq<Ranks.Step>>)
    requires Submittable(c) && c.collective && |c.slices| == 2
    requires Submittable(d) && d.collective && |d.slices| == 2 && d.job != c.job
    ensures IsRankRun(e, 2, states, steps, ranks, silent)
    ensures steps == [Submit(c.job, c.vector, c.slices, true), Publish(0),
                      Submit(d.job, d.vector, d.slices, true), Publish(0)]
    ensures states[|steps|].queue == [Message(c.job, 0, c.slices[0]), Message(c.job, 1, c.slices[1])]
  {
    states, steps, ranks, silent := HalfPublished(e, c);
    SubmitAdds(e, states[2], d);
    states, steps, ranks, silent := ExtendRankRun(e, 2, states, steps, ranks, silent,
                                                  Submit(d.job, d.vector, d.slices, true), [], OnePushed(JobOf(c)));
    PublishAdds(e, states[3], c.(published := 1));
    states, steps, ranks, silent := ExtendRankRun(e, 2, states, steps, ranks, silent, Publish(0), [],
                                                  Ranks.Apply(e, OnePushed(JobOf(c)), Ranks.Push(0)));
  }

  /** Two ranks, when the first of a job's slices has been pushed. */
  function OnePushed(job: Ranks.Job): Ranks.State
    requires |job.slices| == 2
  {
    Ranks.Initial(2).(logs := [[Message(job.id, 0, job.slices[0])], []], dispatched := [job],
                      loops := [Ranks.Loop(0, 1)])
  }

  lemma TwoPushes(e: real -> real, job: Ranks.Job)
    requires |job.slices| == 2
    ensures Ranks.Apply(e, Ranks.Apply(e, Ranks.Initial(2), Ranks.Begin(job)), Ranks.Push(0)) == OnePushed(job)
  {
    var begun := Ranks.Initial(2).(dispatched := [job], loops := [Ranks.Loop(0, 0)]);
    assert begun == Ranks.Apply(e, Ranks.Initial(2), Ranks.Begin(job));
    var m := Message(job.id, 0, job.slices[0]);
    assert begun.logs == [[], []] && [] + [m] == [m];
    assert Ranks.Apply(e, begun, Ranks.Push(0)).logs == OnePushed(job).logs;
  }
}
