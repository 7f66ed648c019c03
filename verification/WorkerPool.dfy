/**
 The worker process: a receiver thread fills a queue, a dispatcher takes one frame at a time, waits
 for a permit, and spawns a task that gives the permit back when it ends.
 */
module WorkerPool {

  /** Frames are numbered by arrival, so that equal payloads stay apart. */
  datatype Frame = Frame(number: nat, payload: seq<int>)

  datatype Dispatcher = Idle | Holding(frame: Frame) | Granted(frame: Frame)

  /** `arrived`, `started` and `finished` record all frames received, spawned and done. */
  datatype State = State(queue: seq<Frame>, dispatcher: Dispatcher, permits: nat, inFlight: set<Frame>,
                         arrived: seq<Frame>, started: seq<Frame>, finished: set<Frame>)

  datatype Step =
    | Receive(payload: seq<int>)
    | Take
    | Acquire
    | Spawn
    | Finish(frame: Frame)

  function Initial(maxConcurrent: nat): State {
    State([], Idle, maxConcurrent, {}, [], [], {})
  }

  function Apply(s: State, step: Step): State {
    match step
    case Receive(payload) =>
      var frame := Frame(|s.arrived|, payload);
      s.(queue := s.queue + [frame], arrived := s.arrived + [frame])
    case Take =>
      if s.queue != [] && s.dispatcher.Idle? then s.(dispatcher := Holding(s.queue[0]), queue := s.queue[1..]) else s
    case Acquire =>
      if s.dispatcher.Holding? && 0 < s.permits then
        s.(dispatcher := Granted(s.dispatcher.frame), permits := s.permits - 1)
      else s
    case Spawn =>
      if s.dispatcher.Granted? then
        s.(dispatcher := Idle, inFlight := s.inFlight + {s.dispatcher.frame},
           started := s.started + [s.dispatcher.frame])
      else s
    case Finish(frame) =>
      if frame in s.inFlight then
        s.(inFlight := s.inFlight - {frame}, finished := s.finished + {frame}, permits := s.permits + 1)
      else s
  }

  ghost predicate StepAt(states: seq<State>, steps: seq<Step>, t: nat)
    requires t < |steps| && |states| == |steps| + 1
  {
    states[t + 1] == Apply(states[t], steps[t])
  }

  ghost predicate IsRun(maxConcurrent: nat, states: seq<State>, steps: seq<Step>) {
    && |states| == |steps| + 1 && states[0] == Initial(maxConcurrent)
    && forall t :: 0 <= t < |steps| ==> StepAt(states, steps, t)
  }

  /** The frame the dispatcher has in hand. */
  function InHand(d: Dispatcher): seq<Frame> {
    if d.Idle? then [] else [d.frame]
  }

  /** Every permit is free, granted to the dispatcher, or held by exactly one task. */
  ghost predicate PermitsConserved(s: State, maxConcurrent: nat) {
    s.permits + |s.inFlight| + (if s.dispatcher.Granted? then 1 else 0) == maxConcurrent
  }

  /**
   Every frame is queued, in hand, or started, in the order of arrival; a started one is either in flight or
   finished.
   */
  ghost predicate FramesConserved(s: State) {
    && s.arrived == s.started + InHand(s.dispatcher) + s.queue
    && (forall k :: 0 <= k < |s.arrived| ==> s.arrived[k].number == k)
    && (forall f :: f in s.started <==> f in s.inFlight + s.finished)
    && s.inFlight !! s.finished
  }

  lemma InHandIsNew(s: State)
    requires FramesConserved(s) && !s.dispatcher.Idle?
    ensures s.dispatcher.frame !in s.started && s.dispatcher.frame !in s.inFlight + s.finished
  {
    assert s.arrived[|s.started|] == s.dispatcher.frame;
    forall k | 0 <= k < |s.started| ensures s.started[k].number == k {
      assert s.arrived[k] == s.started[k];
    }
  }

  lemma FramesStep(s: State, step: Step)
    requires FramesConserved(s)
    ensures FramesConserved(Apply(s, step))
  {
    if step.Spawn? && s.dispatcher.Granted? {
      InHandIsNew(s);
    }
  }

  lemma PermitsStep(s: State, step: Step, maxConcurrent: nat)
    requires FramesConserved(s) && PermitsConserved(s, maxConcurrent)
    ensures PermitsConserved(Apply(s, step), maxConcurrent)
  {
    if step.Spawn? && s.dispatcher.Granted? {
      InHandIsNew(s);
    }
  }

  /**
   In every reachable state: permits are conserved, so at most `maxConcurrent` tasks are in flight, and each
   frame received is in exactly one place, started in the order of arrival.
   */
  lemma {:induction false} WorkerConservation(maxConcurrent: nat, states: seq<State>, steps: seq<Step>, t: nat)
    requires IsRun(maxConcurrent, states, steps) && t <= |steps|
    ensures PermitsConserved(states[t], maxConcurrent) && |states[t].inFlight| <= maxConcurrent
    ensures FramesConserved(states[t])
  {
    if t > 0 {
      WorkerConservation(maxConcurrent, states, steps, t - 1);
      assert StepAt(states, steps, t - 1);
      FramesStep(states[t - 1], steps[t - 1]);
      PermitsStep(states[t - 1], steps[t - 1], maxConcurrent);
    }
  }

  /** The payloads received in the first `t` steps, in order. */
  function Received(steps: seq<Step>, t: nat): (payloads: seq<seq<int>>)
    requires t <= |steps|
  {
    if t == 0 then []
    else Received(steps, t - 1) + if steps[t - 1].Receive? then [steps[t - 1].payload] else []
  }

  /** The frames are the payloads received, unchanged and in order. */
  lemma {:induction false} FramesAreReceived(maxConcurrent: nat, states: seq<State>, steps: seq<Step>, t: nat)
    requires IsRun(maxConcurrent, states, steps) && t <= |steps|
    ensures |states[t].arrived| == |Received(steps, t)|
    ensures forall k :: 0 <= k < |states[t].arrived| ==> states[t].arrived[k] == Frame(k, Received(steps, t)[k])
  {
    if t > 0 {
      FramesAreReceived(maxConcurrent, states, steps, t - 1);
      assert StepAt(states, steps, t - 1);
    }
  }

  /** A frame waits for a permit only while all permits are in use. */
  lemma WaitingMeansBusy(maxConcurrent: nat, states: seq<State>, steps: seq<Step>, t: nat)
    requires IsRun(maxConcurrent, states, steps) && t <= |steps|
    requires states[t].dispatcher.Holding? && Apply(states[t], Acquire) == states[t]
    ensures |states[t].inFlight| == maxConcurrent
  {
    WorkerConservation(maxConcurrent, states, steps, t);
  }

  // ----- Nothing waits without need

  /** Which step can do nothing, and when. */
  lemma IdleExactly(s: State, step: Step)
    ensures Apply(s, step) == s <==>
              || (step.Take? && (s.queue == [] || !s.dispatcher.Idle?))
              || (step.Acquire? && (!s.dispatcher.Holding? || s.permits == 0))
              || (step.Spawn? && !s.dispatcher.Granted?)
              || (step.Finish? && step.frame !in s.inFlight)
  {
    if step.Receive? {
      assert |Apply(s, step).arrived| == |s.arrived| + 1;
    }
  }

  lemma Extend(maxConcurrent: nat, states: seq<State>, steps: seq<Step>, step: Step)
    returns (states': seq<State>, steps': seq<Step>)
    requires IsRun(maxConcurrent, states, steps)
    ensures IsRun(maxConcurrent, states', steps')
    ensures states' == states + [Apply(states[|steps|], step)] && steps' == steps + [step]
  {
    states', steps' := states + [Apply(states[|steps|], step)], steps + [step];
    forall t | 0 <= t < |steps'| ensures StepAt(states', steps', t) {
      assert t < |steps| ==> StepAt(states, steps, t);
    }
  }

  /** All tasks in flight can end. */
  lemma {:induction false} FinishAll(maxConcurrent: nat, states: seq<State>, steps: seq<Step>)
    returns (states': seq<State>, steps': seq<Step>)
    requires IsRun(maxConcurrent, states, steps)
    ensures IsRun(maxConcurrent, states', steps') && states <= states'
    ensures var s, s' := states[|steps|], states'[|steps'|];
            s'.inFlight == {} && s'.queue == s.queue && s'.dispatcher == s.dispatcher && s'.arrived == s.arrived
    decreases |states[|steps|].inFlight|
  {
    states', steps' := states, steps;
    if states[|steps|].inFlight != {} {
      var frame :| frame in states[|steps|].inFlight;
      states', steps' := Extend(maxConcurrent, states, steps, Finish(frame));
      states', steps' := FinishAll(maxConcurrent, states', steps');
    }
  }

  /** With nothing in flight, the dispatcher gets its permit and spawns what it has in hand. */
  lemma SpawnInHand(maxConcurrent: nat, states: seq<State>, steps: seq<Step>)
    returns (states': seq<State>, steps': seq<Step>)
    requires 0 < maxConcurrent && IsRun(maxConcurrent, states, steps) && states[|steps|].inFlight == {}
    ensures IsRun(maxConcurrent, states', steps') && states <= states'
    ensures var s, s' := states[|steps|], states'[|steps'|];
            s'.dispatcher == Idle && s'.queue == s.queue && s'.arrived == s.arrived
  {
    states', steps' := states, steps;
    WorkerConservation(maxConcurrent, states, steps, |steps|);
    if states[|steps|].dispatcher.Holding? {
      states', steps' := Extend(maxConcurrent, states', steps', Acquire);
    }
    if states'[|steps'|].dispatcher.Granted? {
      states', steps' := Extend(maxConcurrent, states', steps', Spawn);
    }
  }

  /** From every reachable state, without further frames, the process can come to have finished every frame received. */
  lemma {:induction false} AllWorkCanBeDone(maxConcurrent: nat, states: seq<State>, steps: seq<Step>)
    returns (states': seq<State>, steps': seq<Step>)
    requires 0 < maxConcurrent && IsRun(maxConcurrent, states, steps)
    ensures IsRun(maxConcurrent, states', steps') && states <= states'
    ensures states'[|steps'|].arrived == states[|steps|].arrived
    ensures forall f :: f in states[|steps|].arrived ==> f in states'[|steps'|].finished
    decreases |states[|steps|].queue|
  {
    states', steps' := FinishAll(maxConcurrent, states, steps);
    states', steps' := SpawnInHand(maxConcurrent, states', steps');
    if states[|steps|].queue != [] {
      states', steps' := Extend(maxConcurrent, states', steps', Take);
      states', steps' := AllWorkCanBeDone(maxConcurrent, states', steps');
    } else {
      states', steps' := FinishAll(maxConcurrent, states', steps');
      WorkerConservation(maxConcurrent, states', steps', |steps'|);
    }
  }
}
