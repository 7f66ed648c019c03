/**
 The world around one process of the gateway. While the process awaits something, the rest of the
 system takes any number of steps, time passes, and notifications may arrive, get lost or be repeated.
 */
module World {
  import opened Keys
  import opened System
  import opened SliceNotifier

  /**
   What the rest of the system can do during an await. `Deliver` needs an announcement, but may repeat it or
   come late.
   */
  datatype Event = Do(step: Step) | Deliver(job: string) | OtherRegisters(job: string) | OtherUnregisters(job: string)

  datatype Wake = Notified | SenderGone | TimerFired

  /** The notifier as a value, with the jobs whose registrations other waits have made or removed, in order. */
  datatype Registry = Registry(jobs: map<string, nat>, versions: seq<nat>, touches: seq<string>) {
    /** The sender of channel `rx` is the one registered for the job. */
    predicate Holds(job: string, rx: nat) {
      job in jobs && jobs[job] == rx
    }

    /** Since there were `from` touches, some other wait has registered or unregistered the job. */
    ghost predicate TouchedSince(from: nat, job: string) {
      exists k :: from <= k < |touches| && touches[k] == job
    }

    ghost predicate Alive(rx: nat) {
      exists job :: Holds(job, rx)
    }

    /** A wait on channel `rx` that has seen version `seen` has nothing to wake up for. */
    ghost predicate Quiet(rx: nat, seen: nat) {
      rx < |versions| && versions[rx] == seen && Alive(rx)
    }
  }

  /** A channel only counts up; once its sender is dropped it stays so; and nobody drops it without touching its job. */
  ghost predicate ChannelLater(a: Registry, b: Registry, job: string, rx: nat) {
    && a.touches <= b.touches
    && (rx < |a.versions| ==>
          rx < |b.versions| && a.versions[rx] <= b.versions[rx] && (b.Holds(job, rx) ==> a.Holds(job, rx)))
    && (a.Holds(job, rx) && !b.TouchedSince(|a.touches|, job) ==> b.Holds(job, rx))
  }

  lemma ChannelLaterTwice(a: Registry, b: Registry, c: Registry, job: string, rx: nat)
    requires ChannelLater(a, b, job, rx) && ChannelLater(b, c, job, rx)
    ensures ChannelLater(a, c, job, rx)
  {
    if !c.TouchedSince(|a.touches|, job) {
      assert forall k :: |a.touches| <= k < |b.touches| ==> c.touches[k] == b.touches[k];
      assert !b.TouchedSince(|a.touches|, job) && !c.TouchedSince(|b.touches|, job);
    }
  }

  /** Unless the job has been touched since there were `from` touches, its registered sender is that of channel `rx`. */
  ghost predicate Kept(a: Registry, from: nat, job: string, rx: nat) {
    a.TouchedSince(from, job) || a.Holds(job, rx)
  }

  lemma KeptLater(a: Registry, b: Registry, from: nat, job: string, rx: nat)
    requires Kept(a, from, job, rx) && ChannelLater(a, b, job, rx) && from <= |a.touches|
    ensures Kept(b, from, job, rx)
    ensures a.TouchedSince(from, job) ==> b.TouchedSince(from, job)
  {
    if a.TouchedSince(from, job) {
      var k :| from <= k < |a.touches| && a.touches[k] == job;
      assert b.touches[k] == job;
    } else if b.TouchedSince(|a.touches|, job) {
      var k :| |a.touches| <= k < |b.touches| && b.touches[k] == job;
      assert from <= k;
    }
  }

  /** A touch of one job leaves the channels of all others alone. */
  lemma OneTouched(a: Registry, b: Registry, job: string)
    requires b.touches == a.touches + [job] && a.versions <= b.versions
    requires b.jobs == a.jobs - {job} || b.jobs == a.jobs[job := |a.versions|]
    ensures Later(a, b)
  {
    assert b.touches[|a.touches|] == job;
    forall j, rx ensures ChannelLater(a, b, j, rx) {
      assert j == job ==> b.TouchedSince(|a.touches|, j);
    }
  }

  ghost predicate Later(a: Registry, b: Registry) {
    forall job, rx :: ChannelLater(a, b, job, rx)
  }

  lemma LaterTwice(a: Registry, b: Registry, c: Registry)
    requires Later(a, b) && Later(b, c)
    ensures Later(a, c)
  {
    forall job, rx ensures ChannelLater(a, c, job, rx) {
      assert ChannelLater(a, b, job, rx) && ChannelLater(b, c, job, rx);
      ChannelLaterTwice(a, b, c, job, rx);
    }
  }

  /**
   A stretch of the run in which slices are read: how many steps had been taken, and how many awaits, when it began and
   when it ended, and which slices it tried to read, with one await each.
   */
  datatype Span = Span(begin: nat, end: nat, awaitsBegin: nat, awaitsEnd: nat, tried: seq<nat>)

  /** How things stood at the end of an await. */
  datatype Moment = Moment(clock: nat, registry: Registry)

  /**
   From await number `from` on, when the registry was `first`, up to await number `to`, each await began with
   nothing to wake up for and before `limit`.
   */
  ghost predicate WaitsOn(moments: seq<Moment>, from: nat, to: nat, first: Registry, rx: nat, seen: nat, limit: nat) {
    && to <= |moments|
    && (from < to ==> first.Quiet(rx, seen))
    && (forall j :: from < j < to ==> moments[j].registry.Quiet(rx, seen))
    && (forall j :: from <= j < to ==> moments[j].clock < limit)
  }

  lemma WaitsOnNext(moments: seq<Moment>, moments': seq<Moment>, from: nat, to: nat, first: Registry, rx: nat,
                    seen: nat, limit: nat)
    requires WaitsOn(moments, from, to, first, rx, seen, limit) && moments <= moments' && from <= to < |moments|
    requires moments[to].clock < limit && (if from == to then first else moments[to].registry).Quiet(rx, seen)
    ensures WaitsOn(moments', from, to + 1, first, rx, seen, limit)
  {
  }

  /** The channel registered for the job counts one up. */
  function Bumped(jobs: map<string, nat>, versions: seq<nat>, job: string): seq<nat> {
    if job in jobs && jobs[job] < |versions| then versions[jobs[job] := versions[jobs[job]] + 1] else versions
  }

  predicate ActsFor(step: Step, calls: set<nat>) {
    (step.Publish? || step.Read? || step.StoreResult? || step.GiveUp?) && step.call in calls
  }

  class World {
    const e: real -> real
    /** The events during the k-th await, the extra time it takes, and whether the store operation behind it fails. */
    const events: nat -> seq<Event>
    const delay: nat -> nat
    const fault: nat -> bool
    const notifier: SliceNotifier

    const init: State

    /** In nanoseconds, the resolution of the clock. */
    var clock: nat
    var awaits: nat

    var state: State
    /** Submissions only the process at hand acts for. */
    var mine: set<nat>

    /** Every step taken so far, and every state passed. */
    ghost var steps: seq<Step>
    ghost var states: seq<State>
    /** Those of the steps that the process at hand took. */
    ghost var acts: seq<Step>
    /** The moments after no await, after one, and so on up to the latest. */
    ghost var moments: seq<Moment>
    /** All events that have happened. */
    ghost var happened: seq<Event>
    /** The sweeps of the process at hand over the slices of a job. */
    ghost var sweeps: seq<Span>
    /** The jobs that other waits have registered or unregistered. */
    ghost var touches: seq<string>

    constructor (e: real -> real, events: nat -> seq<Event>, delay: nat -> nat, fault: nat -> bool, init: State)
      ensures this.e == e && this.events == events && this.delay == delay && this.fault == fault && this.init == init
      ensures state == init && mine == {} && steps == [] && sweeps == [] && touches == [] && awaits == 0
      ensures happened == [] && acts == []
      ensures fresh(notifier) && Valid()
    {
      this.e, this.events, this.delay, this.fault, this.init := e, events, delay, fault, init;
      this.notifier := new SliceNotifier();
      this.clock, this.awaits, this.state, this.mine := 0, 0, init, {};
      this.steps, this.states, this.sweeps, this.touches := [], [init], [], [];
      this.moments, this.happened, this.acts := [Moment(0, Registry(map[], [], []))], [], [];
    }

    /** The state is the outcome of a run of the system. */
    ghost predicate Valid()
      reads this, notifier
    {
      && notifier.Valid() && IsRun(e, states, steps) && states[0] == init && states[|steps|] == state
      && |moments| == awaits + 1 && moments[awaits].clock == clock
    }

    /** No store operation has failed since there were `from` awaits. */
    ghost predicate FaultlessSince(from: nat)
      reads this
    {
      forall k :: from < k <= awaits ==> !fault(k)
    }

    twostate predicate Elapsed()
      reads this
    {
      && old(steps) <= steps && old(states) <= states
      && old(clock) <= clock && old(awaits) <= awaits && old(sweeps) <= sweeps && old(moments) <= moments
    }

    ghost function Channels(): Registry
      reads this, notifier
    {
      Registry(notifier.jobs, notifier.versions, touches)
    }

    twostate predicate NotifierElapsed()
      reads this, notifier
    {
      Later(old(Channels()), Channels())
    }

    /** The registry only changes in awaits, and is on record since the latest. */
    twostate predicate RegistryOnRecord()
      reads this, notifier
    {
      if awaits == old(awaits) then Channels() == old(Channels())
      else awaits < |moments| && moments[awaits].registry == Channels()
    }

    /** Others have not touched the process's own submissions. */
    ghost predicate Undisturbed(was: seq<Call>)
      reads this
    {
      |was| <= |state.calls| && forall n :: n in mine && n < |was| ==> state.calls[n] == was[n]
    }

    /** One step of the system, by the process at hand. */
    method Act(step: Step)
      requires Valid()
      modifies this
      ensures Valid() && Elapsed()
      ensures state == Apply(e, old(state), step) && steps == old(steps) + [step]
      ensures mine == old(mine) && clock == old(clock) && awaits == old(awaits) && sweeps == old(sweeps)
      ensures touches == old(touches) && moments == old(moments) && happened == old(happened)
      ensures acts == old(acts) + [step]
    {
      RunMore(e, states, steps, step);
      state := Apply(e, state, step);
      steps, states, acts := steps + [step], states + [state], acts + [step];
    }

    /** Another wait registers or unregisters the job. */
    method Touch(job: string, registers: bool)
      requires Valid()
      modifies this`touches, notifier
      ensures Valid() && NotifierElapsed() && touches == old(touches) + [job]
      ensures registers ==> notifier.versions == old(notifier.versions) + [0]
      ensures registers ==> notifier.jobs == old(notifier.jobs)[job := |old(notifier.versions)|]
      ensures !registers ==> notifier.versions == old(notifier.versions) && notifier.jobs == old(notifier.jobs) - {job}
    {
      if registers {
        var _ := notifier.RegisterJob(job);
      } else {
        notifier.UnregisterJob(job);
      }
      touches := touches + [job];
      OneTouched(old(Channels()), Channels(), job);
    }

    /** A notification of the job arrives. */
    method Notify(job: string)
      requires Valid()
      modifies notifier
      ensures Valid() && NotifierElapsed() && notifier.jobs == old(notifier.jobs)
      ensures notifier.versions == Bumped(old(notifier.jobs), old(notifier.versions), job)
    {
      notifier.OnMessage(DoneChannel(job));
      ChannelRoundTrip(job, DoneChannel(job));
    }

    /** What an event does. The process's own submissions only move by its own steps. */
    twostate predicate Happened(event: Event)
      reads this, notifier
    {
      match event
      case Do(step) =>
        && notifier.jobs == old(notifier.jobs) && notifier.versions == old(notifier.versions)
        && steps == old(steps) + if ActsFor(step, mine) then [] else [step]
      case Deliver(job) =>
        && steps == old(steps) && notifier.jobs == old(notifier.jobs)
        && notifier.versions ==
          if job in old(state).announced then Bumped(old(notifier.jobs), old(notifier.versions), job)
          else old(notifier.versions)
      case OtherRegisters(job) =>
        && steps == old(steps) && notifier.versions == old(notifier.versions) + [0]
        && notifier.jobs == old(notifier.jobs)[job := |old(notifier.versions)|]
      case OtherUnregisters(job) =>
        && steps == old(steps) && notifier.versions == old(notifier.versions)
        && notifier.jobs == old(notifier.jobs) - {job}
    }

    method Happen(event: Event)
      requires Valid()
      modifies this, notifier
      ensures Valid() && Elapsed() && NotifierElapsed() && Happened(event)
      ensures acts == old(acts) && mine == old(mine) && clock == old(clock) && awaits == old(awaits)
      ensures sweeps == old(sweeps)
      ensures moments == old(moments) && happened == old(happened) + [event]
      ensures Undisturbed(old(state.calls))
    {
      happened := happened + [event];
      match event {
        case Do(step) =>
          if !ActsFor(step, mine) {
            RunMore(e, states, steps, step);
            state := Apply(e, state, step);
            steps, states := steps + [step], states + [state];
          }
        case Deliver(job) =>
          if job in state.announced {
            Notify(job);
          }
        case OtherRegisters(job) => Touch(job, true);
        case OtherUnregisters(job) => Touch(job, false);
      }
    }

    /** An await: the events of its time happen, and the clock advances by at least its resolution. */
    method Await()
      requires Valid()
      modifies this, notifier
      ensures Valid() && Elapsed() && NotifierElapsed()
      ensures acts == old(acts) && mine == old(mine) && sweeps == old(sweeps)
      ensures awaits == old(awaits) + 1 && clock == old(clock) + 1 + delay(old(awaits))
      ensures moments == old(moments) + [Moment(clock, Channels())]
      ensures happened == old(happened) + events(old(awaits))
      ensures Undisturbed(old(state.calls))
    {
      var todo := events(awaits);
      for i := 0 to |todo|
        invariant Valid() && Elapsed() && NotifierElapsed()
        invariant acts == old(acts) && mine == old(mine) && sweeps == old(sweeps) && moments == old(moments)
        invariant awaits == old(awaits) && clock == old(clock)
        invariant happened == old(happened) + todo[..i]
        invariant Undisturbed(old(state.calls))
      {
        ghost var channels := Channels();
        Happen(todo[i]);
        LaterTwice(old(Channels()), channels, Channels());
        assert todo[..i + 1] == todo[..i] + [todo[i]];
      }
      clock := clock + 1 + delay(awaits);
      awaits := awaits + 1;
      moments := moments + [Moment(clock, Channels())];
    }

    /**
     `timeout(step, rx.changed())`: ends at the first change not yet seen, at once when the sender is gone, or
     when the timer fires; until then it goes on.
     */
    method Changed(rx: nat, seen: nat, step: nat) returns (seen': nat, wake: Wake)
      requires Valid()
      requires rx < |notifier.versions| && seen <= notifier.versions[rx]
      modifies this, notifier
      ensures Valid() && Elapsed() && NotifierElapsed()
      ensures acts == old(acts) && mine == old(mine) && sweeps == old(sweeps)
      ensures Undisturbed(old(state.calls))
      ensures rx < |notifier.versions| && seen' == notifier.versions[rx]
      ensures wake.Notified? ==> seen < seen'
      ensures wake.SenderGone? ==> !notifier.Alive(rx) && seen' == seen
      ensures wake.TimerFired? ==> old(clock) + step <= clock && seen' == seen
      ensures WaitsOn(moments, old(awaits), awaits, old(Channels()), rx, seen, old(clock) + step)
      ensures old(awaits) < awaits ==> moments[awaits].registry == Channels()
      ensures awaits == old(awaits) ==> Channels() == old(Channels())
    {
      var start := clock;
      while true
        invariant Valid() && Elapsed() && NotifierElapsed()
        invariant acts == old(acts) && mine == old(mine) && sweeps == old(sweeps)
        invariant Undisturbed(old(state.calls))
        invariant rx < |notifier.versions| && seen <= notifier.versions[rx]
        invariant WaitsOn(moments, old(awaits), awaits, old(Channels()), rx, seen, start + step)
        invariant old(awaits) < awaits ==> moments[awaits].registry == Channels()
        invariant awaits == old(awaits) ==> Channels() == old(Channels())
        decreases start + step - clock
      {
        if seen < notifier.versions[rx] {
          return notifier.versions[rx], Notified;
        }
        if !notifier.Alive(rx) {
          return seen, SenderGone;
        }
        if start + step <= clock {
          return seen, TimerFired;
        }
        ghost var channels, before, k := Channels(), moments, awaits;
        ghost var job :| job in notifier.jobs && notifier.jobs[job] == rx;
        assert channels.Holds(job, rx) && channels.Quiet(rx, seen);
        Await();
        LaterTwice(old(Channels()), channels, Channels());
        WaitsOnNext(before, moments, old(awaits), k, old(Channels()), rx, seen, start + step);
        assert ChannelLater(channels, Channels(), "", rx);
      }
    }
  }
}
