/** The gateway's wait for the slices of one job. */
module Collector {
  import opened Aggregation
  import opened Slicing
  import opened Keys
  import opened System
  import opened World

  /** The longest wait between two sweeps, 100 milliseconds, in nanoseconds. */
  const POLL: nat := 100_000_000

  /** In some state from index `from` on, slice `i` of the job could be read as `s`. */
  ghost predicate HeldSince(states: seq<State>, from: nat, job: string, i: nat, s: SliceStats) {
    exists t :: from <= t < |states| && ReadableAt(states[t].store, job, i) == Some(s)
  }

  /** In some state from index `from` on, slice `i` of the job could not be read. */
  ghost predicate MissingSince(states: seq<State>, from: nat, job: string, i: nat) {
    exists t :: from <= t < |states| && ReadableAt(states[t].store, job, i).None?
  }

  lemma MissingLater(states: seq<State>, states': seq<State>, from: nat, job: string, i: nat)
    requires states <= states' && MissingSince(states, from, job, i)
    ensures MissingSince(states', from, job, i)
  {
    var t :| from <= t < |states| && ReadableAt(states[t].store, job, i).None?;
    assert states'[t] == states[t];
  }

  lemma HeldLater(states: seq<State>, states': seq<State>, from: nat, job: string, i: nat, s: SliceStats)
    requires states <= states' && HeldSince(states, from, job, i, s)
    ensures HeldSince(states', from, job, i, s)
  {
    var t :| from <= t < |states| && ReadableAt(states[t].store, job, i) == Some(s);
    assert states'[t] == states[t];
  }

  /** Slice `i` of the job could not be read in some state of the stretch. */
  ghost predicate MissingDuring(states: seq<State>, span: Span, job: string, i: nat) {
    exists t :: span.begin <= t <= span.end && t < |states| && ReadableAt(states[t].store, job, i).None?
  }

  /** Of the reads after await number `awaits`, one each, that of slice `i` failed. */
  ghost predicate ReadFailed(fault: nat -> bool, awaits: nat, tried: seq<nat>, i: nat) {
    exists j :: 0 <= j < |tried| && tried[j] == i && fault(awaits + 1 + j)
  }

  /** The sweep could not read slice `i`, or its one attempt to do so failed. */
  ghost predicate MissedBy(fault: nat -> bool, states: seq<State>, span: Span, job: string, i: nat) {
    MissingDuring(states, span, job, i) || ReadFailed(fault, span.awaitsBegin, span.tried, i)
  }

  /** None of the sweeps from number `first` on could read slice `i`. */
  ghost predicate MissedThroughout(fault: nat -> bool, states: seq<State>, sweeps: seq<Span>, first: nat, job: string,
                                   i: nat) {
    forall k :: first <= k < |sweeps| ==> MissedBy(fault, states, sweeps[k], job, i)
  }

  /** None of the sweeps from number `first` on, of which there are some, could read one and the same slice. */
  ghost predicate MissedInEverySweep(fault: nat -> bool, states: seq<State>, sweeps: seq<Span>, first: nat, job: string,
                                     total: nat) {
    first < |sweeps| && exists i :: 0 <= i < total && MissedThroughout(fault, states, sweeps, first, job, i)
  }

  lemma MissedLater(fault: nat -> bool, states: seq<State>, states': seq<State>, sweeps: seq<Span>, first: nat,
                    job: string, i: nat)
    requires MissedThroughout(fault, states, sweeps, first, job, i) && states <= states'
    ensures MissedThroughout(fault, states', sweeps, first, job, i)
  {
    forall k | first <= k < |sweeps| ensures MissedBy(fault, states', sweeps[k], job, i) {
      var span := sweeps[k];
      assert MissedBy(fault, states, span, job, i);
      if MissingDuring(states, span, job, i) {
        var t :| span.begin <= t <= span.end && t < |states| && ReadableAt(states[t].store, job, i).None?;
        assert states'[t] == states[t];
      }
    }
  }

  // ----- What is held of a job's slices

  /** The slices read so far, which they are, and how many are missing. */
  datatype Held = Held(stats: seq<SliceStats>, have: seq<bool>, remaining: nat)

  /** The read slices are recorded with the submission. */
  ghost predicate AllSeen(calls: seq<Call>, n: nat, h: Held)
    requires |h.have| == |h.stats|
  {
    n < |calls| ==>
      forall i :: 0 <= i < |h.have| && h.have[i] && i < |calls[n].slices| ==> (i, h.stats[i]) in calls[n].seen
  }

  function CountMissing(have: seq<bool>): (n: nat)
    ensures n <= |have|
  {
    if have == [] then 0 else (if have[0] then 0 else 1) + CountMissing(have[1..])
  }

  lemma {:induction false} CountAfterFound(have: seq<bool>, i: nat)
    requires i < |have| && !have[i]
    ensures CountMissing(have[i := true]) == CountMissing(have) - 1
  {
    if i == 0 {
      assert have[0 := true][1..] == have[1..];
    } else {
      CountAfterFound(have[1..], i - 1);
      assert have[i := true][1..] == have[1..][i - 1 := true];
    }
  }

  lemma CountFrom(have: seq<bool>, i: nat)
    requires i < |have|
    ensures CountMissing(have[i..]) == (if have[i] then 0 else 1) + CountMissing(have[i + 1..])
  {
    assert have[i..][1..] == have[i + 1..];
  }

  lemma {:induction false} NoneMissing(have: seq<bool>)
    ensures CountMissing(have) == 0 <==> forall i :: 0 <= i < |have| ==> have[i]
  {
    if have != [] {
      NoneMissing(have[1..]);
      var tail := have[1..];
      assert (forall i :: 0 <= i < |have| ==> have[i]) <==> have[0] && forall i :: 0 <= i < |tail| ==> tail[i] by {
        assert forall i :: 0 < i < |have| ==> have[i] == have[1..][i - 1];
      }
    }
  }

  ghost predicate SameButSeen(c: Call, c': Call) {
    c' == c.(seen := c'.seen) && c.seen <= c'.seen
  }

  /** Of the process's own submissions, only what submission `n` has seen may change. */
  ghost predicate OnlyReads(mine: set<nat>, n: nat, calls: seq<Call>, calls': seq<Call>) {
    && |calls| <= |calls'|
    && (forall m :: m in mine && m != n && m < |calls| ==> calls'[m] == calls[m])
    && (n in mine && n < |calls| ==> SameButSeen(calls[n], calls'[n]))
  }

  lemma OnlyReadsTwice(mine: set<nat>, n: nat, a: seq<Call>, b: seq<Call>, c: seq<Call>)
    requires OnlyReads(mine, n, a, b) && OnlyReads(mine, n, b, c)
    ensures OnlyReads(mine, n, a, c)
  {
  }

  /** All the process has done meanwhile is to read for submission `n`. */
  ghost predicate ReadFor(acts: seq<Step>, acts': seq<Step>, n: nat) {
    acts <= acts' && forall k :: |acts| <= k < |acts'| ==> acts'[k].Read? && acts'[k].call == n
  }

  lemma ReadForTwice(a: seq<Step>, b: seq<Step>, c: seq<Step>, n: nat)
    requires ReadFor(a, b, n) && ReadFor(b, c, n)
    ensures ReadFor(a, c, n)
  {
  }

  /** Whatever is held could be read at some moment since step `from`. */
  ghost predicate Gathered(states: seq<State>, from: nat, job: string, h: Held) {
    && |h.have| == |h.stats|
    && forall i :: 0 <= i < |h.have| && h.have[i] ==> HeldSince(states, from, job, i, h.stats[i])
  }

  lemma GatheredLater(states: seq<State>, states': seq<State>, from: nat, job: string, h: Held)
    requires Gathered(states, from, job, h) && states <= states'
    ensures Gathered(states', from, job, h)
  {
    forall i | 0 <= i < |h.have| && h.have[i] ensures HeldSince(states', from, job, i, h.stats[i]) {
      HeldLater(states, states', from, job, i, h.stats[i]);
    }
  }

  /** Whatever is not held could not be read in any of the sweeps from number `first` on. */
  ghost predicate AllMissed(fault: nat -> bool, states: seq<State>, sweeps: seq<Span>, first: nat, job: string,
                            h: Held) {
    forall i :: 0 <= i < |h.have| && !h.have[i] ==> MissedThroughout(fault, states, sweeps, first, job, i)
  }

  lemma AllMissedLater(fault: nat -> bool, states: seq<State>, states': seq<State>, sweeps: seq<Span>, first: nat,
                       job: string, h: Held)
    requires AllMissed(fault, states, sweeps, first, job, h) && states <= states'
    ensures AllMissed(fault, states', sweeps, first, job, h)
  {
    forall i | 0 <= i < |h.have| && !h.have[i] ensures MissedThroughout(fault, states', sweeps, first, job, i) {
      MissedLater(fault, states, states', sweeps, first, job, i);
    }
  }

  /**
   One attempt to read a slice; a failing store operation reads nothing. What is read is recorded with
   submission `n`.
   */
  method ReadSlice(world: World, n: nat, job: string, i: nat) returns (r: Option<SliceStats>)
    requires world.Valid()
    requires n in world.mine ==> n < |world.state.calls| && world.state.calls[n].job == job
    modifies world, world.notifier
    ensures world.Valid() && world.Elapsed() && world.NotifierElapsed()
    ensures world.mine == old(world.mine) && world.sweeps == old(world.sweeps)
    ensures world.awaits == old(world.awaits) + 1 && old(world.clock) < world.clock
    ensures world.moments[world.awaits].registry == world.Channels()
    ensures OnlyReads(world.mine, n, old(world.state.calls), world.state.calls)
    ensures ReadFor(old(world.acts), world.acts, n)
    ensures r == if world.fault(world.awaits) then None else ReadableAt(world.state.store, job, i)
    ensures n in world.mine && r.Some? && i < |world.state.calls[n].slices| ==>
      (i, r.value) in world.state.calls[n].seen
  {
    world.Await();
    r := if world.fault(world.awaits) then None else ReadableAt(world.state.store, job, i);
    if r.Some? {
      world.Act(Read(n, i));
    }
  }

  /** What is held is in order, and recorded with submission `n`. */
  ghost predicate Collecting(world: World, n: nat, job: string, h: Held)
    reads world, world.notifier
  {
    && world.Valid() && |h.have| == |h.stats|
    && (n in world.mine ==>
          n < |world.state.calls| && world.state.calls[n].job == job && AllSeen(world.state.calls, n, h))
    && h.remaining == CountMissing(h.have)
  }

  /** Time has passed, and the process's own submissions have at most been read for. */
  twostate predicate Waited(world: World, n: nat)
    reads world, world.notifier
  {
    && world.Elapsed() && world.NotifierElapsed()
    && world.mine == old(world.mine)
    && OnlyReads(world.mine, n, old(world.state.calls), world.state.calls)
    && ReadFor(old(world.acts), world.acts, n)
  }

  /** The attempt on slice `i`, unless it is held already: it is read as it stands in the store, or stays missing. */
  ghost predicate Tried(store: Store, job: string, i: nat, h: Held, h': Held, failed: bool)
    requires |h.have| == |h.stats| && i < |h.have|
  {
    if h.have[i] then h' == h
    else if |h'.have| == |h.have| && h'.have[i] then
      !failed &&
      exists s :: h'.stats == h.stats[i := s] && h'.have == h.have[i := true] && ReadableAt(store, job, i) == Some(s)
    else h' == h && (failed || ReadableAt(store, job, i).None?)
  }

  /** The sweep's work on slice `i`, which awaits the store unless the slice is already held. */
  method TrySlice(world: World, n: nat, job: string, i: nat, h: Held) returns (h': Held)
    requires Collecting(world, n, job, h)
    requires i < |h.have|
    modifies world, world.notifier
    ensures Collecting(world, n, job, h') && Waited(world, n)
    ensures world.sweeps == old(world.sweeps)
    ensures world.awaits == old(world.awaits) + if h.have[i] then 0 else 1
    ensures !h.have[i] ==> old(world.clock) < world.clock
    ensures world.RegistryOnRecord()
    ensures Tried(world.state.store, job, i, h, h', world.fault(world.awaits))
    ensures h'.remaining <= h.remaining
  {
    h' := h;
    if !h.have[i] {
      var s := ReadSlice(world, n, job, i);
      if s.Some? {
        CountAfterFound(h.have, i);
        h' := Held(h.stats[i := s.value], h.have[i := true], h.remaining - 1);
      }
    }
  }

  /** Which slices a sweep has read so far, and after how many awaits it began. */
  datatype Reads = Reads(fault: nat -> bool, awaits: nat, slices: seq<nat>)

  /** Slice `i` could not be read since the run was `since` steps long, or the attempt failed. */
  ghost predicate MissedSince(states: seq<State>, since: nat, tried: Reads, job: string, i: nat) {
    MissingSince(states, since, job, i) || ReadFailed(tried.fault, tried.awaits, tried.slices, i)
  }

  /** The slices read are those not yet held, in order, among the first `k`. */
  ghost predicate InOrder(slices: seq<nat>, k: nat) {
    && (forall j :: 0 <= j < |slices| ==> slices[j] < k)
    && (forall j, l :: 0 <= j < l < |slices| ==> slices[j] < slices[l])
  }

  /**
   The first `k` slices have been gone through since the run was `since` steps long: what was held stays, what is
   newly held could be read in the meantime, and whatever is still not held could not, or the attempt failed.
   */
  ghost predicate Swept(states: seq<State>, since: nat, job: string, k: nat, h0: Held, h: Held, tried: Reads) {
    && |h.have| == |h.stats| == |h0.have| == |h0.stats| && k <= |h.have|
    && (forall i :: 0 <= i < |h.have| && (h0.have[i] || k <= i) ==>
          h.have[i] == h0.have[i] && h.stats[i] == h0.stats[i])
    && (forall i :: 0 <= i < k && h.have[i] && !h0.have[i] ==> HeldSince(states, since, job, i, h.stats[i]))
    && (forall i :: 0 <= i < k && !h.have[i] ==> MissedSince(states, since, tried, job, i))
    && InOrder(tried.slices, k) && (forall j :: 0 <= j < |tried.slices| ==> !h0.have[tried.slices[j]])
    && |tried.slices| + CountMissing(h0.have[k..]) == CountMissing(h0.have)
  }

  lemma SweptNext(states: seq<State>, states': seq<State>, since: nat, job: string, k: nat, h0: Held, h: Held,
                  tried: Reads, h': Held, tried': Reads)
    requires Swept(states, since, job, k, h0, h, tried) && k < |h.have|
    requires states <= states' && since < |states|
    requires tried' == if h.have[k] then tried else tried.(slices := tried.slices + [k])
    requires Tried(states'[|states'| - 1].store, job, k, h, h', tried.fault(tried.awaits + 1 + |tried.slices|))
    ensures Swept(states', since, job, k + 1, h0, h', tried')
  {
    CountFrom(h0.have, k);
    forall i | 0 <= i <= k && h'.have[i] && !h0.have[i] ensures HeldSince(states', since, job, i, h'.stats[i]) {
      if i < k {
        HeldLater(states, states', since, job, i, h.stats[i]);
      }
    }
    forall i | 0 <= i <= k && !h'.have[i] ensures MissedSince(states', since, tried', job, i) {
      if i < k {
        MissedSinceLater(states, states', since, tried, tried', job, i);
      } else {
        assert tried'.slices[|tried.slices|] == k;
      }
    }
  }

  lemma MissedSinceLater(states: seq<State>, states': seq<State>, since: nat, tried: Reads, tried': Reads, job: string,
                         i: nat)
    requires MissedSince(states, since, tried, job, i) && states <= states'
    requires tried'.fault == tried.fault && tried'.awaits == tried.awaits && tried.slices <= tried'.slices
    ensures MissedSince(states', since, tried', job, i)
  {
    if MissingSince(states, since, job, i) {
      MissingLater(states, states', since, job, i);
    } else {
      var j :| 0 <= j < |tried.slices| && tried.slices[j] == i && tried.fault(tried.awaits + 1 + j);
      assert tried'.slices[j] == i;
    }
  }

  /** What a sweep adds could be read during the wait it belongs to. */
  lemma GatheredBySweep(states: seq<State>, states': seq<State>, from: nat, since: nat, job: string, h0: Held, h: Held,
                        tried: Reads)
    requires Gathered(states, from, job, h0) && states <= states' && from <= since
    requires Swept(states', since, job, |h0.have|, h0, h, tried)
    ensures Gathered(states', from, job, h)
  {
    forall i | 0 <= i < |h.have| && h.have[i] ensures HeldSince(states', from, job, i, h.stats[i]) {
      if h0.have[i] {
        HeldLater(states, states', from, job, i, h.stats[i]);
      } else {
        var t :| since <= t < |states'| && ReadableAt(states'[t].store, job, i) == Some(h.stats[i]);
      }
    }
  }

  /** What is not held after a sweep was missed by it, as by all earlier ones. */
  lemma MissedBySweep(fault: nat -> bool, states: seq<State>, states': seq<State>, sweeps: seq<Span>, first: nat,
                      span: Span, job: string, h0: Held, h: Held)
    requires AllMissed(fault, states, sweeps, first, job, h0) && states <= states'
    requires states' != [] && span.end == |states'| - 1
    requires Swept(states', span.begin, job, |h0.have|, h0, h, Reads(fault, span.awaitsBegin, span.tried))
    ensures AllMissed(fault, states', sweeps + [span], first, job, h)
  {
    var sweeps' := sweeps + [span];
    forall i | 0 <= i < |h.have| && !h.have[i] ensures MissedThroughout(fault, states', sweeps', first, job, i) {
      MissedLater(fault, states, states', sweeps, first, job, i);
      assert MissedSince(states', span.begin, Reads(fault, span.awaitsBegin, span.tried), job, i);
      if MissingSince(states', span.begin, job, i) {
        var t :| span.begin <= t < |states'| && ReadableAt(states'[t].store, job, i).None?;
        assert MissingDuring(states', span, job, i);
      }
      assert MissedBy(fault, states', span, job, i);
    }
  }

  /** How the world stood when a sweep began. */
  datatype Start = Start(states: seq<State>, steps: seq<Step>, sweeps: seq<Span>, moments: seq<Moment>, awaits: nat,
                         clock: nat, channels: Registry, calls: seq<Call>, mine: set<nat>, acts: seq<Step>)

  ghost function Now(world: World): Start
    reads world, world.notifier
  {
    Start(world.states, world.steps, world.sweeps, world.moments, world.awaits, world.clock, world.Channels(),
          world.state.calls, world.mine, world.acts)
  }

  /** After each of the awaits, the channel was a later state of what it was in `channels`. */
  ghost predicate LaterThroughout(channels: Registry, moments: seq<Moment>, from: nat, to: nat, job: string, rx: nat) {
    forall a :: from < a <= to && a < |moments| ==> ChannelLater(channels, moments[a].registry, job, rx)
  }

  lemma LaterNext(a: Registry, b: Registry, c: Registry, moments: seq<Moment>, moments': seq<Moment>, from: nat,
                  to: nat, to': nat, job: string, rx: nat)
    requires ChannelLater(a, b, job, rx) && ChannelLater(b, c, job, rx)
    requires LaterThroughout(a, moments, from, to, job, rx) && moments <= moments' && to < |moments|
    requires to' == to || (to' == to + 1 < |moments'| && moments'[to'].registry == c)
    ensures ChannelLater(a, c, job, rx) && LaterThroughout(a, moments', from, to', job, rx)
  {
    ChannelLaterTwice(a, b, c, job, rx);
  }

  /** A sweep that began at `b` with `h0` held has gone through the first `k` slices, read some, and holds `h`. */
  ghost predicate InSweep(world: World, b: Start, n: nat, job: string, rx: nat, k: nat, h0: Held, h: Held,
                          tried: seq<nat>)
    reads world, world.notifier
  {
    && Collecting(world, n, job, h) && k <= |h0.have|
    && b.states <= world.states && b.steps <= world.steps && b.moments <= world.moments && world.sweeps == b.sweeps
    && world.mine == b.mine && OnlyReads(b.mine, n, b.calls, world.state.calls)
    && ReadFor(b.acts, world.acts, n)
    && ChannelLater(b.channels, world.Channels(), job, rx)
    && LaterThroughout(b.channels, world.moments, b.awaits, world.awaits, job, rx)
    && |b.states| == |b.steps| + 1
    && Swept(world.states, |b.steps|, job, k, h0, h, Reads(world.fault, b.awaits, tried))
    && world.awaits == b.awaits + |tried|
    && b.clock <= world.clock && (b.awaits < world.awaits ==> b.clock < world.clock)
    && (if world.awaits == b.awaits then world.Channels() == b.channels
        else world.moments[world.awaits].registry == world.Channels())
    && h.remaining <= h0.remaining
  }

  /** The sweep goes on to the next slice. */
  method SweepSlice(world: World, ghost b: Start, n: nat, job: string, ghost rx: nat, k: nat, ghost h0: Held, h: Held,
                    ghost tried: seq<nat>)
    returns (h': Held, ghost tried': seq<nat>)
    requires InSweep(world, b, n, job, rx, k, h0, h, tried) && k < |h0.have|
    modifies world, world.notifier
    ensures InSweep(world, b, n, job, rx, k + 1, h0, h', tried')
  {
    h' := TrySlice(world, n, job, k, h);
    assert ChannelLater(old(world.Channels()), world.Channels(), job, rx);
    LaterNext(b.channels, old(world.Channels()), world.Channels(), old(world.moments), world.moments, b.awaits,
              old(world.awaits), world.awaits, job, rx);
    OnlyReadsTwice(b.mine, n, b.calls, old(world.state.calls), world.state.calls);
    ReadForTwice(b.acts, old(world.acts), world.acts, n);
    tried' := if h.have[k] then tried else tried + [k];
    SweptNext(old(world.states), world.states, |b.steps|, job, k, h0, h, Reads(world.fault, b.awaits, tried), h',
              Reads(world.fault, b.awaits, tried'));
  }

  /** One pass over the slices not yet held. */
  method Sweep(world: World, n: nat, job: string, h0: Held, ghost rx: nat) returns (h: Held, ghost tried: seq<nat>)
    requires Collecting(world, n, job, h0)
    modifies world, world.notifier
    ensures Collecting(world, n, job, h) && world.Elapsed() && world.mine == old(world.mine)
    ensures OnlyReads(world.mine, n, old(world.state.calls), world.state.calls)
    ensures ReadFor(old(world.acts), world.acts, n)
    ensures ChannelLater(old(world.Channels()), world.Channels(), job, rx)
    ensures LaterThroughout(old(world.Channels()), world.moments, old(world.awaits), world.awaits, job, rx)
    ensures world.sweeps ==
      old(world.sweeps) + [Span(|old(world.steps)|, |world.steps|, old(world.awaits), world.awaits, tried)]
    ensures world.awaits == old(world.awaits) + h0.remaining == old(world.awaits) + |tried|
    ensures world.RegistryOnRecord()
    ensures Swept(world.states, |old(world.steps)|, job, |h0.have|, h0, h, Reads(world.fault, old(world.awaits), tried))
    ensures h0.remaining > 0 ==> old(world.clock) < world.clock
    ensures h.remaining <= h0.remaining
  {
    h, tried := h0, [];
    ghost var b := Now(world);
    assert h0.have[0..] == h0.have;
    for k := 0 to |h0.have|
      invariant InSweep(world, b, n, job, rx, k, h0, h, tried)
    {
      h, tried := SweepSlice(world, b, n, job, rx, k, h0, h, tried);
    }
    world.sweeps := world.sweeps + [Span(|b.steps|, |world.steps|, b.awaits, world.awaits, tried)];
  }

  /** After `elapsed` of a wait, at most one timer has fired per poll interval. */
  ghost predicate Paced(fired: nat, elapsed: int, timeout: nat) {
    POLL * fired < timeout + POLL && (elapsed < timeout ==> POLL * fired <= elapsed)
  }

  lemma PacedLater(fired: nat, elapsed: int, elapsed': int, timeout: nat)
    requires Paced(fired, elapsed, timeout) && elapsed <= elapsed'
    ensures Paced(fired, elapsed', timeout)
    ensures 0 <= elapsed'
  {
  }

  lemma TimerPaced(fired: nat, elapsed: int, elapsed': int, timeout: nat)
    requires Paced(fired, elapsed, timeout) && elapsed < timeout
    requires elapsed + (if timeout - elapsed < POLL then timeout - elapsed else POLL) <= elapsed'
    ensures Paced(fired + 1, elapsed', timeout)
  {
  }

  /** How the waits between sweeps ended. */
  datatype Wakes = Wakes(notified: nat, fired: nat, gone: nat) {
    function Total(): nat { notified + fired + gone }
  }

  /** Every wake-up takes time. */
  ghost predicate Lasted(wakes: nat, elapsed: int, timeout: nat) {
    wakes > 0 ==> wakes <= elapsed && wakes <= timeout
  }

  /** Each wake-up by the notifier used up a notification, timers keep their pace, and every wake-up takes time. */
  ghost predicate Accounted(version: nat, elapsed: int, seen: nat, timeout: nat, w: Wakes) {
    && w.notified <= seen <= version
    && Paced(w.fired, elapsed, timeout)
    && Lasted(w.Total(), elapsed, timeout)
  }

  lemma AccountedLater(version: nat, elapsed: int, version': nat, elapsed': int, seen: nat, timeout: nat, w: Wakes)
    requires Accounted(version, elapsed, seen, timeout, w) && version <= version' && elapsed <= elapsed'
    ensures Accounted(version', elapsed', seen, timeout, w)
    ensures elapsed < elapsed' ==> w.Total() < elapsed'
  {
    PacedLater(w.fired, elapsed, elapsed', timeout);
    PacedLater(w.fired, elapsed, elapsed, timeout);
  }

  // ----- The wait

  /**
   A wait for the slices of submission `n`: its channel, when it began and how long it may take; and how many
   steps, touches, sweeps and awaits there had been when it began.
   */
  datatype Wait = Wait(n: nat, job: string, rx: nat, start: nat, timeout: nat,
                       ghost from: nat, ghost touched: nat, ghost first: nat, ghost awaits: nat)

  /** A wait between its sweeps: what is held, and how it was woken so far. */
  ghost predicate Waiting(world: World, wait: Wait, h: Held, seen: nat, w: Wakes)
    reads world, world.notifier
  {
    && Collecting(world, wait.n, wait.job, h)
    && wait.from < |world.states| && Gathered(world.states, wait.from, wait.job, h)
    && wait.awaits <= world.awaits && wait.first <= |world.sweeps|
    && AllMissed(world.fault, world.states, world.sweeps, wait.first, wait.job, h)
    && wait.rx < |world.notifier.versions|
    && Accounted(world.notifier.versions[wait.rx], world.clock - wait.start, seen, wait.timeout, w)
    && wait.touched <= |world.touches| && Kept(world.Channels(), wait.touched, wait.job, wait.rx)
    && (world.Channels().TouchedSince(wait.touched, wait.job) || w.gone == 0)
    && (wait.awaits < world.awaits ==> world.moments[world.awaits].registry == world.Channels())
    && Brisk(world.sweeps, wait.first, |h.have|)
    && RegisteredInSweeps(world.moments, world.sweeps, wait.first, wait.touched, wait.job, wait.rx)
    && Retries(world.fault, world.states, world.sweeps, wait.first, wait.job, |h.have|)
  }

  /** There is something to read. */
  ghost predicate MoreToRead(world: World, wait: Wait, h: Held)
    reads world
  {
    if |world.sweeps| == wait.first then h.remaining == |h.have| else h.remaining > 0
  }

  /**
   After each await of the sweeps from number `first` on, the job's registered sender was that of channel `rx`, unless
   some other wait had touched the job since there were `touched` touches.
   */
  ghost predicate RegisteredInSweeps(moments: seq<Moment>, sweeps: seq<Span>, first: nat, touched: nat, job: string,
                                     rx: nat) {
    forall k, a :: first <= k < |sweeps| && sweeps[k].awaitsBegin < a <= sweeps[k].awaitsEnd ==>
      RegisteredAt(moments, a, touched, job, rx)
  }

  ghost predicate RegisteredAt(moments: seq<Moment>, a: nat, touched: nat, job: string, rx: nat) {
    a < |moments| && Kept(moments[a].registry, touched, job, rx)
  }

  lemma StillRegistered(moments: seq<Moment>, moments': seq<Moment>, sweeps: seq<Span>, first: nat, touched: nat,
                        job: string, rx: nat)
    requires RegisteredInSweeps(moments, sweeps, first, touched, job, rx) && moments <= moments'
    ensures RegisteredInSweeps(moments', sweeps, first, touched, job, rx)
  {
    forall k, a | first <= k < |sweeps| && sweeps[k].awaitsBegin < a <= sweeps[k].awaitsEnd
      ensures RegisteredAt(moments', a, touched, job, rx)
    {
      assert RegisteredAt(moments, a, touched, job, rx);
    }
  }

  lemma RegisteredBySweep(channels: Registry, moments: seq<Moment>, moments': seq<Moment>, sweeps: seq<Span>,
                          span: Span, first: nat, touched: nat, job: string, rx: nat)
    requires RegisteredInSweeps(moments, sweeps, first, touched, job, rx) && moments <= moments'
    requires Kept(channels, touched, job, rx) && touched <= |channels.touches| && span.awaitsEnd < |moments'|
    requires LaterThroughout(channels, moments', span.awaitsBegin, span.awaitsEnd, job, rx)
    ensures RegisteredInSweeps(moments', sweeps + [span], first, touched, job, rx)
  {
    StillRegistered(moments, moments', sweeps, first, touched, job, rx);
    forall a: nat | span.awaitsBegin < a <= span.awaitsEnd ensures RegisteredAt(moments', a, touched, job, rx) {
      KeptLater(channels, moments'[a].registry, touched, job, rx);
    }
    var sweeps' := sweeps + [span];
    forall k, a | first <= k < |sweeps'| && sweeps'[k].awaitsBegin < a <= sweeps'[k].awaitsEnd
      ensures RegisteredAt(moments', a, touched, job, rx)
    {
      if k < |sweeps| {
        assert sweeps[k].awaitsBegin < a <= sweeps[k].awaitsEnd;
      }
    }
  }

  /** Each sweep reads slices in order, none of them twice, and awaits nothing else. */
  ghost predicate Brisk(sweeps: seq<Span>, first: nat, total: nat) {
    forall k :: first <= k < |sweeps| ==>
      InOrder(sweeps[k].tried, total) && sweeps[k].awaitsEnd == sweeps[k].awaitsBegin + |sweeps[k].tried|
  }

  // ----- What a wait reads

  /** Sweep `k` is the first, and reads every slice; or it reads some, each missed by all sweeps from `first` to it. */
  ghost predicate RetriesAt(fault: nat -> bool, states: seq<State>, sweeps: seq<Span>, first: nat, job: string,
                            total: nat, k: nat)
    requires first <= k < |sweeps|
  {
    var tried := sweeps[k].tried;
    if k == first then |tried| == total && forall i :: 0 <= i < total ==> tried[i] == i
    else
      && tried != []
      && forall j :: 0 <= j < |tried| ==> MissedThroughout(fault, states, sweeps[..k], first, job, tried[j])
  }

  /** The first sweep reads every slice, and the wait goes on only to read those that no sweep so far could read. */
  ghost predicate Retries(fault: nat -> bool, states: seq<State>, sweeps: seq<Span>, first: nat, job: string,
                          total: nat) {
    forall k :: first <= k < |sweeps| ==> RetriesAt(fault, states, sweeps, first, job, total, k)
  }

  lemma RetriesLater(fault: nat -> bool, states: seq<State>, states': seq<State>, sweeps: seq<Span>, sweeps': seq<Span>,
                     first: nat, job: string, total: nat, k: nat)
    requires first <= k < |sweeps| && RetriesAt(fault, states, sweeps, first, job, total, k)
    requires states <= states' && sweeps <= sweeps'
    ensures RetriesAt(fault, states', sweeps', first, job, total, k)
  {
    assert sweeps'[..k] == sweeps[..k];
    if first < k {
      forall j | 0 <= j < |sweeps[k].tried|
        ensures MissedThroughout(fault, states', sweeps'[..k], first, job, sweeps[k].tried[j])
      {
        MissedLater(fault, states, states', sweeps[..k], first, job, sweeps[k].tried[j]);
      }
    }
  }

  lemma StillRetries(fault: nat -> bool, states: seq<State>, states': seq<State>, sweeps: seq<Span>, first: nat,
                     job: string, total: nat)
    requires Retries(fault, states, sweeps, first, job, total) && states <= states'
    ensures Retries(fault, states', sweeps, first, job, total)
  {
    forall k | first <= k < |sweeps| ensures RetriesAt(fault, states', sweeps, first, job, total, k) {
      RetriesLater(fault, states, states', sweeps, sweeps, first, job, total, k);
    }
  }

  /** As many numbers below `total`, in order, as there are, are all of them. */
  lemma {:induction false} AllInOrder(slices: seq<nat>, total: nat)
    requires InOrder(slices, total) && |slices| == total
    ensures forall i :: 0 <= i < total ==> slices[i] == i
  {
    if total > 0 {
      var rest := slices[..total - 1];
      forall j | 0 <= j < |rest| ensures rest[j] < total - 1 {
        assert slices[j] < slices[total - 1];
      }
      AllInOrder(rest, total - 1);
      assert total == 1 || rest[total - 2] == total - 2;
    }
  }

  lemma RetriedBySweep(fault: nat -> bool, states: seq<State>, states': seq<State>, sweeps: seq<Span>, span: Span,
                       first: nat, job: string, since: nat, h0: Held, h: Held)
    requires Retries(fault, states, sweeps, first, job, |h0.have|) && states <= states' && first <= |sweeps|
    requires AllMissed(fault, states, sweeps, first, job, h0) && h0.remaining == CountMissing(h0.have)
    requires Swept(states', since, job, |h0.have|, h0, h, Reads(fault, span.awaitsBegin, span.tried))
    requires if |sweeps| == first then h0.remaining == |h0.have| else h0.remaining > 0
    ensures Retries(fault, states', sweeps + [span], first, job, |h0.have|)
  {
    var sweeps' := sweeps + [span];
    forall k | first <= k < |sweeps'| ensures RetriesAt(fault, states', sweeps', first, job, |h0.have|, k) {
      if k < |sweeps| {
        RetriesLater(fault, states, states', sweeps, sweeps', first, job, |h0.have|, k);
      } else if |sweeps| == first {
        AllInOrder(span.tried, |h0.have|);
      } else {
        assert sweeps'[..k] == sweeps;
        forall j | 0 <= j < |span.tried|
          ensures MissedThroughout(fault, states', sweeps'[..k], first, job, span.tried[j])
        {
          MissedLater(fault, states, states', sweeps, first, job, span.tried[j]);
        }
      }
    }
  }

  // ----- When a wait sweeps

  /** The wait between two sweeps lasts at most until here: 100 milliseconds, or the deadline. */
  function Limit(clock: nat, deadline: nat): nat {
    if clock + 100_000_000 < deadline then clock + 100_000_000 else deadline
  }

  /**
   Between await number `from`, which comes before the deadline, and await number `to`, a wait that had seen
   version `seen` goes on as long as it has nothing to wake up for and its limit is not reached, and no longer.
   */
  ghost predicate GapEnds(moments: seq<Moment>, from: nat, to: nat, rx: nat, seen: nat, deadline: nat) {
    && from <= to < |moments| && moments[from].clock < deadline
    && WaitsOn(moments, from, to, moments[from].registry, rx, seen, Limit(moments[from].clock, deadline))
    && (moments[to].registry.Quiet(rx, seen) ==> Limit(moments[from].clock, deadline) <= moments[to].clock)
  }

  /** What a wait on channel `rx` has seen by sweep `k`: what there was when that sweep began, and at first nothing. */
  function SeenBefore(moments: seq<Moment>, sweeps: seq<Span>, first: nat, k: nat, rx: nat): nat
    requires k < |sweeps|
  {
    var a := sweeps[k].awaitsBegin;
    if k <= first || |moments| <= a || |moments[a].registry.versions| <= rx then 0 else moments[a].registry.versions[rx]
  }

  ghost predicate PollsAt(moments: seq<Moment>, sweeps: seq<Span>, first: nat, rx: nat, deadline: nat, k: nat)
    requires k + 1 < |sweeps|
  {
    && sweeps[k].end <= sweeps[k + 1].begin && sweeps[k].awaitsBegin <= sweeps[k].awaitsEnd
    && GapEnds(moments, sweeps[k].awaitsEnd, sweeps[k + 1].awaitsBegin, rx,
               SeenBefore(moments, sweeps, first, k, rx), deadline)
  }

  /** From sweep number `first` on, each sweep is followed by the next as soon as there is a reason, and not before. */
  ghost predicate Polls(moments: seq<Moment>, sweeps: seq<Span>, first: nat, rx: nat, deadline: nat) {
    forall k :: first <= k && k + 1 < |sweeps| ==> PollsAt(moments, sweeps, first, rx, deadline, k)
  }

  lemma PollsLater(moments: seq<Moment>, moments': seq<Moment>, sweeps: seq<Span>, first: nat, rx: nat, deadline: nat)
    requires Polls(moments, sweeps, first, rx, deadline) && moments <= moments'
    ensures Polls(moments', sweeps, first, rx, deadline)
  {
    forall k | first <= k && k + 1 < |sweeps| ensures PollsAt(moments', sweeps, first, rx, deadline, k) {
      assert PollsAt(moments, sweeps, first, rx, deadline, k);
    }
  }

  lemma PollsNext(moments: seq<Moment>, sweeps: seq<Span>, first: nat, rx: nat, deadline: nat, span: Span)
    requires Polls(moments, sweeps, first, rx, deadline) && first < |sweeps|
    requires PollsAt(moments, sweeps + [span], first, rx, deadline, |sweeps| - 1)
    ensures Polls(moments, sweeps + [span], first, rx, deadline)
  {
    var sweeps' := sweeps + [span];
    forall k | first <= k && k + 1 < |sweeps'| ensures PollsAt(moments, sweeps', first, rx, deadline, k) {
      if k + 1 < |sweeps| {
        assert PollsAt(moments, sweeps, first, rx, deadline, k);
      }
    }
  }

  /** The sweeps of the wait so far: the first began with the wait. */
  ghost predicate SweepsSoFar(moments: seq<Moment>, sweeps: seq<Span>, wait: Wait) {
    && wait.first < |sweeps|
    && Polls(moments, sweeps, wait.first, wait.rx, wait.start + wait.timeout)
    && sweeps[wait.first].awaitsBegin == wait.awaits && sweeps[wait.first].begin == wait.from
    && sweeps[|sweeps| - 1].awaitsBegin <= sweeps[|sweeps| - 1].awaitsEnd
  }

  /** After a sweep, which has just ended. */
  ghost predicate JustSwept(moments: seq<Moment>, sweeps: seq<Span>, wait: Wait, awaits: nat, steps: nat, seen: nat) {
    && SweepsSoFar(moments, sweeps, wait)
    && sweeps[|sweeps| - 1].end == steps && sweeps[|sweeps| - 1].awaitsEnd == awaits
    && seen == SeenBefore(moments, sweeps, wait.first, |sweeps| - 1, wait.rx)
  }

  /** Before a sweep: at the very beginning, or because the gap after the last one has ended. */
  ghost predicate DueToSweep(moments: seq<Moment>, sweeps: seq<Span>, wait: Wait, awaits: nat, steps: nat, seen: nat) {
    if |sweeps| <= wait.first then
      |sweeps| == wait.first && awaits == wait.awaits && steps == wait.from && seen == 0
    else
      && SweepsSoFar(moments, sweeps, wait)
      && sweeps[|sweeps| - 1].end <= steps
      && GapEnds(moments, sweeps[|sweeps| - 1].awaitsEnd, awaits, wait.rx,
                 SeenBefore(moments, sweeps, wait.first, |sweeps| - 1, wait.rx), wait.start + wait.timeout)
      && wait.rx < |moments[awaits].registry.versions| && seen == moments[awaits].registry.versions[wait.rx]
  }

  /** A sweep that was due continues the polling. */
  lemma SweptWhenDue(moments: seq<Moment>, moments': seq<Moment>, sweeps: seq<Span>, first: nat, rx: nat, deadline: nat,
                     span: Span, seen: nat)
    requires first < |sweeps| && Polls(moments, sweeps, first, rx, deadline) && moments <= moments'
    requires var last := sweeps[|sweeps| - 1];
             && last.end <= span.begin && last.awaitsBegin <= last.awaitsEnd
             && GapEnds(moments, last.awaitsEnd, span.awaitsBegin, rx,
                        SeenBefore(moments, sweeps, first, |sweeps| - 1, rx), deadline)
    requires rx < |moments[span.awaitsBegin].registry.versions|
    requires seen == moments[span.awaitsBegin].registry.versions[rx]
    ensures Polls(moments', sweeps + [span], first, rx, deadline)
    ensures seen == SeenBefore(moments', sweeps + [span], first, |sweeps|, rx)
  {
    PollsLater(moments, moments', sweeps, first, rx, deadline);
    assert PollsAt(moments', sweeps + [span], first, rx, deadline, |sweeps| - 1);
    PollsNext(moments', sweeps, first, rx, deadline, span);
  }

  ghost function LastSweep(world: World): Span
    reads world
  {
    if world.sweeps == [] then Span(0, 0, 0, 0, []) else world.sweeps[|world.sweeps| - 1]
  }

  ghost predicate SweptNow(world: World, wait: Wait, seen: nat)
    reads world
  {
    JustSwept(world.moments, world.sweeps, wait, world.awaits, |world.steps|, seen)
  }

  ghost predicate DueNow(world: World, wait: Wait, seen: nat)
    reads world
  {
    DueToSweep(world.moments, world.sweeps, wait, world.awaits, |world.steps|, seen)
  }

  /** A sweep that is due. */
  method SweepWhenDue(world: World, wait: Wait, h0: Held, ghost seen: nat) returns (h: Held, ghost tried: seq<nat>)
    requires Collecting(world, wait.n, wait.job, h0) && DueNow(world, wait, seen)
    modifies world, world.notifier
    ensures Collecting(world, wait.n, wait.job, h) && SweptNow(world, wait, seen)
    ensures world.Elapsed() && world.mine == old(world.mine)
    ensures OnlyReads(world.mine, wait.n, old(world.state.calls), world.state.calls)
    ensures ReadFor(old(world.acts), world.acts, wait.n)
    ensures ChannelLater(old(world.Channels()), world.Channels(), wait.job, wait.rx)
    ensures LaterThroughout(old(world.Channels()), world.moments, old(world.awaits), world.awaits, wait.job, wait.rx)
    ensures world.sweeps ==
      old(world.sweeps) + [Span(|old(world.steps)|, |world.steps|, old(world.awaits), world.awaits, tried)]
    ensures Swept(world.states, |old(world.steps)|, wait.job, |h0.have|, h0, h,
                  Reads(world.fault, old(world.awaits), tried))
    ensures h0.remaining > 0 ==> old(world.clock) < world.clock && old(world.awaits) < world.awaits
    ensures world.RegistryOnRecord() && world.awaits == old(world.awaits) + |tried|
    ensures h.remaining <= h0.remaining
  {
    h, tried := Sweep(world, wait.n, wait.job, h0, wait.rx);
    DueThenSwept(old(world.moments), world.moments, old(world.sweeps), world.sweeps, wait, old(world.awaits),
                 world.awaits, |old(world.steps)|, |world.steps|, seen, tried);
  }

  /** One sweep of such a wait. */
  method SweepOnce(world: World, wait: Wait, h0: Held, ghost seen: nat, ghost w: Wakes) returns (h: Held)
    requires Waiting(world, wait, h0, seen, w) && DueNow(world, wait, seen) && MoreToRead(world, wait, h0)
    modifies world, world.notifier
    ensures Waiting(world, wait, h, seen, w) && SweptNow(world, wait, seen)
    ensures world.Elapsed() && world.mine == old(world.mine)
    ensures OnlyReads(world.mine, wait.n, old(world.state.calls), world.state.calls)
    ensures ReadFor(old(world.acts), world.acts, wait.n)
    ensures |world.sweeps| == |old(world.sweeps)| + 1
    ensures |h.have| == |h0.have| && h.remaining <= h0.remaining
    ensures h.remaining > 0 ==> old(world.clock) < world.clock && w.Total() < world.clock - wait.start
    ensures h.remaining > 0 ==> wait.awaits < world.awaits
  {
    ghost var tried;
    h, tried := SweepWhenDue(world, wait, h0, seen);
    GatheredBySweep(old(world.states), world.states, wait.from, |old(world.steps)|, wait.job, h0, h,
                    Reads(world.fault, old(world.awaits), tried));
    assert world.sweeps == old(world.sweeps) + [LastSweep(world)];
    MissedBySweep(world.fault, old(world.states), world.states, old(world.sweeps), wait.first, LastSweep(world),
                  wait.job, h0, h);
    RetriedBySweep(world.fault, old(world.states), world.states, old(world.sweeps), LastSweep(world), wait.first,
                   wait.job, |old(world.steps)|, h0, h);
    RegisteredBySweep(old(world.Channels()), old(world.moments), world.moments, old(world.sweeps), LastSweep(world),
                      wait.first, wait.touched, wait.job, wait.rx);
    KeptLater(old(world.Channels()), world.Channels(), wait.touched, wait.job, wait.rx);
    AccountedLater(old(world.notifier.versions[wait.rx]), old(world.clock) - wait.start,
                   world.notifier.versions[wait.rx], world.clock - wait.start, seen, wait.timeout, w);
  }

  lemma DueThenSwept(moments: seq<Moment>, moments': seq<Moment>, sweeps: seq<Span>, sweeps': seq<Span>, wait: Wait,
                     awaits: nat, awaits': nat, steps: nat, steps': nat, seen: nat, tried: seq<nat>)
    requires DueToSweep(moments, sweeps, wait, awaits, steps, seen) && moments <= moments' && awaits <= awaits'
    requires sweeps' == sweeps + [Span(steps, steps', awaits, awaits', tried)]
    ensures JustSwept(moments', sweeps', wait, awaits', steps', seen)
  {
    if wait.first < |sweeps| {
      SweptWhenDue(moments, moments', sweeps, wait.first, wait.rx, wait.start + wait.timeout, sweeps'[|sweeps|], seen);
    }
  }

  /** A gap that has ended is followed by a sweep. */
  lemma SweptThenDue(moments: seq<Moment>, moments': seq<Moment>, sweeps: seq<Span>, wait: Wait, awaits: nat,
                     awaits': nat, steps: nat, steps': nat, seen: nat, seen': nat)
    requires JustSwept(moments, sweeps, wait, awaits, steps, seen) && moments <= moments' && steps <= steps'
    requires GapEnds(moments', awaits, awaits', wait.rx, seen, wait.start + wait.timeout)
    requires wait.rx < |moments'[awaits'].registry.versions| && seen' == moments'[awaits'].registry.versions[wait.rx]
    requires sweeps[|sweeps| - 1].awaitsBegin < |moments|
    ensures DueToSweep(moments', sweeps, wait, awaits', steps', seen')
  {
    PollsLater(moments, moments', sweeps, wait.first, wait.rx, wait.start + wait.timeout);
  }

  /** The gap between two sweeps: until there is a reason to sweep again. */
  method AwaitReason(world: World, wait: Wait, seen: nat) returns (seen': nat, wake: Wake)
    requires world.Valid() && SweptNow(world, wait, seen) && world.clock < wait.start + wait.timeout
    requires world.moments[world.awaits].registry == world.Channels()
    requires wait.rx < |world.notifier.versions| && seen <= world.notifier.versions[wait.rx]
    modifies world, world.notifier
    ensures world.Valid() && Waited(world, wait.n) && DueNow(world, wait, seen') && world.sweeps == old(world.sweeps)
    ensures world.Undisturbed(old(world.state.calls)) && world.acts == old(world.acts)
    ensures world.moments[world.awaits].registry == world.Channels()
    ensures wait.rx < |world.notifier.versions| && seen' == world.notifier.versions[wait.rx]
    ensures wake.Notified? ==> seen < seen'
    ensures wake.SenderGone? ==> !world.notifier.Alive(wait.rx) && seen' == seen
    ensures wake.TimerFired? ==> Limit(old(world.clock), wait.start + wait.timeout) <= world.clock && seen' == seen
  {
    var now, deadline := world.clock, wait.start + wait.timeout;
    var step := if deadline - now < POLL then deadline - now else POLL;
    seen', wake := world.Changed(wait.rx, seen, step);
    NotQuiet(world, wait.rx, seen, wake);
    assert GapEnds(world.moments, old(world.awaits), world.awaits, wait.rx, seen, deadline);
    SweptThenDue(old(world.moments), world.moments, world.sweeps, wait, old(world.awaits), world.awaits,
                 |old(world.steps)|, |world.steps|, seen, seen');
  }

  ghost function Woken(w: Wakes, wake: Wake): (w': Wakes)
    ensures w'.Total() == w.Total() + 1
    ensures w'.gone == w.gone <==> !wake.SenderGone?
  {
    match wake
    case Notified => w.(notified := w.notified + 1)
    case SenderGone => w.(gone := w.gone + 1)
    case TimerFired => w.(fired := w.fired + 1)
  }

  lemma AccountedWoken(version: nat, elapsed: int, version': nat, elapsed': int, seen: nat, seen': nat, timeout: nat,
                       w: Wakes, wake: Wake)
    requires Accounted(version, elapsed, seen, timeout, w) && w.Total() < elapsed < timeout && elapsed <= elapsed'
    requires seen <= seen' <= version' && (wake.Notified? ==> seen < seen')
    requires wake.TimerFired? ==> elapsed + (if timeout - elapsed < POLL then timeout - elapsed else POLL) <= elapsed'
    ensures Accounted(version', elapsed', seen', timeout, Woken(w, wake))
  {
    PacedLater(w.fired, elapsed, elapsed', timeout);
    if wake.TimerFired? {
      TimerPaced(w.fired, elapsed, elapsed', timeout);
    }
  }

  /** The wait between two sweeps. */
  method AwaitChange(world: World, wait: Wait, ghost h: Held, seen: nat, ghost w: Wakes)
    returns (seen': nat, ghost w': Wakes)
    requires Waiting(world, wait, h, seen, w) && SweptNow(world, wait, seen) && wait.awaits < world.awaits
    requires w.Total() < world.clock - wait.start < wait.timeout
    modifies world, world.notifier
    ensures Waiting(world, wait, h, seen', w') && DueNow(world, wait, seen')
    ensures world.Elapsed() && world.mine == old(world.mine)
    ensures OnlyReads(world.mine, wait.n, old(world.state.calls), world.state.calls)
    ensures ReadFor(old(world.acts), world.acts, wait.n)
    ensures world.sweeps == old(world.sweeps)
    ensures w'.Total() == w.Total() + 1
  {
    var wake;
    seen', wake := AwaitReason(world, wait, seen);
    assert ChannelLater(old(world.Channels()), world.Channels(), wait.job, wait.rx);
    KeptLater(old(world.Channels()), world.Channels(), wait.touched, wait.job, wait.rx);
    GatheredLater(old(world.states), world.states, wait.from, wait.job, h);
    StillRegistered(old(world.moments), world.moments, world.sweeps, wait.first, wait.touched, wait.job, wait.rx);
    StillRetries(world.fault, old(world.states), world.states, world.sweeps, wait.first, wait.job, |h.have|);
    AllMissedLater(world.fault, old(world.states), world.states, world.sweeps, wait.first, wait.job, h);
    w' := Woken(w, wake);
    AccountedWoken(old(world.notifier.versions[wait.rx]), old(world.clock) - wait.start,
                   world.notifier.versions[wait.rx], world.clock - wait.start, seen, seen', wait.timeout, w, wake);
  }

  lemma NotQuiet(world: World, rx: nat, seen: nat, wake: Wake)
    requires rx < |world.notifier.versions| && seen <= world.notifier.versions[rx]
    requires wake.Notified? ==> seen < world.notifier.versions[rx]
    requires wake.SenderGone? ==> !world.notifier.Alive(rx)
    ensures world.Channels().Quiet(rx, seen) ==> wake.TimerFired?
  {
    if world.Channels().Quiet(rx, seen) {
      var job :| world.Channels().Holds(job, rx);
      assert job in world.notifier.jobs && world.notifier.jobs[job] == rx;
    }
  }

  datatype WaitResult = Ready(stats: seq<SliceStats>) | TimedOut

  const DEFAULT_STATS := SliceStats([], 0.0, 1.0, false)

  /** One round of the loop: a sweep and, unless that was the last one, a wait. */
  method SweepAndWait(world: World, wait: Wait, h0: Held, seen0: nat, ghost w0: Wakes)
    returns (h: Held, last: bool, seen: nat, ghost w: Wakes)
    requires Waiting(world, wait, h0, seen0, w0) && DueNow(world, wait, seen0) && MoreToRead(world, wait, h0)
    modifies world, world.notifier
    ensures Waiting(world, wait, h, seen, w)
    ensures if last then SweptNow(world, wait, seen) else DueNow(world, wait, seen)
    ensures world.Elapsed() && world.mine == old(world.mine)
    ensures OnlyReads(world.mine, wait.n, old(world.state.calls), world.state.calls)
    ensures ReadFor(old(world.acts), world.acts, wait.n)
    ensures |world.sweeps| == |old(world.sweeps)| + 1
    ensures |h.have| == |h0.have|
    ensures !last ==> h.remaining > 0 && old(world.clock) < wait.start + wait.timeout && old(world.clock) < world.clock
    ensures w.Total() == w0.Total() + if last then 0 else 1
    ensures last && h.remaining > 0 ==> wait.start + wait.timeout <= world.clock
  {
    h := SweepOnce(world, wait, h0, seen0, w0);
    if h.remaining == 0 || wait.start + wait.timeout <= world.clock {
      return h, true, seen0, w0;
    }
    last := false;
    ghost var calls, acts := world.state.calls, world.acts;
    seen, w := AwaitChange(world, wait, h, seen0, w0);
    OnlyReadsTwice(world.mine, wait.n, old(world.state.calls), calls, world.state.calls);
    ReadForTwice(old(world.acts), acts, world.acts, wait.n);
  }

  lemma NothingMissing(states: seq<State>, from: nat, calls: seq<Call>, n: nat, job: string, h: Held)
    requires Gathered(states, from, job, h) && CountMissing(h.have) == 0
    ensures forall i :: 0 <= i < |h.stats| ==> HeldSince(states, from, job, i, h.stats[i])
    ensures n < |calls| && |calls[n].slices| == |h.stats| && AllSeen(calls, n, h) ==> Collected(calls[n], h.stats)
  {
    NoneMissing(h.have);
  }

  /**
   There is at least one sweep, and there are not more than there are nanoseconds; and unless another wait has touched
   the job, at most one per notification and one per 100 milliseconds, besides the first.
   */
  ghost predicate FewSweeps(channels: Registry, sweeps: int, touched: nat, job: string, rx: nat, timeout: nat) {
    && 0 < sweeps <= timeout + 1 && rx < |channels.versions|
    && (!channels.TouchedSince(touched, job) ==> sweeps <= channels.versions[rx] + CeilDiv(timeout, 100_000_000) + 1)
  }

  /** Without wakes by a dropped sender, there are at most one per notification and one per poll interval. */
  lemma AtMostPolls(channels: Registry, sweeps: int, touched: nat, job: string, rx: nat, elapsed: int, seen: nat,
                    timeout: nat, w: Wakes)
    requires rx < |channels.versions| && Accounted(channels.versions[rx], elapsed, seen, timeout, w)
    requires (channels.TouchedSince(touched, job) || w.gone == 0) && sweeps == w.Total() + 1
    ensures FewSweeps(channels, sweeps, touched, job, rx, timeout)
  {
  }

  /** The wait that begins now. */
  ghost predicate BeginsNow(world: World, wait: Wait)
    reads world, world.notifier
  {
    && (wait.n in world.mine ==> wait.n < |world.state.calls| && world.state.calls[wait.n].job == wait.job)
    && wait.start == world.clock && wait.from == |world.steps| && wait.touched == |world.touches|
    && wait.first == |world.sweeps| && wait.awaits == world.awaits
    && wait.rx < |world.notifier.versions| && world.notifier.versions[wait.rx] == 0
    && world.Channels().Holds(wait.job, wait.rx)
  }

  /** The loop of sweeps and waits between registering and unregistering. */
  method SweepUntil(world: World, wait: Wait, total: nat) returns (h: Held, seen: nat, ghost w: Wakes)
    requires world.Valid() && BeginsNow(world, wait)
    modifies world, world.notifier
    ensures Waiting(world, wait, h, seen, w) && SweptNow(world, wait, seen)
    ensures world.Elapsed() && world.mine == old(world.mine)
    ensures OnlyReads(world.mine, wait.n, old(world.state.calls), world.state.calls)
    ensures ReadFor(old(world.acts), world.acts, wait.n)
    ensures |h.have| == total && |world.sweeps| == |old(world.sweeps)| + w.Total() + 1
    ensures h.remaining > 0 ==> wait.start + wait.timeout <= world.clock
  {
    h := Held(seq(total, _ => DEFAULT_STATS), seq(total, _ => false), total);
    AllMissing(total);
    var last := false;
    seen, w := 0, Wakes(0, 0, 0);
    while !last
      invariant Waiting(world, wait, h, seen, w)
      invariant if last then SweptNow(world, wait, seen) else DueNow(world, wait, seen) && MoreToRead(world, wait, h)
      invariant world.Elapsed() && world.mine == old(world.mine)
      invariant OnlyReads(world.mine, wait.n, old(world.state.calls), world.state.calls)
      invariant ReadFor(old(world.acts), world.acts, wait.n)
      invariant |h.have| == total && |world.sweeps| == |old(world.sweeps)| + w.Total() + if last then 1 else 0
      invariant last && h.remaining > 0 ==> wait.start + wait.timeout <= world.clock
      decreases !last, wait.start + wait.timeout - world.clock
    {
      ghost var calls, acts := world.state.calls, world.acts;
      h, last, seen, w := SweepAndWait(world, wait, h, seen, w);
      OnlyReadsTwice(world.mine, wait.n, old(world.state.calls), calls, world.state.calls);
      ReadForTwice(old(world.acts), acts, world.acts, wait.n);
    }
  }

  /**
   From sweep number `first` on, the sweeps are those of a wait on channel `rx` that began after `awaits` awaits and
   `steps` steps and ended with its last sweep after `awaits1` awaits and `steps1` steps.
   */
  ghost predicate PolledUntil(moments: seq<Moment>, sweeps: seq<Span>, first: nat, awaits: nat, steps: nat, rx: nat,
                              deadline: nat, total: nat, awaits1: nat, steps1: nat) {
    && first < |sweeps| && Polls(moments, sweeps, first, rx, deadline)
    && sweeps[first].awaitsBegin == awaits && sweeps[first].begin == steps
    && sweeps[|sweeps| - 1].end == steps1 && sweeps[|sweeps| - 1].awaitsEnd == awaits1
    && Brisk(sweeps, first, total)
  }

  /** It has just ended. */
  ghost predicate Polled(world: World, first: nat, awaits: nat, steps: nat, rx: nat, deadline: nat, total: nat)
    reads world
  {
    PolledUntil(world.moments, world.sweeps, first, awaits, steps, rx, deadline, total, world.awaits, |world.steps|)
  }

  /** A wait that has just swept for the last time. */
  lemma LastSwept(moments: seq<Moment>, sweeps: seq<Span>, wait: Wait, awaits: nat, steps: nat, seen: nat, total: nat)
    requires JustSwept(moments, sweeps, wait, awaits, steps, seen) && Brisk(sweeps, wait.first, total)
    ensures PolledUntil(moments, sweeps, wait.first, wait.awaits, wait.from, wait.rx, wait.start + wait.timeout, total,
                        awaits, steps)
  {
  }

  /** In every state of the stretch every slice can be read. */
  ghost predicate AllReadableDuring(states: seq<State>, span: Span, job: string, total: nat) {
    forall i :: 0 <= i < total ==> !MissingDuring(states, span, job, i)
  }

  /** No read of the sweep failed. */
  ghost predicate NoReadFailed(fault: nat -> bool, span: Span) {
    forall k :: span.awaitsBegin < k <= span.awaitsEnd ==> !fault(k)
  }

  /** A wait that ends with something missing: one slice was missed by every sweep. */
  ghost predicate EndsMissing(world: World, first: nat, job: string, total: nat)
    reads world
  {
    && MissedInEverySweep(world.fault, world.states, world.sweeps, first, job, total)
    && (NoReadFailed(world.fault, LastSweep(world)) ==>
          !AllReadableDuring(world.states, LastSweep(world), job, total))
  }

  lemma SomethingMissing(world: World, first: nat, job: string, h: Held)
    requires AllMissed(world.fault, world.states, world.sweeps, first, job, h) && first < |world.sweeps|
    requires CountMissing(h.have) > 0 && Brisk(world.sweeps, first, |h.have|)
    ensures EndsMissing(world, first, job, |h.have|)
  {
    NoneMissing(h.have);
    var i :| 0 <= i < |h.have| && !h.have[i];
    assert MissedThroughout(world.fault, world.states, world.sweeps, first, job, i);
    assert MissedBy(world.fault, world.states, world.sweeps[|world.sweeps| - 1], job, i);
  }

  /** The wait from its registration on. */
  method WaitRegistered(world: World, wait: Wait, total: nat) returns (r: WaitResult)
    requires world.Valid() && BeginsNow(world, wait)
    modifies world, world.notifier
    ensures world.Valid() && world.Elapsed() && world.mine == old(world.mine)
    ensures OnlyReads(world.mine, wait.n, old(world.state.calls), world.state.calls)
    ensures ReadFor(old(world.acts), world.acts, wait.n)
    ensures r.Ready? ==> |r.stats| == total
    ensures r.Ready? ==> forall i :: 0 <= i < total ==> HeldSince(world.states, wait.from, wait.job, i, r.stats[i])
    ensures r.Ready? && wait.n in world.mine && |world.state.calls[wait.n].slices| == total ==>
      Collected(world.state.calls[wait.n], r.stats)
    ensures r.TimedOut? ==> wait.start + wait.timeout <= world.clock
    ensures r.TimedOut? ==> EndsMissing(world, wait.first, wait.job, total)
    ensures FewSweeps(world.Channels(), |world.sweeps| - wait.first, wait.touched, wait.job, wait.rx, wait.timeout)
    ensures Polled(world, wait.first, wait.awaits, wait.from, wait.rx, wait.start + wait.timeout, total)
    ensures RegisteredInSweeps(world.moments, world.sweeps, wait.first, wait.touched, wait.job, wait.rx)
    ensures Retries(world.fault, world.states, world.sweeps, wait.first, wait.job, total)
  {
    var h, seen;
    ghost var w;
    h, seen, w := SweepUntil(world, wait, total);
    AtMostPolls(world.Channels(), |world.sweeps| - wait.first, wait.touched, wait.job, wait.rx,
                world.clock - wait.start, seen, wait.timeout, w);
    LastSwept(world.moments, world.sweeps, wait, world.awaits, |world.steps|, seen, total);
    if h.remaining == 0 {
      NothingMissing(world.states, wait.from, world.state.calls, wait.n, wait.job, h);
      return Ready(h.stats);
    }
    SomethingMissing(world, wait.first, wait.job, h);
    return TimedOut;
  }

  /** The same, with the registration removed at the end. */
  method WaitAndUnregister(world: World, wait: Wait, total: nat) returns (r: WaitResult)
    requires world.Valid() && BeginsNow(world, wait)
    modifies world, world.notifier
    ensures world.Valid() && world.Elapsed() && world.mine == old(world.mine)
    ensures OnlyReads(world.mine, wait.n, old(world.state.calls), world.state.calls)
    ensures ReadFor(old(world.acts), world.acts, wait.n)
    ensures r.Ready? ==> |r.stats| == total
    ensures r.Ready? ==> forall i :: 0 <= i < total ==> HeldSince(world.states, wait.from, wait.job, i, r.stats[i])
    ensures r.Ready? && wait.n in world.mine && |world.state.calls[wait.n].slices| == total ==>
      Collected(world.state.calls[wait.n], r.stats)
    ensures r.TimedOut? ==> wait.start + wait.timeout <= world.clock
    ensures r.TimedOut? ==> EndsMissing(world, wait.first, wait.job, total)
    ensures FewSweeps(world.Channels(), |world.sweeps| - wait.first, wait.touched, wait.job, wait.rx, wait.timeout)
    ensures Polled(world, wait.first, wait.awaits, wait.from, wait.rx, wait.start + wait.timeout, total)
    ensures RegisteredInSweeps(world.moments, world.sweeps, wait.first, wait.touched, wait.job, wait.rx)
    ensures Retries(world.fault, world.states, world.sweeps, wait.first, wait.job, total)
    ensures wait.job !in world.notifier.jobs
  {
    r := WaitRegistered(world, wait, total);
    world.notifier.UnregisterJob(wait.job);
  }

  /**
   Waits for all slices of a job, at most for `timeout`. What comes out depends on the store alone: every slice
   returned was held by its key during the wait, and a timeout means that the deadline had passed and none of the
   sweeps could read one of the slices. It sweeps at once, and again at every notification, after every poll interval
   and at the deadline, where it ends with a last sweep; each sweep after the first reads what none could read so far.
   The wait ends whatever the notifier does; and unless another wait registers or unregisters the same job, it sweeps
   at most once per notification and once per poll interval. Its channel is the next one of the notifier.
   */
  method WaitForAllSlices(world: World, n: nat, job: string, total: nat, timeout: nat) returns (r: WaitResult)
    requires world.Valid()
    requires n in world.mine ==> n < |world.state.calls| && world.state.calls[n].job == job
    modifies world, world.notifier
    ensures world.Valid() && world.Elapsed()
    ensures world.mine == old(world.mine)
    ensures OnlyReads(world.mine, n, old(world.state.calls), world.state.calls)
    ensures ReadFor(old(world.acts), world.acts, n)
    ensures r.Ready? ==> |r.stats| == total
    ensures r.Ready? ==> forall i :: 0 <= i < total ==> HeldSince(world.states, |old(world.steps)|, job, i, r.stats[i])
    ensures r.Ready? && n in world.mine && |world.state.calls[n].slices| == total ==>
      Collected(world.state.calls[n], r.stats)
    ensures r.TimedOut? ==> old(world.clock) + timeout <= world.clock
    ensures r.TimedOut? ==> MissedInEverySweep(world.fault, world.states, world.sweeps, |old(world.sweeps)|, job, total)
    ensures FewSweeps(world.Channels(), |world.sweeps| - |old(world.sweeps)|, |old(world.touches)|, job,
                      |old(world.notifier.versions)|, timeout)
    ensures Polled(world, |old(world.sweeps)|, old(world.awaits), |old(world.steps)|, |old(world.notifier.versions)|,
                   old(world.clock) + timeout, total)
    ensures RegisteredInSweeps(world.moments, world.sweeps, |old(world.sweeps)|, |old(world.touches)|, job,
                               |old(world.notifier.versions)|)
    ensures Retries(world.fault, world.states, world.sweeps, |old(world.sweeps)|, job, total)
    ensures
      NoReadFailed(world.fault, LastSweep(world)) && AllReadableDuring(world.states, LastSweep(world), job, total) ==>
      r.Ready?
    ensures job !in world.notifier.jobs
  {
    var rx := world.notifier.RegisterJob(job);
    var wait := Wait(n, job, rx, world.clock, timeout, |world.steps|, |world.touches|, |world.sweeps|, world.awaits);
    r := WaitAndUnregister(world, wait, total);
  }

  lemma {:induction false} AllMissing(total: nat)
    ensures CountMissing(seq(total, _ => false)) == total
  {
    if total > 0 {
      AllMissing(total - 1);
      assert seq(total, _ => false)[1..] == seq(total - 1, _ => false);
    }
  }
}
