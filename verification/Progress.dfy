/** GetResult, and what successive calls of it report. */
module Progress {
  import opened Exponential
  import opened Aggregation
  import opened Keys
  import opened Vectors
  import opened System
  import opened World

  datatype Status = Pending | Running

  datatype Report =
    | NotFound
    | InProgress(status: Status, completed: nat, total: nat)
    | Ready(values: seq<real>, total: nat)
    | Unparsable(total: nat)
    | StoreError

  /** How many of the first `k` slice keys of a job exist. */
  function Present(store: Store, job: string, k: nat): (n: nat)
    ensures n <= k
  {
    if k == 0 then 0 else Present(store, job, k - 1) + if SliceKey(job, k - 1) in store then 1 else 0
  }

  /** The indices, below `k`, of the slice keys that exist. */
  ghost function Indices(store: Store, job: string, k: nat): set<nat> {
    set i: nat | i < k && SliceKey(job, i) in store
  }

  lemma IndicesNext(store: Store, job: string, k: nat)
    ensures Indices(store, job, k + 1) == Indices(store, job, k) + if SliceKey(job, k) in store then {k} else {}
    ensures k !in Indices(store, job, k)
  {
  }

  lemma {:induction false} PresentIsCount(store: Store, job: string, k: nat)
    ensures Present(store, job, k) == |Indices(store, job, k)|
  {
    if k > 0 {
      PresentIsCount(store, job, k - 1);
      IndicesNext(store, job, k - 1);
    }
  }

  /** All are counted exactly if all are there. */
  lemma {:induction false} AllPresent(store: Store, job: string, k: nat)
    ensures Present(store, job, k) == k <==> forall i :: 0 <= i < k ==> SliceKey(job, i) in store
  {
    if k > 0 {
      AllPresent(store, job, k - 1);
    }
  }

  lemma {:induction false} PresentGrows(store: Store, store': Store, job: string, k: nat)
    requires store.Keys <= store'.Keys
    ensures Present(store, job, k) <= Present(store', job, k)
  {
    if k > 0 {
      PresentGrows(store, store', job, k - 1);
    }
  }

  /** How many of the first `k` slice keys exist, if only those count whose store operation does not fail. */
  function Answering(store: Store, job: string, k: nat, fault: nat -> bool, awaits: nat): nat {
    if k == 0 then 0
    else
      Answering(store, job, k - 1, fault, awaits)
      + if !fault(awaits + k) && SliceKey(job, k - 1) in store then 1 else 0
  }

  lemma {:induction false} AnsweringGrows(store: Store, store': Store, job: string, k: nat, fault: nat -> bool,
                                          awaits: nat)
    requires store.Keys <= store'.Keys
    ensures Answering(store, job, k, fault, awaits) <= Answering(store', job, k, fault, awaits)
  {
    if k > 0 {
      AnsweringGrows(store, store', job, k - 1, fault, awaits);
    }
  }

  /** It is all of them exactly if no operation fails for a key that exists. */
  lemma {:induction false} AllAnswer(store: Store, job: string, k: nat, fault: nat -> bool, awaits: nat)
    ensures Answering(store, job, k, fault, awaits) <= Present(store, job, k)
    ensures Answering(store, job, k, fault, awaits) == Present(store, job, k) <==>
      forall i :: 0 <= i < k && SliceKey(job, i) in store ==> !fault(awaits + i + 1)
  {
    if k > 0 {
      AllAnswer(store, job, k - 1, fault, awaits);
    }
  }

  /** No key has expired since the run was `from` steps long. */
  ghost predicate NoExpirySince(steps: seq<Step>, from: nat) {
    forall k :: from <= k < |steps| ==> !steps[k].Expire?
  }

  lemma KeysKeptSince(e: real -> real, states: seq<State>, steps: seq<Step>, from: nat)
    requires IsRun(e, states, steps) && from <= |steps|
    ensures CallsKept(states[from], states[|steps|])
    ensures NoExpirySince(steps, from) ==> KeysKept(states[from], states[|steps|])
  {
    KeptRun(e, states, steps, from, |steps|);
  }

  /** Counts the slice keys one by one, while the system goes on; a failing store operation counts as absent. */
  method CountCompleted(world: World, job: string, total: nat) returns (count: nat)
    requires world.Valid()
    modifies world, world.notifier
    ensures world.Valid() && world.Elapsed() && world.mine == old(world.mine) && world.acts == old(world.acts)
    ensures world.NotifierElapsed()
    ensures count <= total && world.awaits == old(world.awaits) + total
    ensures NoExpirySince(world.steps, |old(world.steps)|) ==>
      && Answering(old(world.state).store, job, total, world.fault, old(world.awaits)) <= count
      && count <= Answering(world.state.store, job, total, world.fault, old(world.awaits))
  {
    ghost var from := |world.steps|;
    ghost var before, awaits := world.state.store, world.awaits;
    count := 0;
    for i := 0 to total
      invariant world.Valid() && world.Elapsed() && world.mine == old(world.mine) && world.acts == old(world.acts)
      invariant world.NotifierElapsed()
      invariant count <= i && world.awaits == awaits + i
      invariant NoExpirySince(world.steps, from) ==>
        && Answering(before, job, i, world.fault, awaits) <= count
        && count <= Answering(world.state.store, job, i, world.fault, awaits)
    {
      ghost var mid, store, channels := |world.steps|, world.state.store, world.Channels();
      world.Await();
      LaterTwice(old(world.Channels()), channels, world.Channels());
      KeysKeptSince(world.e, world.states, world.steps, from);
      KeysKeptSince(world.e, world.states, world.steps, mid);
      if NoExpirySince(world.steps, from) {
        AnsweringGrows(store, world.state.store, job, i, world.fault, awaits);
      }
      if !world.fault(world.awaits) && SliceKey(job, i) in world.state.store {
        count := count + 1;
      }
    }
  }

  /**
   `utf8` tells whether the bytes of a slice happen to be valid UTF-8. Under a result key a slice can only stand
   for an id with colons; it then reads as a result that cannot be parsed, or as none.
   */
  method GetResult(world: World, job: string, utf8: SliceStats -> bool) returns (r: Report)
    requires world.Valid()
    modifies world, world.notifier
    ensures world.Valid() && world.Elapsed() && world.mine == old(world.mine) && world.acts == old(world.acts)
    ensures world.NotifierElapsed()
    ensures r.InProgress? ==> (r.status.Pending? <==> r.completed == 0) && r.completed <= r.total
    ensures Answered(r, utf8, world.fault, old(world.awaits), world.states, |old(world.steps)|, |world.steps|, job)
    ensures old(world.awaits) < world.awaits
    ensures r.Ready? || r.Unparsable? ==> world.awaits == old(world.awaits) + 2
    ensures r.InProgress? ==> world.awaits == old(world.awaits) + 2 + r.total
    ensures NoExpirySince(world.steps, |old(world.steps)|) ==>
      Counted(r, old(world.state).store, world.state.store, job, world.fault, old(world.awaits) + 2)
  {
    ghost var from := |world.steps|;
    world.Await();
    if world.fault(world.awaits) {
      return StoreError;
    }
    ghost var atMetadata, channels := |world.steps|, world.Channels();
    if MetadataKey(job) !in world.state.store {
      return NotFound;
    }
    if !world.state.store[MetadataKey(job)].JobInfo? {
      return StoreError;
    }
    var total := world.state.store[MetadataKey(job)].totalSlices;
    assert HasInfo(world.states, from, atMetadata, job, total);
    world.Await();
    LaterTwice(old(world.Channels()), channels, world.Channels());
    channels := world.Channels();
    assert HasInfo(world.states, from, |world.steps|, job, total);
    if !world.fault(world.awaits) && ResultKey(job) in world.state.store {
      var value := world.state.store[ResultKey(job)];
      if value.ResultVector? {
        return Ready(value.values, total);
      }
      if !value.SliceFrame? || utf8(value.stats) {
        return Unparsable(total);
      }
    }
    r := ReportProgress(world, job, total, from);
    LaterTwice(old(world.Channels()), channels, world.Channels());
    assert HasInfo(world.states, from, |world.steps|, job, total);
  }

  /** The answer without a result: how many slices there are. */
  method ReportProgress(world: World, job: string, total: nat, ghost from: nat) returns (r: Report)
    requires world.Valid() && from <= |world.steps|
    modifies world, world.notifier
    ensures world.Valid() && world.Elapsed() && world.mine == old(world.mine) && world.acts == old(world.acts)
    ensures world.NotifierElapsed()
    ensures r.InProgress? && r.total == total && (r.status.Pending? <==> r.completed == 0) && r.completed <= total
    ensures world.awaits == old(world.awaits) + total
    ensures NoExpirySince(world.steps, from) ==>
      Counted(r, world.states[from].store, world.state.store, job, world.fault, old(world.awaits))
  {
    ghost var before, store := world.states[from].store, world.state.store;
    KeysKeptSince(world.e, world.states, world.steps, from);
    ghost var steps, awaits := world.steps, world.awaits;
    var completed := CountCompleted(world, job, total);
    if NoExpirySince(world.steps, from) {
      assert NoExpirySince(steps, from);
      AnsweringGrows(before, store, job, total, world.fault, awaits);
    }
    r := InProgress(if completed == 0 then Pending else Running, completed, total);
  }

  /**
   The count lies between the numbers of slices present when the call began and when it ended, but for those whose
   store operation, one of the awaits after number `awaits`, failed.
   */
  ghost predicate Counted(r: Report, before: Store, after: Store, job: string, fault: nat -> bool, awaits: nat) {
    r.InProgress? ==>
      && Answering(before, job, r.total, fault, awaits) <= r.completed
      && r.completed <= Answering(after, job, r.total, fault, awaits)
  }

  /**
   The answer of a call that began after `awaits` awaits. Without metadata there is an error; and if the result
   cannot be read, progress is reported instead.
   */
  ghost predicate Answered(r: Report, utf8: SliceStats -> bool, fault: nat -> bool, awaits: nat, states: seq<State>,
                           from: nat, to: nat, job: string) {
    if fault(awaits + 1) then r.StoreError?
    else if fault(awaits + 2) && (r.InProgress? || r.Ready? || r.Unparsable?) then
      r.InProgress? && HasInfo(states, from, to, job, r.total)
    else Justified(r, utf8, states, from, to, job)
  }

  /** Some state between two points of the run held the job's metadata. */
  ghost predicate HasInfo(states: seq<State>, from: nat, to: nat, job: string, total: nat) {
    exists t :: from <= t <= to && t < |states| && MetadataKey(job) in states[t].store
             && states[t].store[MetadataKey(job)] == JobInfo(total)
  }

  /** What a report says was so at some moment during the call. */
  ghost predicate Justified(r: Report, utf8: SliceStats -> bool, states: seq<State>, from: nat, to: nat, job: string) {
    match r
    case NotFound => exists t :: from <= t <= to && t < |states| && MetadataKey(job) !in states[t].store
    case InProgress(_, _, total) =>
      && HasInfo(states, from, to, job, total)
      && exists t :: from <= t <= to && t < |states| && NoResult(states[t].store, job, utf8)
    case Ready(values, total) =>
      && HasInfo(states, from, to, job, total)
      && exists t :: from <= t <= to && t < |states| && ResultKey(job) in states[t].store
                    && states[t].store[ResultKey(job)] == ResultVector(values)
    case Unparsable(total) =>
      && HasInfo(states, from, to, job, total)
      && exists t :: from <= t <= to && t < |states| && ResultKey(job) in states[t].store
                    && BadResult(states[t].store[ResultKey(job)], utf8)
    case StoreError =>
      exists t :: from <= t <= to && t < |states| && MetadataKey(job) in states[t].store
               && !states[t].store[MetadataKey(job)].JobInfo?
  }

  /** What stands under the result key, if anything, cannot even be read as text. */
  ghost predicate NoResult(store: Store, job: string, utf8: SliceStats -> bool) {
    ResultKey(job) in store ==> store[ResultKey(job)].SliceFrame? && !utf8(store[ResultKey(job)].stats)
  }

  /** It is text, but no vector. */
  ghost predicate BadResult(value: Value, utf8: SliceStats -> bool) {
    !value.ResultVector? && (value.SliceFrame? ==> utf8(value.stats))
  }

  // ----- Successive reports

  function Rank(r: Report): nat {
    match r
    case NotFound => 0
    case InProgress(Pending, _, _) => 1
    case InProgress(Running, _, _) => 2
    case Ready(_, _) => 3
    case _ => 4
  }

  function Completed(r: Report): nat {
    match r
    case InProgress(_, completed, _) => completed
    case Ready(_, total) => total
    case _ => 0
  }

  /** All submissions under the job's id cut the same vector the same way. */
  ghost predicate SameSlices(calls: seq<Call>, job: string) {
    forall m, n :: 0 <= m < n < |calls| && calls[m].job == job && calls[n].job == job ==>
         calls[m].slices == calls[n].slices
  }

  /**
   A respectful run in which no key expires, for a job id free of colons under which the same work is submitted
   each time, and whose keys are those of known submissions at the beginning, if there are any.
   */
  ghost predicate Orderly(e: real -> real, states: seq<State>, steps: seq<Step>, job: string) {
    && IsExp(e) && IsRun(e, states, steps) && RespectfulRun(e, states, steps) && Inv(e, states[0])
    && InfoTracked(states[0], job) && ResultTracked(states[0], job) && ':' !in job
    && SameSlices(states[|steps|].calls, job)
    && NoExpirySince(steps, 0)
  }

  /** At every moment, what stands under the job's keys comes from its submissions. */
  lemma TrackedAt(e: real -> real, states: seq<State>, steps: seq<Step>, job: string, t: nat)
    requires Orderly(e, states, steps, job) && t <= |steps|
    ensures InfoTracked(states[t], job) && ResultTracked(states[t], job) && Inv(e, states[t])
  {
    forall k | 0 <= k < |steps| ensures !steps[k].Foreign? {
      assert RespectfulAt(e, states, steps, k);
    }
    TrackedRun(e, states, steps, job, t);
    InvRun(e, states, steps, t);
  }

  /** From the moment a key is there, it stays. */
  lemma KeysStay(e: real -> real, states: seq<State>, steps: seq<Step>, job: string, t: nat, u: nat)
    requires Orderly(e, states, steps, job) && t <= u <= |steps|
    ensures states[t].store.Keys <= states[u].store.Keys && CallsKept(states[t], states[u])
  {
    KeptRun(e, states, steps, t, u);
  }

  /** Two submissions of the job, at whatever moments, have the same slices. */
  lemma SameSubmission(e: real -> real, states: seq<State>, steps: seq<Step>, job: string, t: nat, m: nat, u: nat,
                       n: nat)
    requires Orderly(e, states, steps, job) && t <= |steps| && u <= |steps|
    requires m < |states[t].calls| && states[t].calls[m].job == job
    requires n < |states[u].calls| && states[u].calls[n].job == job
    ensures states[t].calls[m].slices == states[u].calls[n].slices
  {
    KeptRun(e, states, steps, t, |steps|);
    KeptRun(e, states, steps, u, |steps|);
    assert m < n || m == n || n < m;
  }

  lemma InfoStays(e: real -> real, states: seq<State>, steps: seq<Step>, job: string, t: nat, u: nat)
    requires Orderly(e, states, steps, job) && t <= u <= |steps|
    requires MetadataKey(job) in states[t].store
    ensures MetadataKey(job) in states[u].store
    ensures states[u].store[MetadataKey(job)] == states[t].store[MetadataKey(job)]
    ensures states[t].store[MetadataKey(job)].JobInfo?
  {
    KeysStay(e, states, steps, job, t, u);
    TrackedAt(e, states, steps, job, t);
    TrackedAt(e, states, steps, job, u);
    var m :| 0 <= m < |states[t].calls| && states[t].calls[m].job == job
             && states[t].store[MetadataKey(job)] == JobInfo(|states[t].calls[m].slices|);
    var n :| 0 <= n < |states[u].calls| && states[u].calls[n].job == job
             && states[u].store[MetadataKey(job)] == JobInfo(|states[u].calls[n].slices|);
    SameSubmission(e, states, steps, job, t, m, u, n);
  }

  lemma ResultStays(e: real -> real, states: seq<State>, steps: seq<Step>, job: string, t: nat, u: nat)
    requires Orderly(e, states, steps, job) && t <= u <= |steps|
    requires ResultKey(job) in states[t].store
    ensures ResultKey(job) in states[u].store && states[u].store[ResultKey(job)].ResultVector?
    ensures states[t].store[ResultKey(job)].ResultVector?
  {
    KeysStay(e, states, steps, job, t, u);
    TrackedAt(e, states, steps, job, t);
    TrackedAt(e, states, steps, job, u);
  }

  /** A ready result is the softmax of the vector submitted, and all its slices had been collected. */
  lemma ReadyMeansCollected(e: real -> real, states: seq<State>, steps: seq<Step>, job: string, r: Report,
                            utf8: SliceStats -> bool, from: nat, to: nat)
    requires Orderly(e, states, steps, job) && from <= to <= |steps|
    requires r.Ready? && Justified(r, utf8, states, from, to, job)
    ensures exists n :: 0 <= n < |states[to].calls| && CompletedCall(e, states[to].calls[n], job, r)
  {
    var t :| from <= t <= to && ResultKey(job) in states[t].store
            && states[t].store[ResultKey(job)] == ResultVector(r.values);
    var u :| from <= u <= to && MetadataKey(job) in states[u].store
            && states[u].store[MetadataKey(job)] == JobInfo(r.total);
    TrackedAt(e, states, steps, job, t);
    TrackedAt(e, states, steps, job, u);
    var n :| 0 <= n < |states[t].calls| && states[t].calls[n].job == job
            && states[t].calls[n].outcome == Stored(r.values);
    var m :| 0 <= m < |states[u].calls| && states[u].calls[m].job == job && r.total == |states[u].calls[m].slices|;
    SameSubmission(e, states, steps, job, t, n, u, m);
    KeptRun(e, states, steps, t, to);
    var c, c' := states[t].calls[n], states[to].calls[n];
    assert JobOk(e, states[t], n);
    var stats: seq<SliceStats> :| Collected(c, stats);
    assert Collected(c', stats);
    assert CompletedCall(e, c', job, r);
  }

  /** Once a job has been submitted, it is found, with the number of its slices. */
  lemma FoundOnceSubmitted(e: real -> real, states: seq<State>, steps: seq<Step>, job: string, r: Report,
                           utf8: SliceStats -> bool, from: nat, to: nat, n: nat)
    requires Orderly(e, states, steps, job) && InfoKnown(states[0], job) && from <= to <= |steps|
    requires n < |states[from].calls| && states[from].calls[n].job == job
    requires Justified(r, utf8, states, from, to, job)
    ensures (r.InProgress? || r.Ready?) && r.total == |states[from].calls[n].slices|
  {
    forall t | from <= t <= to
      ensures MetadataKey(job) in states[t].store
      ensures states[t].store[MetadataKey(job)] == JobInfo(|states[from].calls[n].slices|)
      ensures ResultKey(job) in states[t].store ==> states[t].store[ResultKey(job)].ResultVector?
    {
      InfoFrom(e, states, steps, job, from, n, t);
    }
  }

  lemma InfoFrom(e: real -> real, states: seq<State>, steps: seq<Step>, job: string, from: nat, n: nat, t: nat)
    requires Orderly(e, states, steps, job) && InfoKnown(states[0], job) && from <= t <= |steps|
    requires n < |states[from].calls| && states[from].calls[n].job == job
    ensures MetadataKey(job) in states[t].store
    ensures states[t].store[MetadataKey(job)] == JobInfo(|states[from].calls[n].slices|)
    ensures ResultKey(job) in states[t].store ==> states[t].store[ResultKey(job)].ResultVector?
  {
    InfoKnownRun(e, states, steps, job, t);
    KeptRun(e, states, steps, from, t);
    assert states[t].calls[n].job == job;
    TrackedAt(e, states, steps, job, t);
    var m :| 0 <= m < |states[t].calls| && states[t].calls[m].job == job
        && states[t].store[MetadataKey(job)] == JobInfo(|states[t].calls[m].slices|);
    SameSubmission(e, states, steps, job, from, n, t, m);
  }

  /** Once a result has been stored, it is found. */
  lemma ReadyOnceStored(e: real -> real, states: seq<State>, steps: seq<Step>, job: string, r: Report,
                        utf8: SliceStats -> bool, from: nat, to: nat, n: nat)
    requires Orderly(e, states, steps, job) && InfoKnown(states[0], job) && from <= to <= |steps|
    requires n < |states[from].calls| && states[from].calls[n].job == job
    requires ResultKey(job) in states[from].store && Justified(r, utf8, states, from, to, job)
    ensures r.Ready? && r.values == Softmax(e, Flatten(states[from].calls[n].slices))
  {
    FoundOnceSubmitted(e, states, steps, job, r, utf8, from, to, n);
    forall t | from <= t <= to
      ensures ResultKey(job) in states[t].store && states[t].store[ResultKey(job)].ResultVector?
    {
      ResultStays(e, states, steps, job, from, t);
    }
    ReadyMeansCollected(e, states, steps, job, r, utf8, from, to);
    var m :| 0 <= m < |states[to].calls| && CompletedCall(e, states[to].calls[m], job, r);
    SameSubmission(e, states, steps, job, from, n, to, m);
    InvRun(e, states, steps, to);
    assert JobOk(e, states[to], m);
  }

  ghost predicate CompletedCall(e: real -> real, c: Call, job: string, r: Report)
    requires r.Ready?
  {
    && c.job == job && r.values == Softmax(e, c.vector) && r.total == |c.slices|
    && exists stats: seq<SliceStats> :: Collected(c, stats)
  }

  /** The count lies between the numbers of slices present at two moments. */
  ghost predicate PresentBetween(r: Report, before: Store, after: Store, job: string) {
    r.InProgress? ==> Present(before, job, r.total) <= r.completed <= Present(after, job, r.total)
  }

  /** Where no store operation fails, every answer is justified, and nothing is left out of the count. */
  lemma FaultlessAnswer(r: Report, utf8: SliceStats -> bool, fault: nat -> bool, awaits: nat, awaits': nat,
                        states: seq<State>, from: nat, to: nat, job: string)
    requires from < |states| && to < |states| && Answered(r, utf8, fault, awaits, states, from, to, job)
    requires Counted(r, states[from].store, states[to].store, job, fault, awaits + 2)
    requires awaits < awaits' && (r.Ready? || r.Unparsable? ==> awaits' == awaits + 2)
    requires r.InProgress? ==> awaits' == awaits + 2 + r.total
    requires forall k :: awaits < k <= awaits' ==> !fault(k)
    ensures Justified(r, utf8, states, from, to, job)
    ensures PresentBetween(r, states[from].store, states[to].store, job)
  {
    if r.InProgress? {
      AllAnswer(states[from].store, job, r.total, fault, awaits + 2);
      AllAnswer(states[to].store, job, r.total, fault, awaits + 2);
    }
  }

  /** Of two calls one after the other, the second reports no lower status and no fewer completed slices. */
  lemma ProgressIsMonotone(e: real -> real, states: seq<State>, steps: seq<Step>, job: string,
                           utf8: SliceStats -> bool, r1: Report, from1: nat, to1: nat, r2: Report, from2: nat, to2: nat)
    requires Orderly(e, states, steps, job)
    requires from1 <= to1 <= from2 <= to2 <= |steps|
    requires Justified(r1, utf8, states, from1, to1, job)
    requires PresentBetween(r1, states[from1].store, states[to1].store, job)
    requires Justified(r2, utf8, states, from2, to2, job)
    requires PresentBetween(r2, states[from2].store, states[to2].store, job)
    requires r1.InProgress? ==> (r1.status.Pending? <==> r1.completed == 0) && r1.completed <= r1.total
    requires r2.InProgress? ==> (r2.status.Pending? <==> r2.completed == 0)
    ensures Rank(r1) <= Rank(r2) <= 3
    ensures Completed(r1) <= Completed(r2)
  {
    forall t | from1 <= t <= to2 && MetadataKey(job) in states[t].store
      ensures states[t].store[MetadataKey(job)].JobInfo?
    {
      InfoStays(e, states, steps, job, t, t);
    }
    forall t | from1 <= t <= to2 && ResultKey(job) in states[t].store
      ensures states[t].store[ResultKey(job)].ResultVector?
    {
      ResultStays(e, states, steps, job, t, t);
    }
    if r1.InProgress? || r1.Ready? {
      var t :| from1 <= t <= to1 && MetadataKey(job) in states[t].store
              && states[t].store[MetadataKey(job)] == JobInfo(r1.total);
      forall u | from2 <= u <= to2
        ensures MetadataKey(job) in states[u].store && states[u].store[MetadataKey(job)] == JobInfo(r1.total)
      {
        InfoStays(e, states, steps, job, t, u);
      }
      KeptRun(e, states, steps, to1, from2);
      PresentGrows(states[to1].store, states[from2].store, job, r1.total);
    }
    if r1.Ready? {
      var t :| from1 <= t <= to1 && ResultKey(job) in states[t].store;
      forall u | from2 <= u <= to2
        ensures ResultKey(job) in states[u].store && states[u].store[ResultKey(job)].ResultVector?
      {
        ResultStays(e, states, steps, job, t, u);
      }
    }
  }

  /** A call, and what its answer says if no store operation fails. */
  method Poll(world: World, job: string, utf8: SliceStats -> bool) returns (r: Report)
    requires world.Valid()
    modifies world, world.notifier
    ensures world.Valid() && world.Elapsed() && world.mine == old(world.mine) && world.acts == old(world.acts)
    ensures world.NotifierElapsed()
    ensures r.InProgress? ==> (r.status.Pending? <==> r.completed == 0) && r.completed <= r.total
    ensures world.FaultlessSince(old(world.awaits)) && NoExpirySince(world.steps, |old(world.steps)|) ==>
      && Justified(r, utf8, world.states, |old(world.steps)|, |world.steps|, job)
      && PresentBetween(r, old(world.state).store, world.state.store, job)
  {
    ghost var from, awaits := |world.steps|, world.awaits;
    r := GetResult(world, job, utf8);
    if world.FaultlessSince(awaits) && NoExpirySince(world.steps, from) {
      FaultlessAnswer(r, utf8, world.fault, awaits, world.awaits, world.states, from, |world.steps|, job);
    }
  }

  /** Two calls in a row, with anything happening in between. */
  method PollTwice(world: World, job: string, utf8: SliceStats -> bool) returns (r1: Report, r2: Report)
    requires world.Valid()
    modifies world, world.notifier
    ensures world.Valid() && world.Elapsed()
    ensures world.FaultlessSince(old(world.awaits)) && Orderly(world.e, world.states, world.steps, job) ==>
      Rank(r1) <= Rank(r2) <= 3 && Completed(r1) <= Completed(r2)
    ensures world.FaultlessSince(old(world.awaits)) && Orderly(world.e, world.states, world.steps, job) && r2.Ready? ==>
      exists n :: 0 <= n < |world.state.calls| && CompletedCall(world.e, world.state.calls[n], job, r2)
  {
    ghost var from1 := |world.steps|;
    r1 := Poll(world, job, utf8);
    ghost var to1, states1, steps1 := |world.steps|, world.states, world.steps;
    world.Await();
    ghost var from2 := |world.steps|;
    r2 := Poll(world, job, utf8);
    ghost var to2 := |world.steps|;
    if world.FaultlessSince(old(world.awaits)) && Orderly(world.e, world.states, world.steps, job) {
      assert NoExpirySince(steps1, from1);
      StillJustified(r1, utf8, states1, world.states, from1, to1, job);
      ProgressIsMonotone(world.e, world.states, world.steps, job, utf8, r1, from1, to1, r2, from2, to2);
      if r2.Ready? {
        ReadyMeansCollected(world.e, world.states, world.steps, job, r2, utf8, from2, to2);
      }
    }
  }

  lemma StillJustified(r: Report, utf8: SliceStats -> bool, states: seq<State>, states': seq<State>, from: nat,
                       to: nat, job: string)
    requires states <= states' && to < |states| && Justified(r, utf8, states, from, to, job)
    ensures Justified(r, utf8, states', from, to, job)
  {
  }
}
