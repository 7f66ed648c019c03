/**
 The start-up rendezvous of the ranks through the store: rank 0 publishes an id, everybody
 obtains it, sets a flag, and polls all flags, one key at a time, until it has seen them all.
 */
module Rendezvous {
  import opened Keys

  const MAX_ATTEMPTS: nat := 200

  /** The bytes under the id key, of whatever number. */
  type Uid = seq<int>

  const UID_LENGTH: nat := 128

  predicate WellFormed(uid: Uid) {
    |uid| == UID_LENGTH
  }

  /**
   Where a rank is: asking for the id, holding it, polling the flags (with how many of the first `next` it has
   seen), or through.
   */
  datatype Rank =
    | Asking(attempt: nat)
    | Holding(uid: Uid)
    | Polling(uid: Uid, attempt: nat, next: nat, ready: nat)
    | Done(uid: Uid)
    | Failed

  /**
   `uidKey` and `flags` are the store; `generated` and `announced` record what rank 0 generated and which
   id each rank held when it set its flag.
   */
  datatype State = State(uidKey: Option<Uid>, flags: set<nat>, ranks: seq<Rank>, generated: Option<Uid>,
                         announced: map<nat, Uid>)

  datatype Step =
    | Generate(uid: Uid)
    | Ask(rank: nat)
    | SetFlag(rank: nat)
    | Poll(rank: nat)
    | StoreFails(rank: nat)
    | ExpireUid
    | ExpireFlag(rank: nat)

  /** One read of the polling loop, or the decision at the end of a sweep. The id's length is checked last of all. */
  function PollNext(s: State, rank: Rank): Rank
    requires rank.Polling?
  {
    if rank.next < |s.ranks| then
      rank.(next := rank.next + 1, ready := rank.ready + if rank.next in s.flags then 1 else 0)
    else if rank.ready == |s.ranks| then (if WellFormed(rank.uid) then Done(rank.uid) else Failed)
    else if rank.attempt + 1 == MAX_ATTEMPTS then Failed
    else Polling(rank.uid, rank.attempt + 1, 0, 0)
  }

  function Apply(s: State, step: Step): State {
    match step
    case Generate(uid) =>
      if 0 < |s.ranks| && s.ranks[0].Asking? && WellFormed(uid) then
        s.(uidKey := Some(uid), generated := Some(uid), ranks := s.ranks[0 := Holding(uid)])
      else s
    case Ask(r) =>
      if 0 < r < |s.ranks| && s.ranks[r].Asking? then
        s.(ranks := s.ranks[r :=
          if s.uidKey.Some? then Holding(s.uidKey.value)
          else if s.ranks[r].attempt + 1 == MAX_ATTEMPTS then Failed
          else Asking(s.ranks[r].attempt + 1)])
      else s
    case SetFlag(r) =>
      if r < |s.ranks| && s.ranks[r].Holding? then
        s.(flags := s.flags + {r}, announced := s.announced[r := s.ranks[r].uid],
           ranks := s.ranks[r := Polling(s.ranks[r].uid, 0, 0, 0)])
      else s
    case Poll(r) =>
      if r < |s.ranks| && s.ranks[r].Polling? then s.(ranks := s.ranks[r := PollNext(s, s.ranks[r])]) else s
    case StoreFails(r) =>
      if r < |s.ranks| && !s.ranks[r].Done? then s.(ranks := s.ranks[r := Failed]) else s
    case ExpireUid => s.(uidKey := None)
    case ExpireFlag(r) => s.(flags := s.flags - {r})
  }

  ghost predicate StepAt(states: seq<State>, steps: seq<Step>, t: nat)
    requires t < |steps| && |states| == |steps| + 1
  {
    states[t + 1] == Apply(states[t], steps[t])
  }

  ghost predicate IsRun(states: seq<State>, steps: seq<Step>) {
    && |states| == |steps| + 1
    && forall t :: 0 <= t < |steps| ==> StepAt(states, steps, t)
  }

  /** All ranks about to start, over a store with the given keys. */
  function Starting(worldSize: nat, uidKey: Option<Uid>, flags: set<nat>): State {
    State(uidKey, flags, seq(worldSize, _ => Asking(0)), None, map[])
  }

  // ----- Whose id a rank holds

  predicate HasUid(rank: Rank) {
    rank.Holding? || rank.Polling? || rank.Done?
  }

  /** Well-formed ids come from rank 0 only. A single rank never asks for one. */
  ghost predicate UidInv(s: State) {
    && 0 < |s.ranks|
    && (s.uidKey.Some? && WellFormed(s.uidKey.value) && 1 < |s.ranks| ==> s.generated == s.uidKey)
    && (s.ranks[0].Asking? ==> s.generated.None?)
    && (forall q :: q in s.announced && WellFormed(s.announced[q]) ==> s.generated == Some(s.announced[q]))
    && (forall r :: 0 <= r < |s.ranks| && HasUid(s.ranks[r]) && WellFormed(s.ranks[r].uid) ==>
          s.generated == Some(s.ranks[r].uid))
    && (forall r :: 0 <= r < |s.ranks| && s.ranks[r].Done? ==> WellFormed(s.ranks[r].uid))
  }

  lemma UidStep(s: State, step: Step)
    requires UidInv(s)
    ensures UidInv(Apply(s, step))
    ensures s.generated.Some? ==> Apply(s, step).generated == s.generated
  {
  }

  // ----- What the barrier guarantees

  ghost predicate BarrierOk(s: State, r: nat)
    requires r < |s.ranks|
  {
    var rank := s.ranks[r];
    && (rank.Polling? || rank.Done? ==> r in s.announced)
    && (rank.Polling? ==>
          && rank.ready <= rank.next <= |s.ranks|
          && (rank.ready == rank.next ==> forall q :: 0 <= q < rank.next ==> q in s.announced))
    && (rank.Done? ==> forall q :: 0 <= q < |s.ranks| ==> q in s.announced)
  }

  /** Flags are set by the ranks of this launch only. */
  ghost predicate BarrierInv(s: State) {
    && (forall q :: q in s.flags && q < |s.ranks| ==> q in s.announced)
    && (forall r :: 0 <= r < |s.ranks| ==> BarrierOk(s, r))
  }

  lemma BarrierStep(s: State, step: Step)
    requires BarrierInv(s)
    ensures BarrierInv(Apply(s, step)) && |Apply(s, step).ranks| == |s.ranks|
    ensures s.announced.Keys <= Apply(s, step).announced.Keys
  {
    var s' := Apply(s, step);
    forall r | 0 <= r < |s'.ranks| ensures BarrierOk(s', r) {
      assert BarrierOk(s, r);
    }
  }

  /** No flag of a rank of this launch is left over. */
  ghost predicate NoFlags(worldSize: nat, flags: set<nat>) {
    forall q :: 0 <= q < worldSize ==> q !in flags
  }

  ghost predicate StartsFrom(worldSize: nat, uidKey: Option<Uid>, flags: set<nat>, states: seq<State>,
                             steps: seq<Step>) {
    IsRun(states, steps) && states[0] == Starting(worldSize, uidKey, flags)
  }

  /** Without an id left over, all ids are well-formed. */
  ghost predicate AllWellFormed(s: State) {
    && (s.uidKey.Some? ==> WellFormed(s.uidKey.value))
    && (forall q :: q in s.announced ==> WellFormed(s.announced[q]))
    && (forall r :: 0 <= r < |s.ranks| && HasUid(s.ranks[r]) ==> WellFormed(s.ranks[r].uid))
  }

  lemma WellFormedStep(s: State, step: Step)
    requires AllWellFormed(s)
    ensures AllWellFormed(Apply(s, step))
  {
  }

  lemma {:induction false} WellFormedRun(worldSize: nat, flags: set<nat>, states: seq<State>, steps: seq<Step>, t: nat)
    requires StartsFrom(worldSize, None, flags, states, steps) && t <= |steps|
    ensures AllWellFormed(states[t])
  {
    if t > 0 {
      WellFormedRun(worldSize, flags, states, steps, t - 1);
      assert StepAt(states, steps, t - 1);
      WellFormedStep(states[t - 1], steps[t - 1]);
    }
  }

  /** No id that could be taken for rank 0's is left over. */
  predicate NoUid(uidKey: Option<Uid>) {
    uidKey.Some? ==> !WellFormed(uidKey.value)
  }

  lemma {:induction false} UidRun(worldSize: nat, uidKey: Option<Uid>, flags: set<nat>, states: seq<State>,
                                  steps: seq<Step>, t: nat)
    requires 0 < worldSize && StartsFrom(worldSize, uidKey, flags, states, steps) && t <= |steps|
    requires worldSize == 1 || NoUid(uidKey)
    ensures UidInv(states[t]) && |states[t].ranks| == worldSize
  {
    if t > 0 {
      UidRun(worldSize, uidKey, flags, states, steps, t - 1);
      assert StepAt(states, steps, t - 1);
      UidStep(states[t - 1], steps[t - 1]);
    }
  }

  lemma {:induction false} BarrierRun(worldSize: nat, uidKey: Option<Uid>, flags: set<nat>, states: seq<State>,
                                      steps: seq<Step>, t: nat)
    requires 0 < worldSize && StartsFrom(worldSize, uidKey, flags, states, steps) && t <= |steps|
    requires NoFlags(worldSize, flags)
    ensures BarrierInv(states[t]) && |states[t].ranks| == worldSize
  {
    if t > 0 {
      BarrierRun(worldSize, uidKey, flags, states, steps, t - 1);
      assert StepAt(states, steps, t - 1);
      BarrierStep(states[t - 1], steps[t - 1]);
    }
  }

  /** A single rank is its own barrier. */
  lemma {:induction false} SingleRankRun(uidKey: Option<Uid>, flags: set<nat>, states: seq<State>, steps: seq<Step>,
                                         t: nat)
    requires StartsFrom(1, uidKey, flags, states, steps) && t <= |steps|
    ensures |states[t].ranks| == 1
    ensures states[t].ranks[0].Polling? || states[t].ranks[0].Done? ==> 0 in states[t].announced
  {
    if t > 0 {
      SingleRankRun(uidKey, flags, states, steps, t - 1);
      assert StepAt(states, steps, t - 1);
    }
  }

  // ----- When a rank gives up

  /** At step `t` rank `r` asks for the id. */
  ghost predicate AsksAt(states: seq<State>, steps: seq<Step>, r: nat, t: nat)
    requires t < |steps| && |states| == |steps| + 1
  {
    steps[t] == Ask(r) && 0 < r < |states[t].ranks| && states[t].ranks[r].Asking?
  }

  /** At step `t` rank `r`, which has set its flag, reads a flag or ends a sweep. */
  ghost predicate PollsAt(states: seq<State>, steps: seq<Step>, r: nat, t: nat)
    requires t < |steps| && |states| == |steps| + 1
  {
    steps[t] == Poll(r) && r < |states[t].ranks| && states[t].ranks[r].Polling?
  }

  /** At step `t` a store operation of rank `r` fails, and ends its rendezvous. */
  ghost predicate FailsAt(states: seq<State>, steps: seq<Step>, r: nat, t: nat)
    requires t < |steps| && |states| == |steps| + 1
  {
    && steps[t] == StoreFails(r) && r < |states[t].ranks|
    && !states[t].ranks[r].Done? && !states[t].ranks[r].Failed?
  }

  /** The moments before `t` at which rank `r` asked for the id. */
  ghost function Asks(states: seq<State>, steps: seq<Step>, r: nat, t: nat): (moments: seq<nat>)
    requires t <= |steps| && |states| == |steps| + 1
    ensures forall m :: m in moments ==> m < t
  {
    if t == 0 then []
    else Asks(states, steps, r, t - 1) + if AsksAt(states, steps, r, t - 1) then [t - 1] else []
  }

  /** The moments before `t` at which rank `r` polled: in turn, one for each flag and one to end the sweep. */
  ghost function Polls(states: seq<State>, steps: seq<Step>, r: nat, t: nat): (moments: seq<nat>)
    requires t <= |steps| && |states| == |steps| + 1
    ensures forall i :: 0 <= i < |moments| ==> moments[i] < t && PollsAt(states, steps, r, moments[i])
  {
    if t == 0 then []
    else Polls(states, steps, r, t - 1) + if PollsAt(states, steps, r, t - 1) then [t - 1] else []
  }

  /** Where sweep `k` begins in the moments at which a rank polled. */
  function Begins(worldSize: nat, k: nat): nat {
    k * (worldSize + 1)
  }

  /** At the `q`-th moment of sweep `k`, the flag of rank `q` was set. */
  ghost predicate Saw(worldSize: nat, states: seq<State>, polls: seq<nat>, k: nat, q: nat) {
    var i := Begins(worldSize, k) + q;
    i < |polls| && polls[i] < |states| && q in states[polls[i]].flags
  }

  /** Sweep `k` found the flag of every rank below `n`. */
  ghost predicate SawAll(worldSize: nat, states: seq<State>, polls: seq<nat>, k: nat, n: nat) {
    forall q :: 0 <= q < n ==> Saw(worldSize, states, polls, k, q)
  }

  /** The first `k` sweeps each missed some rank's flag. */
  ghost predicate Missed(worldSize: nat, states: seq<State>, polls: seq<nat>, k: nat) {
    forall i :: 0 <= i < k ==> !SawAll(worldSize, states, polls, i, worldSize)
  }

  ghost predicate FoundNoId(states: seq<State>, asks: seq<nat>) {
    forall m :: m in asks ==> m < |states| && states[m].uidKey.None?
  }

  /** Rank `r` made `k` sweeps and missed a flag in each but the last, which found all of them. */
  ghost predicate FoundAll(worldSize: nat, states: seq<State>, polls: seq<nat>, k: nat) {
    && 0 < k <= 200 && |polls| == Begins(worldSize, k) && Missed(worldSize, states, polls, k - 1)
    && SawAll(worldSize, states, polls, k - 1, worldSize)
  }

  ghost predicate StoreFailed(states: seq<State>, steps: seq<Step>, r: nat, t: nat)
    requires t <= |steps| && |states| == |steps| + 1
  {
    exists i :: 0 <= i < t && FailsAt(states, steps, r, i)
  }

  /** The rank asked 200 times and never found an id. */
  ghost predicate AskedInVain(states: seq<State>, steps: seq<Step>, r: nat, t: nat)
    requires t <= |steps| && |states| == |steps| + 1
  {
    |Asks(states, steps, r, t)| == 200 && FoundNoId(states, Asks(states, steps, r, t))
  }

  /** The rank made 200 sweeps over all flags, and each missed one. */
  ghost predicate PolledInVain(worldSize: nat, states: seq<State>, steps: seq<Step>, r: nat, t: nat)
    requires t <= |steps| && |states| == |steps| + 1
  {
    var polls := Polls(states, steps, r, t);
    |polls| == Begins(worldSize, 200) && Missed(worldSize, states, polls, 200)
  }

  /** Some sweep among the rank's first 200, its last, found all flags, and its id was, or was not, of 128 bytes. */
  ghost predicate FoundAllWith(worldSize: nat, states: seq<State>, steps: seq<Step>, r: nat, t: nat, whole: bool)
    requires t <= |steps| && |states| == |steps| + 1
  {
    var polls := Polls(states, steps, r, t);
    && (exists k :: FoundAll(worldSize, states, polls, k))
    && polls != []
    && var last := polls[|polls| - 1];
       PollsAt(states, steps, r, last) && (|states[last].ranks[r].uid| == 128 <==> whole)
  }

  /** What the moments at which a rank asked and polled say about it. */
  ghost predicate Explained(worldSize: nat, states: seq<State>, steps: seq<Step>, r: nat, t: nat)
    requires t <= |steps| && |states| == |steps| + 1
  {
    var asks, polls := Asks(states, steps, r, t), Polls(states, steps, r, t);
    && |states[t].ranks| == worldSize && r < worldSize
    && (!states[t].ranks[r].Failed? ==> !StoreFailed(states, steps, r, t))
    && (HasUid(states[t].ranks[r]) ==> !AskedInVain(states, steps, r, t))
    && match states[t].ranks[r]
       case Asking(attempt) => polls == [] && |asks| == attempt < 200 && FoundNoId(states, asks)
       case Holding(_) => polls == []
       case Polling(uid, attempt, next, ready) =>
         && |polls| == Begins(worldSize, attempt) + next && next <= worldSize && attempt < 200
         && Missed(worldSize, states, polls, attempt)
         && ready <= next && (ready == next <==> SawAll(worldSize, states, polls, attempt, next))
       case Done(_) => FoundAllWith(worldSize, states, steps, r, t, true)
       case Failed =>
         || StoreFailed(states, steps, r, t) || (AskedInVain(states, steps, r, t) && polls == [])
         || PolledInVain(worldSize, states, steps, r, t) || FoundAllWith(worldSize, states, steps, r, t, false)
  }

  lemma BeginsNext(worldSize: nat, k: nat)
    ensures Begins(worldSize, k + 1) == Begins(worldSize, k) + worldSize + 1
  {
  }

  lemma {:induction false} BeginsGrow(worldSize: nat, j: nat, k: nat)
    requires j < k
    ensures Begins(worldSize, j) + worldSize < Begins(worldSize, k)
  {
    BeginsNext(worldSize, k - 1);
    if j < k - 1 {
      BeginsGrow(worldSize, j, k - 1);
    }
  }

  /** Another poll does not change what the sweeps before it saw. */
  lemma SawLater(worldSize: nat, states: seq<State>, polls: seq<nat>, m: nat, k: nat, n: nat)
    requires |polls| == Begins(worldSize, k) + n && n <= worldSize
    ensures Missed(worldSize, states, polls, k) ==> Missed(worldSize, states, polls + [m], k)
    ensures SawAll(worldSize, states, polls, k, n) <==> SawAll(worldSize, states, polls + [m], k, n)
  {
    forall i: nat | i < k
      ensures SawAll(worldSize, states, polls, i, worldSize) == SawAll(worldSize, states, polls + [m], i, worldSize)
    {
      BeginsGrow(worldSize, i, k);
      assert forall q: nat :: q < worldSize ==>
        Saw(worldSize, states, polls, i, q) == Saw(worldSize, states, polls + [m], i, q);
    }
    forall q: nat | q < n
      ensures Saw(worldSize, states, polls, k, q) == Saw(worldSize, states, polls + [m], k, q)
    {
    }
  }

  /** The rank reads a flag. */
  lemma ExplainedRead(worldSize: nat, states: seq<State>, steps: seq<Step>, r: nat, t: nat)
    requires t < |steps| && IsRun(states, steps) && Explained(worldSize, states, steps, r, t)
    requires PollsAt(states, steps, r, t) && states[t].ranks[r].next < worldSize
    ensures Explained(worldSize, states, steps, r, t + 1)
  {
    assert StepAt(states, steps, t);
    var rank, polls := states[t].ranks[r], Polls(states, steps, r, t);
    SawLater(worldSize, states, polls, t, rank.attempt, rank.next);
    var polls' := Polls(states, steps, r, t + 1);
    assert Saw(worldSize, states, polls', rank.attempt, rank.next) <==> rank.next in states[t].flags;
    assert SawAll(worldSize, states, polls', rank.attempt, rank.next + 1) <==>
      SawAll(worldSize, states, polls', rank.attempt, rank.next) && rank.next in states[t].flags;
    assert Asks(states, steps, r, t + 1) == Asks(states, steps, r, t);
  }

  /** The rank ends a sweep. */
  lemma ExplainedDecision(worldSize: nat, states: seq<State>, steps: seq<Step>, r: nat, t: nat)
    requires t < |steps| && IsRun(states, steps) && Explained(worldSize, states, steps, r, t)
    requires PollsAt(states, steps, r, t) && states[t].ranks[r].next == worldSize
    ensures Explained(worldSize, states, steps, r, t + 1)
  {
    assert StepAt(states, steps, t);
    var rank, polls := states[t].ranks[r], Polls(states, steps, r, t);
    SawLater(worldSize, states, polls, t, rank.attempt, rank.next);
    BeginsNext(worldSize, rank.attempt);
    var polls' := Polls(states, steps, r, t + 1);
    assert Asks(states, steps, r, t + 1) == Asks(states, steps, r, t);
    if rank.ready == worldSize {
      assert FoundAll(worldSize, states, polls', rank.attempt + 1);
    } else {
      assert Missed(worldSize, states, polls', rank.attempt + 1);
      assert Missed(worldSize, states, polls', 0 + 0);
    }
  }

  /** The rank asks for the id. */
  lemma ExplainedAsk(worldSize: nat, states: seq<State>, steps: seq<Step>, r: nat, t: nat)
    requires t < |steps| && IsRun(states, steps) && Explained(worldSize, states, steps, r, t)
    requires AsksAt(states, steps, r, t)
    ensures Explained(worldSize, states, steps, r, t + 1)
  {
    assert StepAt(states, steps, t);
    assert Polls(states, steps, r, t + 1) == Polls(states, steps, r, t);
    var asks, asks' := Asks(states, steps, r, t), Asks(states, steps, r, t + 1);
    assert asks' == asks + [t];
    assert forall m :: m in asks' <==> m in asks || m == t;
    NotFailing(states, steps, r, t);
  }

  lemma NotFailing(states: seq<State>, steps: seq<Step>, r: nat, t: nat)
    requires t < |steps| && |states| == |steps| + 1
    ensures StoreFailed(states, steps, r, t + 1) <==> StoreFailed(states, steps, r, t) || FailsAt(states, steps, r, t)
  {
  }

  /** Any other step. */
  lemma ExplainedElse(worldSize: nat, states: seq<State>, steps: seq<Step>, r: nat, t: nat)
    requires t < |steps| && IsRun(states, steps) && Explained(worldSize, states, steps, r, t)
    requires !AsksAt(states, steps, r, t) && !PollsAt(states, steps, r, t)
    ensures Explained(worldSize, states, steps, r, t + 1)
  {
    assert StepAt(states, steps, t);
    assert Polls(states, steps, r, t + 1) == Polls(states, steps, r, t);
    assert Asks(states, steps, r, t + 1) == Asks(states, steps, r, t);
    NotFailing(states, steps, r, t);
  }

  lemma {:induction false} ExplainedRun(worldSize: nat, uidKey: Option<Uid>, flags: set<nat>, states: seq<State>,
                                        steps: seq<Step>, r: nat, t: nat)
    requires StartsFrom(worldSize, uidKey, flags, states, steps) && t <= |steps| && r < worldSize
    ensures Explained(worldSize, states, steps, r, t)
  {
    if t > 0 {
      ExplainedRun(worldSize, uidKey, flags, states, steps, r, t - 1);
      if AsksAt(states, steps, r, t - 1) {
        ExplainedAsk(worldSize, states, steps, r, t - 1);
      } else if !PollsAt(states, steps, r, t - 1) {
        ExplainedElse(worldSize, states, steps, r, t - 1);
      } else if states[t - 1].ranks[r].next < worldSize {
        ExplainedRead(worldSize, states, steps, r, t - 1);
      } else {
        ExplainedDecision(worldSize, states, steps, r, t - 1);
      }
    }
  }

  /** Sweeps that found all flags, and that each missed one, are not the same sweeps. */
  lemma FoundOrMissed(worldSize: nat, states: seq<State>, polls: seq<nat>, k: nat, j: nat)
    requires FoundAll(worldSize, states, polls, k) && Missed(worldSize, states, polls, j)
    ensures |polls| != Begins(worldSize, j)
  {
    if k < j {
      BeginsGrow(worldSize, k, j);
    } else if j < k {
      BeginsGrow(worldSize, j, k);
    }
  }

  /**
   From whatever store the ranks start: a rank has given up exactly if a store operation of it failed, or it asked
   200 times and found no id each time, or it swept over the flags of all ranks 200 times and each sweep missed one
   that was not set at the moment it was read, or a sweep found them all and the id was not of 128 bytes. It is
   through exactly if one of its first 200 sweeps found all flags, none before it did, and the id was of 128 bytes.
   */
  lemma GivesUpExactlyWhen(worldSize: nat, uidKey: Option<Uid>, flags: set<nat>, states: seq<State>, steps: seq<Step>,
                           r: nat, t: nat)
    requires StartsFrom(worldSize, uidKey, flags, states, steps) && t <= |steps| && r < worldSize
    ensures |states[t].ranks| == worldSize
    ensures states[t].ranks[r].Failed? <==>
      || StoreFailed(states, steps, r, t) || AskedInVain(states, steps, r, t)
      || PolledInVain(worldSize, states, steps, r, t) || FoundAllWith(worldSize, states, steps, r, t, false)
    ensures states[t].ranks[r].Done? <==>
      FoundAllWith(worldSize, states, steps, r, t, true) && !StoreFailed(states, steps, r, t)
  {
    ExplainedRun(worldSize, uidKey, flags, states, steps, r, t);
    var rank, polls := states[t].ranks[r], Polls(states, steps, r, t);
    BeginsGrow(worldSize, 0, 200);
    if rank.Polling? {
      if k :| FoundAll(worldSize, states, polls, k) {
        StillPolling(worldSize, states, polls, rank.attempt, rank.next, k);
      }
      BeginsGrow(worldSize, rank.attempt, 200);
    } else if FoundAllWith(worldSize, states, steps, r, t, true) {
      var k :| FoundAll(worldSize, states, polls, k);
      if PolledInVain(worldSize, states, steps, r, t) {
        FoundOrMissed(worldSize, states, polls, k, 200);
      }
    } else if rank.Asking? || rank.Holding? {
      assert forall k :: 0 < k ==> Begins(worldSize, k) > 0 by {
        forall k: nat | 0 < k ensures Begins(worldSize, k) > 0 {
          BeginsGrow(worldSize, 0, k);
        }
      }
    }
  }

  /** A rank still polling has found no sweep complete. */
  lemma StillPolling(worldSize: nat, states: seq<State>, polls: seq<nat>, attempt: nat, next: nat, k: nat)
    requires |polls| == Begins(worldSize, attempt) + next && next <= worldSize
    requires Missed(worldSize, states, polls, attempt)
    ensures !FoundAll(worldSize, states, polls, k)
  {
    if FoundAll(worldSize, states, polls, k) {
      if k < attempt {
        BeginsGrow(worldSize, k, attempt);
      } else if attempt < k {
        BeginsGrow(worldSize, attempt, k);
      } else {
        FoundOrMissed(worldSize, states, polls, k, attempt);
      }
    }
  }

  // ----- Safety

  /** The rank that is through holds the id rank 0 generated. */
  ghost predicate HoldsRankZeros(s: State, r: nat) {
    r < |s.ranks| && s.ranks[r].Done? ==> s.generated == Some(s.ranks[r].uid)
  }

  /** By the time the rank is through, every rank has set its flag. */
  ghost predicate AllAnnounced(s: State, r: nat) {
    r < |s.ranks| && s.ranks[r].Done? ==> forall q :: 0 <= q < |s.ranks| ==> q in s.announced
  }

  /**
   Starting from a store without the rendezvous keys, and although keys may expire at any time and the
   flags are read one by one: a rank that gets through holds the id rank 0 generated, and by then every
   rank had obtained that same id and set its flag.
   */
  lemma RendezvousIsSafe(worldSize: nat, states: seq<State>, steps: seq<Step>, t: nat, r: nat)
    requires 0 < worldSize && IsRun(states, steps) && states[0] == Starting(worldSize, None, {}) && t <= |steps|
    requires r < |states[t].ranks| && states[t].ranks[r].Done?
    ensures states[t].generated == Some(states[t].ranks[r].uid)
    ensures forall q :: 0 <= q < worldSize ==>
      q in states[t].announced && states[t].announced[q] == states[t].ranks[r].uid
  {
    UidRun(worldSize, None, {}, states, steps, t);
    WellFormedRun(worldSize, {}, states, steps, t);
    BarrierRun(worldSize, None, {}, states, steps, t);
    assert BarrierOk(states[t], r);
  }

  /** Two ranks that get through agree, also at different moments of the run. */
  lemma AllRanksAgree(worldSize: nat, states: seq<State>, steps: seq<Step>, t: nat, q: nat, u: nat, r: nat)
    requires 0 < worldSize && IsRun(states, steps) && states[0] == Starting(worldSize, None, {})
    requires t <= u <= |steps| && q < |states[t].ranks| && r < |states[u].ranks|
    requires states[t].ranks[q].Done? && states[u].ranks[r].Done?
    ensures states[t].ranks[q].uid == states[u].ranks[r].uid
  {
    RendezvousIsSafe(worldSize, states, steps, t, q);
    RendezvousIsSafe(worldSize, states, steps, u, r);
    GeneratedStays(worldSize, states, steps, t, u);
  }

  lemma {:induction false} GeneratedStays(worldSize: nat, states: seq<State>, steps: seq<Step>, t: nat, u: nat)
    requires 0 < worldSize && IsRun(states, steps) && states[0] == Starting(worldSize, None, {})
    requires t <= u <= |steps| && states[t].generated.Some?
    ensures states[u].generated == states[t].generated
    decreases u
  {
    if t < u {
      GeneratedStays(worldSize, states, steps, t, u - 1);
      UidRun(worldSize, None, {}, states, steps, u - 1);
      assert StepAt(states, steps, u - 1);
      UidStep(states[u - 1], steps[u - 1]);
    }
  }

  // ----- Left-over keys: exactly when the rendezvous is safe

  /** In every run from the given keys, whoever gets through holds rank 0's id. */
  ghost predicate UidIsSafe(worldSize: nat, uidKey: Option<Uid>, flags: set<nat>) {
    forall states, steps, r: nat :: StartsFrom(worldSize, uidKey, flags, states, steps) ==>
         HoldsRankZeros(states[|steps|], r)
  }

  /** In every run from the given keys, nobody gets through before all ranks have set their flags. */
  ghost predicate BarrierIsSafe(worldSize: nat, uidKey: Option<Uid>, flags: set<nat>) {
    forall states, steps, r: nat :: StartsFrom(worldSize, uidKey, flags, states, steps) ==>
         AllAnnounced(states[|steps|], r)
  }

  lemma Extend(states: seq<State>, steps: seq<Step>, step: Step) returns (states': seq<State>, steps': seq<Step>)
    requires IsRun(states, steps)
    ensures IsRun(states', steps') && states' == states + [Apply(states[|steps|], step)] && steps' == steps + [step]
  {
    states', steps' := states + [Apply(states[|steps|], step)], steps + [step];
    forall t | 0 <= t < |steps'| ensures StepAt(states', steps', t) {
      assert t < |steps| ==> StepAt(states, steps, t);
    }
  }

  /** The run goes on from the first to the second, and no store operation of rank `r` fails in between. */
  ghost predicate Continues(states: seq<State>, steps: seq<Step>, states': seq<State>, steps': seq<Step>, r: nat) {
    && IsRun(states', steps') && states <= states' && steps <= steps'
    && forall t :: |steps| <= t < |steps'| ==> steps'[t] != StoreFails(r)
  }

  /** Rank 0 has generated an id; the ranks below `k`, except `skip`, have set their flags; rank `p` holds `uid`. */
  ghost predicate FlagsUpTo(worldSize: nat, s: State, k: nat, skip: nat, p: nat, uid: Uid) {
    && |s.ranks| == worldSize && s.generated.Some? && s.uidKey.Some?
    && p < worldSize && p != skip && k <= worldSize
    && s.ranks[p] == (if p < k then Polling(uid, 0, 0, 0) else Holding(uid))
    && (forall q :: 0 <= q < k && q != skip ==> q in s.flags)
    && (forall q :: k <= q < worldSize ==> s.ranks[q] == Asking(0) || s.ranks[q].Holding?)
    && s.ranks[0] != Asking(0)
  }

  /** The next rank obtains an id, if it has none yet, and sets its flag. */
  lemma NextSetsFlag(worldSize: nat, states: seq<State>, steps: seq<Step>, k: nat, skip: nat, p: nat, uid: Uid)
    returns (states': seq<State>, steps': seq<Step>)
    requires IsRun(states, steps) && FlagsUpTo(worldSize, states[|steps|], k, skip, p, uid) && k < worldSize
    ensures IsRun(states', steps') && FlagsUpTo(worldSize, states'[|steps'|], k + 1, skip, p, uid)
    ensures states <= states' && states'[|steps'|].generated == states[|steps|].generated
    ensures skip in states'[|steps'|].announced ==> skip in states[|steps|].announced
    ensures states[|steps|].flags <= states'[|steps'|].flags
  {
    states', steps' := states, steps;
    if k != skip {
      if states[|steps|].ranks[k] == Asking(0) {
        states', steps' := Extend(states', steps', Ask(k));
      }
      states', steps' := Extend(states', steps', SetFlag(k));
    }
  }

  /** Rank `p`, which has missed no flag in this sweep, reads on while all flags are set, and gets through. */
  lemma PollsThrough(worldSize: nat, states: seq<State>, steps: seq<Step>, p: nat)
    returns (states': seq<State>, steps': seq<Step>)
    requires IsRun(states, steps) && |states[|steps|].ranks| == worldSize && p < worldSize
    requires
      var rank := states[|steps|].ranks[p];
      rank.Polling? && WellFormed(rank.uid) && rank.ready == rank.next <= worldSize
    requires forall q :: 0 <= q < worldSize ==> q in states[|steps|].flags
    ensures Continues(states, steps, states', steps', p)
    ensures
      var s := states[|steps|];
      states'[|steps'|] == s.(ranks := s.ranks[p := Done(s.ranks[p].uid)])
  {
    var s, rank := states[|steps|], states[|steps|].ranks[p];
    states', steps' := states, steps;
    assert s == s.(ranks := s.ranks[p := rank]);
    for k := rank.next to worldSize
      invariant Continues(states, steps, states', steps', p)
      invariant states'[|steps'|] == s.(ranks := s.ranks[p := rank.(next := k, ready := k)])
    {
      states', steps' := Extend(states', steps', Poll(p));
    }
    states', steps' := Extend(states', steps', Poll(p));
  }

  /** A rank that has missed a flag in this sweep, not its last, finishes the sweep and begins another. */
  lemma SweepsAgain(states: seq<State>, steps: seq<Step>, p: nat) returns (states': seq<State>, steps': seq<Step>)
    requires IsRun(states, steps) && p < |states[|steps|].ranks|
    requires
      var s := states[|steps|];
      var rank := s.ranks[p];
      rank.Polling? && rank.ready < rank.next <= |s.ranks| && rank.attempt + 1 < MAX_ATTEMPTS
    ensures Continues(states, steps, states', steps', p)
    ensures
      var s := states[|steps|];
      var rank := s.ranks[p];
      states'[|steps'|] == s.(ranks := s.ranks[p := Polling(rank.uid, rank.attempt + 1, 0, 0)])
  {
    var s, rank := states[|steps|], states[|steps|].ranks[p];
    states', steps' := states, steps;
    assert s == s.(ranks := s.ranks[p := rank]);
    ghost var ready: nat := rank.ready;
    for k := rank.next to |s.ranks|
      invariant Continues(states, steps, states', steps', p)
      invariant ready < k && states'[|steps'|] == s.(ranks := s.ranks[p := rank.(next := k, ready := ready)])
    {
      ready := ready + if k in s.flags then 1 else 0;
      states', steps' := Extend(states', steps', Poll(p));
    }
    states', steps' := Extend(states', steps', Poll(p));
  }

  /** From there rank `p` gets through, whether or not rank `skip` ever sets its flag, if that flag was set already. */
  lemma GetsThrough(worldSize: nat, states: seq<State>, steps: seq<Step>, skip: nat, p: nat, uid: Uid)
    returns (states': seq<State>, steps': seq<Step>)
    requires IsRun(states, steps) && FlagsUpTo(worldSize, states[|steps|], 0, skip, p, uid)
    requires WellFormed(uid) && (skip < worldSize ==> skip in states[|steps|].flags)
    ensures IsRun(states', steps') && states <= states'
    ensures |states'[|steps'|].ranks| == worldSize && states'[|steps'|].ranks[p] == Done(uid)
    ensures states'[|steps'|].generated == states[|steps|].generated
    ensures skip in states'[|steps'|].announced ==> skip in states[|steps|].announced
  {
    states', steps' := states, steps;
    for k := 0 to worldSize
      invariant IsRun(states', steps') && FlagsUpTo(worldSize, states'[|steps'|], k, skip, p, uid) && states <= states'
      invariant states'[|steps'|].generated == states[|steps|].generated
      invariant skip in states'[|steps'|].announced ==> skip in states[|steps|].announced
      invariant states[|steps|].flags <= states'[|steps'|].flags
    {
      states', steps' := NextSetsFlag(worldSize, states', steps', k, skip, p, uid);
    }
    states', steps' := PollsThrough(worldSize, states', steps', p);
  }

  /** With a well-formed id left over, rank 1 obtains it before rank 0 generates another, and gets through with it. */
  lemma LeftOverUidIsUnsafe(worldSize: nat, stale: Uid, flags: set<nat>)
    requires 2 <= worldSize && WellFormed(stale)
    ensures !UidIsSafe(worldSize, Some(stale), flags)
  {
    var s0 := Starting(worldSize, Some(stale), flags);
    var states, steps := Extend([s0], [], Ask(1));
    var other := stale[0 := stale[0] + 1];
    states, steps := Extend(states, steps, Generate(other));
    assert states[2].generated == Some(other) && states[2].ranks[1] == Holding(stale);
    states, steps := GetsThrough(worldSize, states, steps, worldSize, 1, stale);
    assert other[0] != stale[0];
    assert StartsFrom(worldSize, Some(stale), flags, states, steps) && !HoldsRankZeros(states[|steps|], 1);
  }

  /** With the flag of rank `f` left over, another rank gets through although rank `f` never sets it. */
  lemma LeftOverFlagIsUnsafe(worldSize: nat, uidKey: Option<Uid>, flags: set<nat>, f: nat)
    requires 2 <= worldSize && f < worldSize && f in flags
    ensures !BarrierIsSafe(worldSize, uidKey, flags)
  {
    var s0 := Starting(worldSize, uidKey, flags);
    var uid := seq(UID_LENGTH, _ => 0);
    var states, steps := Extend([s0], [], Generate(uid));
    var p := if f == 0 then 1 else 0;
    if f == 0 {
      states, steps := Extend(states, steps, Ask(1));
    }
    states, steps := GetsThrough(worldSize, states, steps, f, p, uid);
    assert StartsFrom(worldSize, uidKey, flags, states, steps) && !AllAnnounced(states[|steps|], p);
  }

  /**
   Whoever gets through is sure to hold rank 0's id exactly if there is one rank or no well-formed id is left
   over.
   */
  lemma UidIsSafeExactly(worldSize: nat, uidKey: Option<Uid>, flags: set<nat>)
    requires 0 < worldSize
    ensures UidIsSafe(worldSize, uidKey, flags) <==> worldSize == 1 || NoUid(uidKey)
  {
    if worldSize == 1 || NoUid(uidKey) {
      forall states, steps, r: nat | StartsFrom(worldSize, uidKey, flags, states, steps)
        ensures HoldsRankZeros(states[|steps|], r)
      {
        UidRun(worldSize, uidKey, flags, states, steps, |steps|);
      }
    } else {
      LeftOverUidIsUnsafe(worldSize, uidKey.value, flags);
    }
  }

  /** The barrier is sure to hold exactly if there is one rank or no rank's flag is left over. */
  lemma BarrierIsSafeExactly(worldSize: nat, uidKey: Option<Uid>, flags: set<nat>)
    requires 0 < worldSize
    ensures BarrierIsSafe(worldSize, uidKey, flags) <==> worldSize == 1 || NoFlags(worldSize, flags)
  {
    if worldSize == 1 || NoFlags(worldSize, flags) {
      forall states, steps, r: nat | StartsFrom(worldSize, uidKey, flags, states, steps)
        ensures AllAnnounced(states[|steps|], r)
      {
        if worldSize == 1 {
          SingleRankRun(uidKey, flags, states, steps, |steps|);
        } else {
          BarrierRun(worldSize, uidKey, flags, states, steps, |steps|);
          if r < worldSize {
            assert BarrierOk(states[|steps|], r);
          }
        }
      }
    } else {
      var f :| 0 <= f < worldSize && f in flags;
      LeftOverFlagIsUnsafe(worldSize, uidKey, flags, f);
    }
  }

  /**
   With keys left over from an earlier launch, a rank gets through with the old id before rank 0 has even
   generated one.
   */
  lemma StaleKeysBreakTheRendezvous(stale: Uid) returns (states: seq<State>, steps: seq<Step>)
    requires WellFormed(stale)
    ensures IsRun(states, steps) && states[0] == Starting(2, Some(stale), {0, 1})
    ensures states[|steps|].ranks == [Asking(0), Done(stale)] && states[|steps|].generated.None?
  {
    var s0 := Starting(2, Some(stale), {0, 1});
    assert s0.ranks == [Asking(0), Asking(0)];
    var s1 := s0.(ranks := [Asking(0), Holding(stale)]);
    var s2 := s1.(ranks := [Asking(0), Polling(stale, 0, 0, 0)], announced := map[1 := stale]);
    var s3 := s2.(ranks := [Asking(0), Polling(stale, 0, 1, 1)]);
    var s4 := s2.(ranks := [Asking(0), Polling(stale, 0, 2, 2)]);
    var s5 := s2.(ranks := [Asking(0), Done(stale)]);
    assert s0.flags + {1} == s0.flags;
    states, steps := [s0, s1, s2, s3, s4, s5], [Ask(1), SetFlag(1), Poll(1), Poll(1), Poll(1)];
    assert StepAt(states, steps, 0) && StepAt(states, steps, 1);
    assert StepAt(states, steps, 2) && StepAt(states, steps, 3) && StepAt(states, steps, 4);
  }

  // ----- That nobody gives up without need

  /** All flags are set, except perhaps that of rank `r` while it is yet to set it. */
  ghost predicate FlagsSet(s: State, r: nat) {
    r < |s.ranks| && forall q :: 0 <= q < |s.ranks| ==> q in s.flags || (q == r && s.ranks[r].Holding?)
  }

  /** Rank `r` may yet get through without a failure of its store operations. */
  ghost predicate MayGetThrough(states: seq<State>, steps: seq<Step>, r: nat) {
    exists states': seq<State>, steps': seq<Step> ::
      && Continues(states, steps, states', steps', r)
      && r < |states'[|steps'|].ranks| && states'[|steps'|].ranks[r].Done?
  }

  /** The rank is in its last sweep, and has missed a flag. */
  predicate OutOfSweeps(s: State, r: nat)
    requires r < |s.ranks|
  {
    s.ranks[r].Polling? && s.ranks[r].attempt == 199 && s.ranks[r].ready < s.ranks[r].next <= |s.ranks|
  }

  lemma {:induction false} OutOfSweepsStays(states: seq<State>, steps: seq<Step>, r: nat, t: nat, u: nat)
    requires IsRun(states, steps) && t <= u <= |steps| && r < |states[t].ranks|
    requires OutOfSweeps(states[t], r)
      || (HasUid(states[t].ranks[r]) && !states[t].ranks[r].Done? && !WellFormed(states[t].ranks[r].uid))
    ensures |states[u].ranks| == |states[t].ranks| && !states[u].ranks[r].Done?
    ensures states[u].ranks[r].Failed? || OutOfSweeps(states[u], r)
      || (HasUid(states[u].ranks[r]) && !WellFormed(states[u].ranks[r].uid))
    decreases u
  {
    if t < u {
      OutOfSweepsStays(states, steps, r, t, u - 1);
      assert StepAt(states, steps, u - 1);
    }
  }

  /** A rank that holds a well-formed id, with sweeps left, gets through. */
  lemma WillGetThrough(states: seq<State>, steps: seq<Step>, r: nat)
    requires IsRun(states, steps) && FlagsSet(states[|steps|], r)
    requires
      var rank := states[|steps|].ranks[r];
      && (rank.Holding? || rank.Polling?) && WellFormed(rank.uid) && !OutOfSweeps(states[|steps|], r)
      && (rank.Polling? ==> rank.ready <= rank.next <= |states[|steps|].ranks| && rank.attempt < 200)
    ensures MayGetThrough(states, steps, r)
  {
    var worldSize := |states[|steps|].ranks|;
    var states', steps' := states, steps;
    if states[|steps|].ranks[r].Holding? {
      states', steps' := Extend(states', steps', SetFlag(r));
    } else if states[|steps|].ranks[r].ready < states[|steps|].ranks[r].next {
      states', steps' := SweepsAgain(states, steps, r);
    }
    states', steps' := PollsThrough(worldSize, states', steps', r);
  }

  /**
   Whenever a rank holds an id and all flags are set, it can go on and get through exactly if the id is of 128 bytes
   and it has a sweep left: it has made fewer than 199 sweeps, or has missed no flag in its last.
   */
  lemma GetsThroughExactlyIf(worldSize: nat, uidKey: Option<Uid>, flags: set<nat>, states: seq<State>,
                             steps: seq<Step>, r: nat)
    requires StartsFrom(worldSize, uidKey, flags, states, steps) && FlagsSet(states[|steps|], r)
    requires states[|steps|].ranks[r].Holding? || states[|steps|].ranks[r].Polling?
    ensures |states[|steps|].ranks| == worldSize
    ensures
      var polls := Polls(states, steps, r, |steps|);
      MayGetThrough(states, steps, r) <==>
      && |states[|steps|].ranks[r].uid| == 128
      && (|polls| < Begins(worldSize, 199) ||
          SawAll(worldSize, states, polls, 199, |polls| - Begins(worldSize, 199)))
  {
    RanksStay(worldSize, uidKey, flags, states, steps, |steps|);
    ExplainedRun(worldSize, uidKey, flags, states, steps, r, |steps|);
    var rank, polls := states[|steps|].ranks[r], Polls(states, steps, r, |steps|);
    BeginsGrow(worldSize, 0, 199);
    if rank.Polling? && rank.attempt < 199 {
      BeginsGrow(worldSize, rank.attempt, 199);
    }
    if WellFormed(rank.uid) && !OutOfSweeps(states[|steps|], r) {
      WillGetThrough(states, steps, r);
    } else {
      forall states': seq<State>, steps': seq<Step> | Continues(states, steps, states', steps', r)
        ensures r < |states'[|steps'|].ranks| ==> !states'[|steps'|].ranks[r].Done?
      {
        assert states'[|steps|] == states[|steps|];
        OutOfSweepsStays(states', steps', r, |steps|, |steps'|);
      }
    }
  }

  lemma {:induction false} RanksStay(worldSize: nat, uidKey: Option<Uid>, flags: set<nat>, states: seq<State>,
                                     steps: seq<Step>, t: nat)
    requires StartsFrom(worldSize, uidKey, flags, states, steps) && t <= |steps|
    ensures |states[t].ranks| == worldSize
  {
    if t > 0 {
      RanksStay(worldSize, uidKey, flags, states, steps, t - 1);
      assert StepAt(states, steps, t - 1);
    }
  }

  /** From any store, a launch without store failures can bring all ranks through with the one id rank 0 generates. */
  lemma EveryoneCanGetThrough(worldSize: nat, uidKey: Option<Uid>, flags: set<nat>, uid: Uid)
    returns (states: seq<State>, steps: seq<Step>)
    requires 0 < worldSize && WellFormed(uid)
    ensures StartsFrom(worldSize, uidKey, flags, states, steps)
    ensures states[|steps|].ranks == seq(worldSize, _ => Done(uid)) && states[|steps|].generated == Some(uid)
  {
    states, steps := Extend([Starting(worldSize, uidKey, flags)], [], Generate(uid));
    for k := 0 to worldSize
      invariant IsRun(states, steps) && states[0] == Starting(worldSize, uidKey, flags)
      invariant states[|steps|].generated == Some(uid) == states[|steps|].uidKey
      invariant states[|steps|].ranks == seq(worldSize, q =>
        if q < k then Polling(uid, 0, 0, 0) else if q == 0 then Holding(uid) else Asking(0))
      invariant forall q :: 0 <= q < k ==> q in states[|steps|].flags
    {
      if k > 0 {
        states, steps := Extend(states, steps, Ask(k));
      }
      states, steps := Extend(states, steps, SetFlag(k));
    }
    for k := 0 to worldSize
      invariant IsRun(states, steps) && states[0] == Starting(worldSize, uidKey, flags)
      invariant states[|steps|].generated == Some(uid)
      invariant states[|steps|].ranks == seq(worldSize, q => if q < k then Done(uid) else Polling(uid, 0, 0, 0))
      invariant forall q :: 0 <= q < worldSize ==> q in states[|steps|].flags
    {
      states, steps := PollsThrough(worldSize, states, steps, k);
    }
  }
}
