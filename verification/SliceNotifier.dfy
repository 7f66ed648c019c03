/** The gateway's map from jobs to wake-up channels. */
module SliceNotifier {
  import opened Keys

  /**
   A watch channel is a counter; a receiver holds the channel's number. The sender lives as long as some job
   maps to the channel.
   */
  class SliceNotifier {
    var jobs: map<string, nat>
    var versions: seq<nat>

    ghost predicate Valid()
      reads this
    {
      && (forall job :: job in jobs ==> jobs[job] < |versions|)
      && (forall job, job' :: job in jobs && job' in jobs && jobs[job] == jobs[job'] ==> job == job')
    }

    predicate Alive(rx: nat)
      reads this
    {
      exists job :: job in jobs && jobs[job] == rx
    }

    constructor ()
      ensures Valid() && jobs == map[] && versions == []
    {
      jobs, versions := map[], [];
    }

    /** A second registration of the same job replaces the first, whose sender is dropped. */
    method RegisterJob(job: string) returns (rx: nat)
      requires Valid()
      modifies this
      ensures Valid()
      ensures rx == old(|versions|) && versions == old(versions) + [0]
      ensures jobs == old(jobs)[job := rx] && Alive(rx)
      ensures job in old(jobs) ==> !Alive(old(jobs[job]))
      ensures forall c :: old(Alive(c)) && (job in old(jobs) ==> c != old(jobs[job])) ==> Alive(c)
    {
      rx := |versions|;
      versions := versions + [0];
      jobs := jobs[job := rx];
      assert job in jobs && jobs[job] == rx;
      forall c | old(Alive(c)) && (job in old(jobs) ==> c != old(jobs[job])) ensures Alive(c) {
        var other :| other in old(jobs) && old(jobs)[other] == c;
        assert other in jobs && jobs[other] == c;
      }
    }

    /** Whoever unregisters a job drops the sender of its latest registration, even if that is another waiter's. */
    method UnregisterJob(job: string)
      requires Valid()
      modifies this
      ensures Valid()
      ensures versions == old(versions) && jobs == old(jobs) - {job}
      ensures job in old(jobs) ==> !Alive(old(jobs[job]))
      ensures forall c :: Alive(c) ==> old(Alive(c))
    {
      jobs := jobs - {job};
    }

    /** One message of the subscription: the job's current channel, if it has one, counts one up. */
    method OnMessage(channel: string)
      requires Valid()
      modifies this
      ensures Valid() && jobs == old(jobs)
      ensures forall job :: channel == DoneChannel(job) && job in jobs ==>
        versions == old(versions)[jobs[job] := old(versions[jobs[job]]) + 1]
      ensures (forall job :: channel == DoneChannel(job) ==> job !in jobs) ==> versions == old(versions)
    {
      var stripped := StripPrefix(channel, "slice_done:");
      if stripped.Some? {
        var job := stripped.value;
        ChannelRoundTrip(job, channel);
        if job in jobs {
          versions := versions[jobs[job] := versions[jobs[job]] + 1];
        }
        forall job' | channel == DoneChannel(job') ensures job' == job {
          ChannelRoundTrip(job', channel);
        }
      } else {
        forall job' ensures channel != DoneChannel(job') {
          ChannelRoundTrip(job', channel);
        }
      }
    }
  }
}
