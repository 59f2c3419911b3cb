/** The daemon's run manager: each job keeps its event history and feeds the queues that follow it. */
module Jobs {
  import opened Common

  /** An event of a run; its content does not matter to the fan-out. */
  type Event = string

  datatype Status = Queued | Running | Succeeded | Failed

  /** How a run ended: with an engine result, or with an exception. */
  datatype Outcome = Result(engineFailed: bool) | Raised

  function FinalStatus(outcome: Outcome): Status {
    if outcome.Raised? || outcome.engineFailed then Failed else Succeeded
  }

  function Wrapped(events: seq<Event>): seq<Option<Event>> {
    seq(|events|, i requires 0 <= i < |events| => Some(events[i]))
  }

  /** What a follower has been given: the history so far, and the end once there is one. */
  function Stream(history: seq<Event>, finished: bool): seq<Option<Event>> {
    Wrapped(history) + if finished then [None] else []
  }

  lemma StreamGrows(history: seq<Event>, event: Event)
    ensures Stream(history + [event], false) == Stream(history, false) + [Some(event)]
    ensures Stream(history, true) == Stream(history, false) + [None]
  {
  }

  class Queue {
    var items: seq<Option<Event>>

    constructor ()
      ensures items == []
    {
      items := [];
    }

    method Put(item: Option<Event>)
      modifies this
      ensures items == old(items) + [item]
    {
      items := items + [item];
    }
  }

  class Job {
    var status: Status
    var history: seq<Event>
    var subscribers: set<Queue>
    var finished: bool

    constructor ()
      ensures status == Queued && history == [] && subscribers == {} && !finished && Valid()
    {
      status, history, subscribers, finished := Queued, [], {}, false;
    }

    /** Every live subscriber has the whole history, in order, and the end exactly when there is one. */
    ghost predicate Valid()
      reads this, subscribers
    {
      && (forall q :: q in subscribers ==> q.items == Stream(history, finished))
      && (finished ==> status == Succeeded || status == Failed)
    }

    method FanOut(item: Option<Event>)
      modifies subscribers
      ensures forall q :: q in subscribers ==> q.items == old(q.items) + [item]
    {
      var todo := subscribers;
      while todo != {}
        invariant todo <= subscribers
        invariant forall q :: q in todo ==> q.items == old(q.items)
        invariant forall q :: q in subscribers - todo ==> q.items == old(q.items) + [item]
      {
        var q :| q in todo;
        q.Put(item);
        todo := todo - {q};
      }
    }

    /** Whatever the job's state; one that is over is never given an event (`JobRuns.NothingComesLate`). */
    method Ingest(event: Event)
      requires Valid()
      modifies this, subscribers
      ensures history == old(history) + [event]
      ensures forall q :: q in old(subscribers) ==> q.items == old(q.items) + [Some(event)]
      ensures subscribers == old(subscribers) && finished == old(finished) && status == old(status)
      ensures !finished ==> Valid()
    {
      StreamGrows(history, event);
      history := history + [event];
      FanOut(Some(event));
    }

    method Start()
      requires Valid() && !finished
      modifies this
      ensures Valid() && status == Running
      ensures subscribers == old(subscribers) && history == old(history) && !finished
    {
      status := Running;
    }

    /** The run is over: the status first, then the end of every stream. */
    method Close(outcome: Outcome)
      requires Valid() && !finished
      modifies this, subscribers
      ensures Valid() && finished && status == FinalStatus(outcome)
      ensures subscribers == old(subscribers) && history == old(history)
    {
      StreamGrows(history, "");
      status := FinalStatus(outcome);
      finished := true;
      FanOut(None);
    }

    /** A queue preloaded with the past, then fed live unless the run is over. */
    method Subscribe() returns (queue: Queue)
      requires Valid()
      modifies this
      ensures Valid() && fresh(queue) && queue.items == Stream(history, finished)
      ensures subscribers == if finished then old(subscribers) else old(subscribers) + {queue}
      ensures history == old(history) && finished == old(finished) && status == old(status)
    {
      queue := new Queue();
      for i := 0 to |history|
        invariant history == old(history) && finished == old(finished) && status == old(status)
        invariant Valid() && fresh(queue) && queue !in subscribers
        invariant queue.items == Wrapped(history[..i])
        invariant subscribers == old(subscribers)
        invariant forall q :: q in subscribers ==> q.items == old(q.items)
      {
        queue.Put(Some(history[i]));
        assert Wrapped(history[..i + 1]) == Wrapped(history[..i]) + [Some(history[i])];
      }
      assert history[..|history|] == history;
      if finished {
        queue.Put(None);
      } else {
        subscribers := subscribers + {queue};
      }
    }

    method Unsubscribe(queue: Queue)
      requires Valid()
      modifies this
      ensures Valid() && subscribers == old(subscribers) - {queue}
      ensures history == old(history) && finished == old(finished) && status == old(status)
    {
      subscribers := subscribers - {queue};
    }
  }

  class RunManager {
    var jobs: map<string, Job>

    constructor ()
      ensures jobs == map[] && Valid()
    {
      jobs := map[];
    }

    ghost function Queues(): set<Queue>
      reads this, jobs.Values
    {
      set run, q | run in jobs && q in jobs[run].subscribers :: q
    }

    /** Jobs share nothing, and each is valid. */
    ghost predicate Valid()
      reads this, jobs.Values, Queues()
    {
      && (forall run, other :: run in jobs && other in jobs && run != other ==>
            jobs[run] != jobs[other] && jobs[run].subscribers !! jobs[other].subscribers)
      && (forall run :: run in jobs ==> jobs[run].Valid())
    }

    method Submit(run: string) returns (job: Job)
      requires Valid() && run !in jobs
      modifies this
      ensures Valid() && fresh(job) && jobs == old(jobs)[run := job]
      ensures job.status == Queued && job.history == [] && job.subscribers == {} && !job.finished
    {
      job := new Job();
      jobs := jobs[run := job];
    }

    /** An event of an unknown run is dropped; an event of a known one reaches its followers and nobody else's. */
    method Ingest(run: string, event: Event)
      requires Valid()
      modifies if run in jobs then {jobs[run]} else {}, if run in jobs then jobs[run].subscribers else {}
      ensures jobs == old(jobs)
      ensures run in jobs ==>
        && jobs[run].history == old(jobs[run].history) + [event]
        && jobs[run].finished == old(jobs[run].finished) && jobs[run].status == old(jobs[run].status)
        && jobs[run].subscribers == old(jobs[run].subscribers)
        && forall q :: q in old(jobs[run].subscribers) ==> q.items == old(q.items) + [Some(event)]
      ensures (run in jobs ==> !jobs[run].finished) ==> Valid()
    {
      if run in jobs {
        jobs[run].Ingest(event);
      }
    }

    method Close(run: string, outcome: Outcome)
      requires Valid() && run in jobs && !jobs[run].finished
      modifies jobs[run], jobs[run].subscribers
      ensures Valid() && jobs == old(jobs)
      ensures jobs[run].finished && jobs[run].history == old(jobs[run].history)
      ensures jobs[run].status == FinalStatus(outcome)
      ensures jobs[run].subscribers == old(jobs[run].subscribers)
    {
      jobs[run].Close(outcome);
    }

    method Subscribe(run: string) returns (queue: Option<Queue>)
      requires Valid()
      modifies if run in jobs then {jobs[run]} else {}
      ensures Valid() && jobs == old(jobs)
      ensures queue.Some? <==> run in jobs
      ensures queue.Some? ==>
        && fresh(queue.value) && queue.value.items == Stream(jobs[run].history, jobs[run].finished)
        && jobs[run].history == old(jobs[run].history) && jobs[run].finished == old(jobs[run].finished)
        && jobs[run].subscribers ==
             (if jobs[run].finished then old(jobs[run].subscribers) else old(jobs[run].subscribers) + {queue.value})
    {
      if run !in jobs {
        return None;
      }
      var q := jobs[run].Subscribe();
      return Some(q);
    }

    method Unsubscribe(run: string, queue: Queue)
      requires Valid()
      modifies if run in jobs then {jobs[run]} else {}
      ensures Valid() && jobs == old(jobs)
      ensures run in jobs ==> jobs[run].subscribers == old(jobs[run].subscribers) - {queue}
      ensures run in jobs ==> jobs[run].history == old(jobs[run].history) && jobs[run].finished == old(jobs[run].finished)
    {
      if run in jobs {
        jobs[run].Unsubscribe(queue);
      }
    }
  }
}
