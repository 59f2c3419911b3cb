/**
 * One job under every schedule: a worker thread posts callbacks to the event loop, which runs them one
 * at a time in the order they were posted, while followers join and leave between them.
 */
module JobRuns {
  import opened Common
  import opened Jobs

  datatype Callback = Deliver(event: Event) | Resume(outcome: Outcome)

  datatype Worker = NotStarted | Working | Returned(outcome: Outcome) | Persisting(outcome: Outcome) | Closed

  /** `queues` are the streams handed out so far, `attached` those still fed, `left` those whose owner went away. */
  datatype World = World(
    worker: Worker,
    emitted: seq<Event>,
    posted: seq<Callback>,
    status: Status,
    history: seq<Event>,
    finished: bool,
    queues: map<nat, seq<Option<Event>>>,
    attached: set<nat>,
    left: set<nat>)

  datatype Step =
    | Start
    | Emit(event: Event)
    | Return(outcome: Outcome)
    | RunCallback
    | Persisted
    | Join(queue: nat)
    | Leave(queue: nat)

  predicate Enabled(w: World, step: Step) {
    match step
    case Start => w.worker.NotStarted?
    case Emit(_) => w.worker.Working?
    case Return(_) => w.worker.Working?
    case RunCallback => w.posted != []
    case Persisted => w.worker.Persisting?
    case Join(queue) => queue !in w.queues
    case Leave(queue) => queue in w.queues
  }

  function Put(w: World, item: Option<Event>): map<nat, seq<Option<Event>>> {
    map q | q in w.queues :: if q in w.attached then w.queues[q] + [item] else w.queues[q]
  }

  function Next(w: World, step: Step): World
    requires Enabled(w, step)
  {
    match step
    case Start => w.(worker := Working, status := Running)
    case Emit(event) => w.(emitted := w.emitted + [event], posted := w.posted + [Deliver(event)])
    case Return(outcome) => w.(worker := Returned(outcome), posted := w.posted + [Resume(outcome)])
    case RunCallback =>
      var rest := w.(posted := w.posted[1..]);
      (match w.posted[0]
       case Deliver(event) => rest.(history := w.history + [event], queues := Put(w, Some(event)))
       case Resume(outcome) => rest.(worker := Persisting(outcome), status := FinalStatus(outcome)))
    case Persisted => w.(worker := Closed, finished := true, queues := Put(w, None))
    case Join(queue) =>
      w.(queues := w.queues[queue := Stream(w.history, w.finished)],
         attached := if w.finished then w.attached else w.attached + {queue})
    case Leave(queue) => w.(attached := w.attached - {queue}, left := w.left + {queue})
  }

  function After(steps: seq<Step>): World {
    if steps == [] then World(NotStarted, [], [], Queued, [], false, map[], {}, {})
    else
      var w := After(steps[..|steps| - 1]);
      if Enabled(w, steps[|steps| - 1]) then Next(w, steps[|steps| - 1]) else w
  }

  /** The events still to be delivered; the resumption, if posted, comes after all of them. */
  function Undelivered(posted: seq<Callback>): seq<Event> {
    if posted == [] then []
    else (if posted[0].Deliver? then [posted[0].event] else []) + Undelivered(posted[1..])
  }

  predicate OnlyDeliveries(posted: seq<Callback>) {
    forall i :: 0 <= i < |posted| ==> posted[i].Deliver?
  }

  predicate InOrder(w: World) {
    match w.worker
    case NotStarted => w.posted == [] && w.emitted == []
    case Working => OnlyDeliveries(w.posted)
    case Returned(outcome) =>
      && w.posted != [] && w.posted[|w.posted| - 1] == Resume(outcome) && OnlyDeliveries(w.posted[..|w.posted| - 1])
    case Persisting(_) => w.posted == []
    case Closed => w.posted == []
  }

  predicate StatusFits(w: World) {
    match w.worker
    case NotStarted => w.status == Queued
    case Working => w.status == Running
    case Returned(_) => w.status == Running
    case Persisting(outcome) => w.status == FinalStatus(outcome)
    case Closed => w.status == Succeeded || w.status == Failed
  }

  predicate Invariant(w: World) {
    && InOrder(w) && StatusFits(w)
    && (w.finished <==> w.worker.Closed?)
    && w.history + Undelivered(w.posted) == w.emitted
    && w.attached <= w.queues.Keys && w.left <= w.queues.Keys && w.attached !! w.left
    && (forall q :: q in w.queues && q !in w.left ==> w.queues[q] == Stream(w.history, w.finished))
    && (forall q :: q in w.queues && q !in w.left && !w.finished ==> q in w.attached)
    && (forall q :: q in w.left ==> w.queues[q] <= Stream(w.history, w.finished))
  }

  lemma {:induction false} PostedLast(posted: seq<Callback>, callback: Callback)
    ensures Undelivered(posted + [callback]) ==
      Undelivered(posted) + (if callback.Deliver? then [callback.event] else [])
  {
    if posted == [] {
      assert (posted + [callback])[1..] == [];
    } else {
      PostedLast(posted[1..], callback);
      assert (posted + [callback])[1..] == posted[1..] + [callback];
    }
  }

  lemma PrefixStays(part: seq<Option<Event>>, history: seq<Event>, event: Event)
    requires part <= Stream(history, false)
    ensures part <= Stream(history + [event], false) && part <= Stream(history, true)
  {
    StreamGrows(history, event);
  }

  lemma DeliverOrder(w: World)
    requires InOrder(w) && StatusFits(w) && w.posted != [] && w.posted[0].Deliver?
    ensures InOrder(Next(w, RunCallback)) && StatusFits(Next(w, RunCallback)) && !w.worker.Closed?
  {
    var after := Next(w, RunCallback);
    if w.worker.Returned? {
      assert after.posted[..|after.posted| - 1] == w.posted[..|w.posted| - 1][1..];
    }
  }

  lemma NothingLost(w: World, event: Event)
    requires w.posted != [] && w.posted[0] == Deliver(event) && w.history + Undelivered(w.posted) == w.emitted
    ensures (w.history + [event]) + Undelivered(w.posted[1..]) == w.emitted
  {
    assert (w.history + [event]) + Undelivered(w.posted[1..]) == w.history + ([event] + Undelivered(w.posted[1..]));
  }

  lemma DeliverKeeps(w: World)
    requires Invariant(w) && w.posted != [] && w.posted[0].Deliver?
    ensures Invariant(Next(w, RunCallback))
  {
    hide Stream, InOrder, StatusFits, Undelivered;
    var event := w.posted[0].event;
    var after := Next(w, RunCallback);
    DeliverOrder(w);
    NothingLost(w, event);
    StreamGrows(w.history, event);
    forall q | q in w.left ensures after.queues[q] <= Stream(after.history, false) {
      PrefixStays(w.queues[q], w.history, event);
    }
  }

  lemma FirstOfMany(posted: seq<Callback>)
    requires |posted| > 1 && OnlyDeliveries(posted[..|posted| - 1])
    ensures posted[0].Deliver?
  {
    assert posted[..|posted| - 1][0] == posted[0];
  }

  lemma ResumeKeeps(w: World)
    requires Invariant(w) && w.posted != [] && w.posted[0].Resume?
    ensures Invariant(Next(w, RunCallback))
  {
    hide Stream;
    assert w.worker.Returned?;
    if |w.posted| > 1 {
      FirstOfMany(w.posted);
      assert false;
    }
    assert [] + Undelivered(w.posted[1..]) == Undelivered(w.posted[1..]);
  }

  lemma PersistedKeeps(w: World)
    requires Invariant(w) && w.worker.Persisting?
    ensures Invariant(Next(w, Persisted))
  {
    hide Stream;
    StreamGrows(w.history, "");
    forall q | q in w.left ensures Next(w, Persisted).queues[q] <= Stream(w.history, true) {
      PrefixStays(w.queues[q], w.history, "");
    }
  }

  lemma EmitKeeps(w: World, event: Event)
    requires Invariant(w) && w.worker.Working?
    ensures Invariant(Next(w, Emit(event)))
  {
    hide Stream, Undelivered;
    PostedLast(w.posted, Deliver(event));
    assert w.history + (Undelivered(w.posted) + [event]) == (w.history + Undelivered(w.posted)) + [event];
  }

  lemma ReturnKeeps(w: World, outcome: Outcome)
    requires Invariant(w) && w.worker.Working?
    ensures Invariant(Next(w, Return(outcome)))
  {
    hide Stream, Undelivered;
    PostedLast(w.posted, Resume(outcome));
    assert Undelivered(w.posted) + [] == Undelivered(w.posted);
    assert (w.posted + [Resume(outcome)])[..|w.posted|] == w.posted;
  }

  lemma JoinKeeps(w: World, queue: nat)
    requires Invariant(w) && queue !in w.queues
    ensures Invariant(Next(w, Join(queue)))
  {
    hide Stream, Undelivered, OnlyDeliveries;
  }

  lemma LeaveKeeps(w: World, queue: nat)
    requires Invariant(w) && queue in w.queues
    ensures Invariant(Next(w, Leave(queue)))
  {
    hide Stream, Undelivered, OnlyDeliveries;
  }

  lemma StartKeeps(w: World)
    requires Invariant(w) && w.worker.NotStarted?
    ensures Invariant(Next(w, Start))
  {
    hide Stream, Undelivered;
  }

  lemma NextKeeps(w: World, step: Step)
    requires Invariant(w) && Enabled(w, step)
    ensures Invariant(Next(w, step))
  {
    hide Invariant, Next;
    match step
    case Start => StartKeeps(w);
    case Emit(event) => EmitKeeps(w, event);
    case Return(outcome) => ReturnKeeps(w, outcome);
    case RunCallback => if w.posted[0].Deliver? { DeliverKeeps(w); } else { ResumeKeeps(w); }
    case Persisted => PersistedKeeps(w);
    case Join(queue) => JoinKeeps(w, queue);
    case Leave(queue) => LeaveKeeps(w, queue);
  }

  lemma {:induction false} EveryScheduleKeeps(steps: seq<Step>)
    ensures Invariant(After(steps))
    decreases |steps|
  {
    hide Invariant, Enabled, Next;
    if steps == [] {
      NothingYet();
    } else {
      var w := After(steps[..|steps| - 1]);
      EveryScheduleKeeps(steps[..|steps| - 1]);
      if Enabled(w, steps[|steps| - 1]) {
        NextKeeps(w, steps[|steps| - 1]);
      }
    }
  }

  lemma NothingYet()
    ensures Invariant(World(NotStarted, [], [], Queued, [], false, map[], {}, {}))
  {
  }

  /** No event is ever delivered to a finished job: the end was posted after every event, and callbacks keep order. */
  lemma NothingComesLate(steps: seq<Step>)
    ensures var w := After(steps);
      w.finished ==> w.posted == [] && !Enabled(w, RunCallback) && forall event :: !Enabled(w, Emit(event))
  {
    hide After;
    EveryScheduleKeeps(steps);
  }

  /**
   * Once a job is finished its history is everything the run emitted, and each follower that stayed has
   * all of it, in order, followed by one end and nothing more; one that left has a prefix of that.
   */
  lemma FollowersGetEverything(steps: seq<Step>, queue: nat)
    requires After(steps).finished && queue in After(steps).queues
    ensures var w := After(steps);
      && w.history == w.emitted
      && (w.status == Succeeded || w.status == Failed)
      && (queue !in w.left ==> w.queues[queue] == Wrapped(w.emitted) + [None])
      && (queue in w.left ==> w.queues[queue] <= Wrapped(w.emitted) + [None])
  {
    hide After;
    EveryScheduleKeeps(steps);
    var w := After(steps);
    assert w.history + [] == w.history;
  }

  /** While the run goes on, whoever stays has exactly the events delivered so far, and no end yet. */
  lemma FollowersKeepUp(steps: seq<Step>, queue: nat)
    requires !After(steps).finished && queue in After(steps).queues
    ensures var w := After(steps);
      && w.history <= w.emitted
      && (queue !in w.left ==> w.queues[queue] == Wrapped(w.history))
      && (queue in w.left ==> w.queues[queue] <= Wrapped(w.history))
  {
    hide After;
    EveryScheduleKeeps(steps);
    var w := After(steps);
    assert Stream(w.history, false) == Wrapped(w.history);
  }

  /** How the worker of this run ended, if it did. */
  function EndedWith(steps: seq<Step>): Option<Outcome> {
    if steps == [] then None
    else
      var earlier, last := steps[..|steps| - 1], steps[|steps| - 1];
      if last.Return? && Enabled(After(earlier), last) then Some(last.outcome) else EndedWith(earlier)
  }

  ghost predicate OutcomeKnown(w: World, ended: Option<Outcome>) {
    && (ended.Some? <==> w.worker.Returned? || w.worker.Persisting? || w.worker.Closed?)
    && (w.worker.Returned? ==> Some(w.worker.outcome) == ended)
    && (w.worker.Persisting? || w.worker.Closed? ==>
          w.status == (if ended == Some(Result(false)) then Succeeded else Failed))
  }

  lemma OutcomeStaysKnown(w: World, step: Step, ended: Option<Outcome>)
    requires Invariant(w) && OutcomeKnown(w, ended) && Enabled(w, step)
    ensures OutcomeKnown(Next(w, step), if step.Return? then Some(step.outcome) else ended)
  {
    hide Stream, Undelivered;
    if step.RunCallback? && w.worker.Returned? && |w.posted| > 1 {
      FirstOfMany(w.posted);
    }
  }

  /** A job succeeded exactly when the engine returned a result that is not a failure; otherwise it failed. */
  lemma {:induction false} StatusTellsTheOutcome(steps: seq<Step>)
    ensures var w := After(steps);
      && (w.status == Succeeded ==> EndedWith(steps) == Some(Result(false)))
      && (w.status == Failed ==> EndedWith(steps) == Some(Result(true)) || EndedWith(steps) == Some(Raised))
      && (w.finished ==>
            (w.status == Succeeded <==> EndedWith(steps) == Some(Result(false)))
            && (w.status == Failed <==> EndedWith(steps) != Some(Result(false))))
  {
    hide After, EndedWith, InOrder;
    EveryScheduleKeeps(steps);
    OutcomeAlwaysKnown(steps);
    var ended := EndedWith(steps);
    assert ended.None? || ended.value.Raised? || ended.value == Result(ended.value.engineFailed);
  }

  lemma {:induction false} OutcomeAlwaysKnown(steps: seq<Step>)
    ensures OutcomeKnown(After(steps), EndedWith(steps))
    decreases |steps|
  {
    hide OutcomeKnown, Invariant, Enabled, Next;
    if steps == [] {
      NothingKnown();
    } else {
      var earlier, last := steps[..|steps| - 1], steps[|steps| - 1];
      OutcomeAlwaysKnown(earlier);
      EveryScheduleKeeps(earlier);
      if Enabled(After(earlier), last) {
        OutcomeStaysKnown(After(earlier), last, EndedWith(earlier));
      }
    }
  }

  lemma NothingKnown()
    ensures OutcomeKnown(World(NotStarted, [], [], Queued, [], false, map[], {}, {}), None)
  {
  }
}
