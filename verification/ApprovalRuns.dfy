/** All interleavings of parked runs, screens, timers and cancellations over one gateway. */
module ApprovalRuns {
  import opened Common
  import opened Approvals

  datatype Phase = Parked | Waiting | Woken(answer: Option<Decision>) | Over(outcome: Outcome)

  /** A decision the gateway answered `true` to. */
  datatype Acceptance = Acceptance(token: string, decision: Decision, at: int)

  /** One `confirm` step, from the request it opened to its outcome. */
  datatype Confirm = Confirm(meeting: Meeting, openedAt: int, attended: bool, onTimeout: string, aborted: bool,
                             phase: Phase, accepted: seq<Acceptance>)

  /** `pending` keeps one slot per run id, as the source does; each slot names a confirm. */
  datatype Gate = Gate(confirms: seq<Confirm>, pending: map<string, nat>, queue: seq<Request>, listeners: nat)

  datatype Step =
    | Open(request: Request, onTimeout: string, aborted: bool, now: int)
    | Wait(i: nat)
    | Decide(runId: string, token: string, decision: Decision, now: int)
    | DecideOnScreen(decision: Decision, now: int)
    | Timer(i: nat)
    | Abort(i: nat)
    | Conclude(i: nat)
    | Listeners(count: nat)

  predicate Enabled(g: Gate, step: Step) {
    match step
    case Open(request, _, _, _) => forall k :: 0 <= k < |g.confirms| ==> g.confirms[k].meeting.request.token != request.token
    case Wait(i) => i < |g.confirms| && g.confirms[i].phase.Parked?
    case Timer(i) => i < |g.confirms| && g.confirms[i].phase.Waiting?
    case Abort(i) => i < |g.confirms| && !g.confirms[i].phase.Over?
    case Conclude(i) => i < |g.confirms| && g.confirms[i].phase.Woken?
    case _ => true
  }

  // What each step does to the confirm it concerns.

  function Opened(request: Request, onTimeout: string, aborted: bool, now: int, listeners: nat): Confirm {
    Confirm(Arranged(Effective(request, listeners), now), now, listeners > 0, onTimeout, aborted, Parked, [])
  }

  function Waited(c: Confirm): Confirm {
    var m := Awaited(c.meeting, c.aborted);
    c.(meeting := m, phase := if m.waiting then Waiting else Woken(m.decision))
  }

  function Answered(c: Confirm, decision: Decision, now: int): Confirm {
    if !Accepts(c.meeting, now) then c
    else
      c.(meeting := Decided(c.meeting, decision, now),
         phase := if c.phase.Waiting? then Woken(Some(decision)) else c.phase,
         accepted := c.accepted + [Acceptance(c.meeting.request.token, decision, now)])
  }

  function TimedOut(c: Confirm): Confirm {
    var m := TimerFired(c.meeting);
    c.(meeting := m, phase := Woken(m.decision))
  }

  function Interrupted(c: Confirm): Confirm {
    var m := Approvals.Aborted(c.meeting);
    c.(meeting := m, aborted := true, phase := if c.phase.Waiting? then Woken(m.decision) else c.phase)
  }

  function Closed(c: Confirm): Confirm
    requires c.phase.Woken?
  {
    c.(phase := Over(Concluded(c.phase.answer, c.aborted, c.onTimeout)))
  }

  function WithoutPending(g: Gate, request: Request): map<string, nat> {
    if request.runId in g.pending && g.pending[request.runId] < |g.confirms|
       && g.confirms[g.pending[request.runId]].meeting.request.token == request.token
    then g.pending - {request.runId} else g.pending
  }

  function Resolved(g: Gate, runId: string, token: string, decision: Decision, now: int): Gate {
    if runId !in g.pending || g.pending[runId] >= |g.confirms| then g
    else
      var i := g.pending[runId];
      if g.confirms[i].meeting.request.token != token then g
      else g.(confirms := g.confirms[i := Answered(g.confirms[i], decision, now)])
  }

  function Next(g: Gate, step: Step): Gate
    requires Enabled(g, step)
  {
    match step
    case Open(request, onTimeout, aborted, now) =>
      var c := Opened(request, onTimeout, aborted, now, g.listeners);
      g.(confirms := g.confirms + [c], pending := g.pending[request.runId := |g.confirms|],
         queue := g.queue + [c.meeting.request])
    case Wait(i) => g.(confirms := g.confirms[i := Waited(g.confirms[i])])
    case Decide(runId, token, decision, now) => Resolved(g, runId, token, decision, now)
    case DecideOnScreen(decision, now) =>
      if g.queue == [] then g else Resolved(g, g.queue[0].runId, g.queue[0].token, decision, now)
    case Timer(i) => g.(confirms := g.confirms[i := TimedOut(g.confirms[i])])
    case Abort(i) => g.(confirms := g.confirms[i := Interrupted(g.confirms[i])])
    case Conclude(i) =>
      var request := g.confirms[i].meeting.request;
      g.(confirms := g.confirms[i := Closed(g.confirms[i])],
         pending := WithoutPending(g, request), queue := Without(g.queue, request.token))
    case Listeners(count) => g.(listeners := count)
  }

  /** Any run: steps that are not enabled do not happen. */
  function After(steps: seq<Step>): Gate {
    if steps == [] then Gate([], map[], [], 0)
    else
      var g := After(steps[..|steps| - 1]);
      if Enabled(g, steps[|steps| - 1]) then Next(g, steps[|steps| - 1]) else g
  }

  // One confirm.

  /** At most one accepted decision, its own, taken before the deadline; and what the wait yields is that one. */
  predicate Coherent(c: Confirm) {
    && c.meeting.deadline == c.openedAt + c.meeting.request.timeoutMs
    && (!c.attended ==> c.meeting.request.timeoutMs == 0)
    && |c.accepted| <= 1
    && c.meeting.decision == (if c.accepted == [] then None else Some(c.accepted[0].decision))
    && (c.accepted != [] ==> c.accepted[0].token == c.meeting.request.token && c.accepted[0].at < c.meeting.deadline)
    && (c.meeting.decision.Some? ==> c.meeting.settled)
    && (match c.phase
        case Parked => !c.meeting.waiting && (c.meeting.settled ==> c.meeting.decision.Some?)
        case Waiting => c.meeting.waiting && !c.meeting.settled && !c.aborted
        case Woken(answer) =>
          && c.meeting.settled && !c.meeting.waiting && answer == c.meeting.decision
        case Over(outcome) =>
          && c.meeting.settled && !c.meeting.waiting
          && outcome == Concluded(c.meeting.decision, c.aborted, c.onTimeout))
  }

  lemma StepsCohere(c: Confirm, decision: Decision, now: int)
    requires Coherent(c)
    ensures c.phase.Parked? ==> Coherent(Waited(c))
    ensures Coherent(Answered(c, decision, now))
    ensures c.phase.Waiting? ==> Coherent(TimedOut(c))
    ensures !c.phase.Over? ==> Coherent(Interrupted(c))
    ensures c.phase.Woken? ==> Coherent(Closed(c))
  {
    hide Concluded;
  }

  // The gateway.

  function OpenRequests(confirms: seq<Confirm>): seq<Request> {
    if confirms == [] then []
    else (if confirms[0].phase.Over? then [] else [confirms[0].meeting.request]) + OpenRequests(confirms[1..])
  }

  predicate TokensDiffer(confirms: seq<Confirm>) {
    forall i, j :: 0 <= i < j < |confirms| ==> confirms[i].meeting.request.token != confirms[j].meeting.request.token
  }

  predicate Tracked(g: Gate) {
    forall r :: r in g.pending ==>
      && g.pending[r] < |g.confirms|
      && g.confirms[g.pending[r]].meeting.request.runId == r
      && !g.confirms[g.pending[r]].phase.Over?
  }

  predicate Invariant(g: Gate) {
    && (forall i :: 0 <= i < |g.confirms| ==> Coherent(g.confirms[i]))
    && TokensDiffer(g.confirms)
    && Tracked(g)
    && g.queue == OpenRequests(g.confirms)
  }

  lemma {:induction false} OpenAppended(confirms: seq<Confirm>, c: Confirm)
    requires !c.phase.Over?
    ensures OpenRequests(confirms + [c]) == OpenRequests(confirms) + [c.meeting.request]
  {
    if confirms == [] {
      assert (confirms + [c])[1..] == [];
    } else {
      OpenAppended(confirms[1..], c);
      assert (confirms + [c])[1..] == confirms[1..] + [c];
    }
  }

  lemma {:induction false} OpenUnmoved(confirms: seq<Confirm>, i: nat, c: Confirm)
    requires i < |confirms|
    requires c.meeting.request == confirms[i].meeting.request && c.phase.Over? == confirms[i].phase.Over?
    ensures OpenRequests(confirms[i := c]) == OpenRequests(confirms)
  {
    if i == 0 {
      assert confirms[i := c][1..] == confirms[1..];
    } else {
      OpenUnmoved(confirms[1..], i - 1, c);
      assert confirms[i := c][1..] == confirms[1..][i - 1 := c];
    }
  }

  lemma {:induction false} OpenClosed(confirms: seq<Confirm>, i: nat, c: Confirm)
    requires i < |confirms| && TokensDiffer(confirms)
    requires !confirms[i].phase.Over? && c.phase.Over?
    ensures OpenRequests(confirms[i := c]) == Without(OpenRequests(confirms), confirms[i].meeting.request.token)
  {
    if i == 0 {
      assert confirms[i := c][1..] == confirms[1..];
      assert OpenRequests(confirms)[1..] == OpenRequests(confirms[1..]);
    } else {
      OpenClosed(confirms[1..], i - 1, c);
      assert confirms[i := c][1..] == confirms[1..][i - 1 := c];
      assert confirms[0].meeting.request.token != confirms[i].meeting.request.token;
      var rest, token := OpenRequests(confirms[1..]), confirms[i].meeting.request.token;
      assert confirms[1..][i - 1] == confirms[i];
      if confirms[0].phase.Over? {
        assert [] + rest == rest && [] + Without(rest, token) == Without(rest, token);
      } else {
        assert OpenRequests(confirms)[1..] == rest;
      }
    }
  }

  /** Steps that change one confirm and leave it open keep the queue, the slots and the tokens. */
  lemma ReplaceKeeps(g: Gate, i: nat, c: Confirm)
    requires Invariant(g) && i < |g.confirms| && Coherent(c)
    requires c.meeting.request == g.confirms[i].meeting.request && c.phase.Over? == g.confirms[i].phase.Over?
    ensures Invariant(g.(confirms := g.confirms[i := c]))
  {
    hide Coherent, OpenRequests;
    OpenUnmoved(g.confirms, i, c);
  }

  lemma OpenKeeps(g: Gate, step: Step)
    requires Invariant(g) && Enabled(g, step) && step.Open?
    ensures Invariant(Next(g, step))
  {
    hide OpenRequests;
    var c := Opened(step.request, step.onTimeout, step.aborted, step.now, g.listeners);
    assert Coherent(c);
    OpenKeepsQueue(g, step, c);
  }

  lemma OpenKeepsQueue(g: Gate, step: Step, c: Confirm)
    requires Invariant(g) && Enabled(g, step) && step.Open? && Coherent(c) && !c.phase.Over?
    requires c == Opened(step.request, step.onTimeout, step.aborted, step.now, g.listeners)
    ensures Invariant(Next(g, step))
  {
    hide Coherent, OpenRequests;
    OpenAppended(g.confirms, c);
  }

  lemma ConcludeKeeps(g: Gate, i: nat)
    requires Invariant(g) && i < |g.confirms| && g.confirms[i].phase.Woken?
    ensures Invariant(Next(g, Conclude(i)))
  {
    hide OpenRequests, Coherent;
    var c := Closed(g.confirms[i]);
    StepsCohere(g.confirms[i], Decision(false, None, None), 0);
    OpenClosed(g.confirms, i, c);
    var after := Next(g, Conclude(i));
    var request := g.confirms[i].meeting.request;
    forall r | r in after.pending
      ensures after.pending[r] < |after.confirms|
           && after.confirms[after.pending[r]].meeting.request.runId == r
           && !after.confirms[after.pending[r]].phase.Over?
    {
      assert r in g.pending && g.pending[r] == after.pending[r];
      assert g.confirms[g.pending[r]].meeting.request.runId == r;
    }
  }

  lemma ResolvedKeeps(g: Gate, runId: string, token: string, decision: Decision, now: int)
    requires Invariant(g)
    ensures Invariant(Resolved(g, runId, token, decision, now))
  {
    hide Coherent, OpenRequests;
    if runId in g.pending {
      var i := g.pending[runId];
      StepsCohere(g.confirms[i], decision, now);
      ReplaceKeeps(g, i, Answered(g.confirms[i], decision, now));
    }
  }

  lemma NextKeeps(g: Gate, step: Step)
    requires Invariant(g) && Enabled(g, step)
    ensures Invariant(Next(g, step))
  {
    hide Coherent, OpenRequests, Resolved;
    var nobody := Decision(false, None, None);
    match step
    case Open(_, _, _, _) => OpenKeeps(g, step);
    case Wait(i) =>
      StepsCohere(g.confirms[i], nobody, 0);
      ReplaceKeeps(g, i, Waited(g.confirms[i]));
    case Decide(runId, token, decision, now) => ResolvedKeeps(g, runId, token, decision, now);
    case DecideOnScreen(decision, now) =>
      if g.queue != [] {
        ResolvedKeeps(g, g.queue[0].runId, g.queue[0].token, decision, now);
      }
    case Timer(i) =>
      StepsCohere(g.confirms[i], nobody, 0);
      ReplaceKeeps(g, i, TimedOut(g.confirms[i]));
    case Abort(i) =>
      StepsCohere(g.confirms[i], nobody, 0);
      ReplaceKeeps(g, i, Interrupted(g.confirms[i]));
    case Conclude(i) => ConcludeKeeps(g, i);
    case Listeners(_) =>
  }

  /** The queue is the open requests in arrival order, and every confirm is coherent, in every interleaving. */
  lemma {:induction false} EveryRunKeeps(steps: seq<Step>)
    ensures Invariant(After(steps))
    decreases |steps|
  {
    hide Invariant, Enabled, Next;
    if steps == [] {
      NothingOpen();
    } else {
      var g := After(steps[..|steps| - 1]);
      EveryRunKeeps(steps[..|steps| - 1]);
      if Enabled(g, steps[|steps| - 1]) {
        NextKeeps(g, steps[|steps| - 1]);
      }
    }
  }

  lemma NothingOpen()
    ensures Invariant(Gate([], map[], [], 0))
  {
  }

  predicate BearsOwnApproval(c: Confirm)
    requires c.accepted != []
  {
    && c.accepted[0].decision.approved
    && c.accepted[0].token == c.meeting.request.token
    && c.accepted[0].at < c.meeting.deadline
  }

  /**
   * A step that answers `approved` was approved by a decision bearing its own token before its own
   * deadline, in a run nobody cancelled, or its policy lets silence through.
   */
  lemma ApprovedOnlyIf(steps: seq<Step>, i: nat)
    requires i < |After(steps).confirms|
    ensures var c := After(steps).confirms[i];
      c.phase.Over? && c.phase.outcome.Answer? && c.phase.outcome.approved ==>
        && !c.aborted
        && |c.accepted| <= 1
        && (c.accepted == [] ==> c.onTimeout == "approve")
        && (c.accepted != [] ==> BearsOwnApproval(c))
  {
    hide After, OpenRequests;
    EveryRunKeeps(steps);
  }

  /** An accepted decision is the outcome, unless the run was cancelled; a cancelled run always throws. */
  lemma AcceptedIsTheOutcome(steps: seq<Step>, i: nat)
    requires i < |After(steps).confirms| && After(steps).confirms[i].phase.Over?
    ensures var c := After(steps).confirms[i];
      && |c.accepted| <= 1
      && (c.phase.outcome == Cancelled <==> c.aborted)
      && (c.accepted != [] && !c.aborted ==>
            var d := c.accepted[0].decision; c.phase.outcome == Answer(d.approved, d.value, d.decidedBy))
      && (c.accepted == [] && !c.aborted ==> c.phase.outcome == ApplyTimeout(c.onTimeout))
  {
    hide After, OpenRequests;
    EveryRunKeeps(steps);
  }

  /**
   * A question without an accepted decision, in a run nobody cancelled, ends as its policy says: `approve` approves,
   * `fail:` and a code is an error with that code, and anything else refuses.
   */
  lemma SilenceFollowsThePolicy(steps: seq<Step>, i: nat, code: string)
    requires i < |After(steps).confirms| && After(steps).confirms[i].phase.Over?
    requires After(steps).confirms[i].accepted == [] && !After(steps).confirms[i].aborted
    ensures var c := After(steps).confirms[i];
      && (c.onTimeout == "approve" ==> c.phase.outcome == Answer(true, None, Some("timeout")))
      && (c.onTimeout == "fail:" ==> c.phase.outcome == TimeoutError(None))
      && (c.onTimeout == "fail:" + code && code != "" ==> c.phase.outcome == TimeoutError(Some(code)))
      && (c.onTimeout != "approve" && !("fail:" <= c.onTimeout) ==>
            c.phase.outcome == Answer(false, None, Some("timeout")))
  {
    hide After, ApplyTimeout;
    AcceptedIsTheOutcome(steps, i);
    PolicyIs(After(steps).confirms[i].onTimeout, code);
  }

  lemma PolicyIs(onTimeout: string, code: string)
    ensures onTimeout == "approve" ==> ApplyTimeout(onTimeout) == Answer(true, None, Some("timeout"))
    ensures onTimeout == "fail:" ==> ApplyTimeout(onTimeout) == TimeoutError(None)
    ensures onTimeout == "fail:" + code && code != "" ==> ApplyTimeout(onTimeout) == TimeoutError(Some(code))
    ensures onTimeout != "approve" && !("fail:" <= onTimeout) ==>
      ApplyTimeout(onTimeout) == Answer(false, None, Some("timeout"))
  {
    assert "approve"[0] != "fail:"[0];
    assert ("fail:" + code)[5..] == code;
  }

  /** Everyone asked before this one was has an answer. */
  predicate Oldest(g: Gate, i: nat) {
    && i < |g.confirms| && !g.confirms[i].phase.Over?
    && forall j :: 0 <= j < i ==> g.confirms[j].phase.Over?
  }

  lemma {:induction false} OldestIsFirst(confirms: seq<Confirm>, i: nat)
    requires i < |confirms| && !confirms[i].phase.Over? && forall j :: 0 <= j < i ==> confirms[j].phase.Over?
    ensures OpenRequests(confirms) != [] && OpenRequests(confirms)[0] == confirms[i].meeting.request
    decreases |confirms|
  {
    if i > 0 {
      OldestIsFirst(confirms[1..], i - 1);
    }
  }

  lemma {:induction false} NoneOpen(confirms: seq<Confirm>)
    requires forall j :: 0 <= j < |confirms| ==> confirms[j].phase.Over?
    ensures OpenRequests(confirms) == []
    decreases |confirms|
  {
    if confirms != [] {
      NoneOpen(confirms[1..]);
    }
  }

  /** On screen is always the question that has waited longest, and none only when none is open. */
  lemma OldestIsOnScreen(steps: seq<Step>, i: nat)
    ensures var g := After(steps);
      && (Oldest(g, i) ==> Current(g.queue) == Some(g.confirms[i].meeting.request))
      && (Current(g.queue).None? <==> forall j :: 0 <= j < |g.confirms| ==> g.confirms[j].phase.Over?)
  {
    hide After, OpenRequests;
    EveryRunKeeps(steps);
    var g := After(steps);
    if Oldest(g, i) {
      OldestIsFirst(g.confirms, i);
    }
    if forall j :: 0 <= j < |g.confirms| ==> g.confirms[j].phase.Over? {
      NoneOpen(g.confirms);
    } else {
      var first := FirstOpen(g.confirms);
      OldestIsFirst(g.confirms, first);
    }
  }

  lemma FirstOpen(confirms: seq<Confirm>) returns (i: nat)
    requires exists j :: 0 <= j < |confirms| && !confirms[j].phase.Over?
    ensures i < |confirms| && !confirms[i].phase.Over? && forall j :: 0 <= j < i ==> confirms[j].phase.Over?
  {
    i := 0;
    while confirms[i].phase.Over?
      invariant i < |confirms| && forall j :: 0 <= j < i ==> confirms[j].phase.Over?
      decreases |confirms| - i
    {
      i := i + 1;
    }
  }

  /** A question nobody was there to see takes no decision, unless the clock runs backwards. */
  lemma UnattendedTakesNoDecision(steps: seq<Step>, i: nat, k: nat)
    requires i < |After(steps).confirms| && k < |After(steps).confirms[i].accepted|
    requires !After(steps).confirms[i].attended
    ensures After(steps).confirms[i].accepted[k].at < After(steps).confirms[i].openedAt
  {
    hide After, OpenRequests;
    EveryRunKeeps(steps);
  }
}
