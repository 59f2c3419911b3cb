/** The meeting point of a parked run and a human: the first of a decision, a deadline or a cancellation wins. */
module Approvals {
  import opened Common

  datatype Request = Request(runId: string, token: string, message: string, timeoutMs: int)

  datatype Decision = Decision(approved: bool, value: Option<string>, decidedBy: Option<string>)

  /** A rendezvous as a value. `waiting` says that someone is parked on it and can be woken. */
  datatype Meeting = Meeting(request: Request, deadline: int, settled: bool, decision: Option<Decision>,
                             timedOut: bool, waiting: bool)

  function Arranged(request: Request, now: int): Meeting {
    Meeting(request, now + request.timeoutMs, false, None, false, false)
  }

  predicate Expired(m: Meeting, now: int) {
    m.timedOut || now >= m.deadline
  }

  predicate Accepts(m: Meeting, now: int) {
    !m.settled && !Expired(m, now)
  }

  /** A decision settles the meeting and wakes whoever waits; late or second ones do nothing. */
  function Decided(m: Meeting, decision: Decision, now: int): Meeting {
    if Accepts(m, now) then m.(settled := true, decision := Some(decision), waiting := false) else m
  }

  /** Whoever waits is released at once when there is nothing left to wait for. */
  function Awaited(m: Meeting, aborted: bool): Meeting {
    if m.settled then m else if aborted then m.(settled := true, waiting := false) else m.(waiting := true)
  }

  function TimerFired(m: Meeting): Meeting {
    if m.waiting then m.(timedOut := true, settled := true, waiting := false) else m
  }

  function Aborted(m: Meeting): Meeting {
    if m.waiting then m.(settled := true, waiting := false) else m
  }

  class Rendezvous {
    const request: Request
    const deadline: int
    var settled: bool
    var decision: Option<Decision>
    var timedOut: bool
    var wake: bool

    constructor (request: Request, now: int)
      ensures View() == Arranged(request, now)
    {
      this.request, this.deadline := request, now + request.timeoutMs;
      settled, decision, timedOut, wake := false, None, false, false;
    }

    function View(): Meeting
      reads this
    {
      Meeting(request, deadline, settled, decision, timedOut, wake)
    }

    /** `released` is the answer when the wait is over before it begins. */
    method Wait(aborted: bool) returns (released: bool, answer: Option<Decision>)
      modifies this
      ensures View() == Awaited(old(View()), aborted)
      ensures released == (old(settled) || aborted)
      ensures released ==> answer == decision
    {
      if settled {
        return true, decision;
      }
      wake := true;
      if aborted {
        Release();
        return true, decision;
      }
      return false, None;
    }

    method Release()
      modifies this
      ensures View() == old(View()).(settled := true, waiting := false)
    {
      settled := true;
      wake := false;
    }

    method OnTimer()
      modifies this
      ensures View() == TimerFired(old(View()))
    {
      if wake {
        timedOut := true;
        Release();
      }
    }

    method OnAbort()
      modifies this
      ensures View() == Aborted(old(View()))
    {
      if wake {
        Release();
      }
    }

    method Resolve(decision: Decision, now: int) returns (accepted: bool)
      modifies this
      ensures accepted == Accepts(old(View()), now)
      ensures View() == Decided(old(View()), decision, now)
    {
      if settled || Expired(View(), now) {
        return false;
      }
      settled, this.decision := true, Some(decision);
      wake := false;
      return true;
    }
  }

  /** The queue without the first request of that token. */
  function Without(queue: seq<Request>, token: string): seq<Request> {
    if queue == [] then []
    else if queue[0].token == token then queue[1..]
    else [queue[0]] + Without(queue[1..], token)
  }

  lemma {:induction false} WithoutAt(queue: seq<Request>, index: nat, token: string)
    requires index <= |queue| && (index < |queue| ==> queue[index].token == token)
    requires forall k :: 0 <= k < index ==> queue[k].token != token
    ensures Without(queue, token) == if index < |queue| then queue[..index] + queue[index + 1..] else queue
  {
    if index > 0 {
      forall k | 0 <= k < index - 1 ensures queue[1..][k].token != token {
        assert queue[1..][k] == queue[k + 1];
      }
      WithoutAt(queue[1..], index - 1, token);
      if index < |queue| {
        HeadKept(queue, index);
      } else {
        assert queue == [queue[0]] + queue[1..];
      }
    }
  }

  lemma HeadKept(queue: seq<Request>, index: nat)
    requires 0 < index < |queue|
    ensures [queue[0]] + (queue[1..][..index - 1] + queue[1..][index..]) == queue[..index] + queue[index + 1..]
  {
    assert queue[..index] == [queue[0]] + queue[1..][..index - 1];
    assert queue[index + 1..] == queue[1..][index..];
  }

  /** Nobody listens: nobody will ever see the question, so it expires as it is asked. */
  function Effective(request: Request, listeners: nat): Request {
    if listeners > 0 then request else request.(timeoutMs := 0)
  }

  /** What a mounted screen is told: the oldest open request, or nothing. */
  function Current(queue: seq<Request>): Option<Request> {
    if queue == [] then None else Some(queue[0])
  }

  class ConfirmGateway {
    var pending: map<string, Rendezvous>
    var queue: seq<Request>
    var listeners: set<nat>
    /** What each listener was last told. */
    var shown: map<nat, Option<Request>>

    constructor ()
      ensures pending == map[] && queue == [] && listeners == {} && shown == map[]
    {
      pending, queue, listeners, shown := map[], [], {}, map[];
    }

    /** Every listener knows the head of the queue. */
    predicate Informed()
      reads this
    {
      forall l :: l in listeners ==> l in shown && shown[l] == Current(queue)
    }

    method Open(request: Request, now: int) returns (r: Rendezvous)
      modifies this
      ensures fresh(r) && r.View() == Arranged(Effective(request, |old(listeners)|), now)
      ensures pending == old(pending)[request.runId := r]
      ensures queue == old(queue) + [Effective(request, |old(listeners)|)]
      ensures listeners == old(listeners) && Informed()
    {
      var effective := Effective(request, |listeners|);
      r := new Rendezvous(effective, now);
      pending := pending[effective.runId := r];
      queue := queue + [effective];
      Announce();
    }

    method Close(request: Request)
      modifies this
      ensures queue == Without(old(queue), request.token)
      ensures pending ==
        if request.runId in old(pending) && old(pending)[request.runId].request.token == request.token
        then old(pending) - {request.runId} else old(pending)
      ensures listeners == old(listeners) && Informed()
    {
      if request.runId in pending && pending[request.runId].request.token == request.token {
        pending := pending - {request.runId};
      }
      var index := FindIndex(request.token);
      WithoutAt(queue, index, request.token);
      if index < |queue| {
        queue := queue[..index] + queue[index + 1..];
      }
      Announce();
    }

    method FindIndex(token: string) returns (index: nat)
      ensures index <= |queue| && (index < |queue| ==> queue[index].token == token)
      ensures forall k :: 0 <= k < index ==> queue[k].token != token
    {
      index := 0;
      while index < |queue| && queue[index].token != token
        invariant index <= |queue|
        invariant forall k :: 0 <= k < index ==> queue[k].token != token
      {
        index := index + 1;
      }
    }

    /** The token is the authorisation: an old or foreign one resolves nothing and touches nothing. */
    method Resolve(runId: string, token: string, decision: Decision, now: int) returns (accepted: bool)
      modifies set k | k in pending :: pending[k]
      ensures accepted <==>
        runId in pending && pending[runId].request.token == token && old(Accepts(pending[runId].View(), now))
      ensures runId in pending && pending[runId].request.token == token ==>
        pending[runId].View() == Decided(old(pending[runId].View()), decision, now)
      ensures forall k :: k in pending && (runId in pending ==> pending[k] != pending[runId]) ==>
        pending[k].View() == old(pending[k].View())
      ensures runId in pending && pending[runId].request.token != token ==>
        pending[runId].View() == old(pending[runId].View())
    {
      if runId !in pending || pending[runId].request.token != token {
        return false;
      }
      accepted := pending[runId].Resolve(decision, now);
    }

    /** Answers the request on screen; false when it went away in the meantime. */
    method Decide(decision: Decision, now: int) returns (accepted: bool)
      modifies set k | k in pending :: pending[k]
      ensures accepted <==>
        && queue != [] && queue[0].runId in pending && pending[queue[0].runId].request.token == queue[0].token
        && old(Accepts(pending[queue[0].runId].View(), now))
      ensures accepted ==>
        pending[queue[0].runId].View() == Decided(old(pending[queue[0].runId].View()), decision, now)
      ensures forall k ::
        k in pending && (accepted ==> pending[k] != pending[queue[0].runId]) ==>
          pending[k].View() == old(pending[k].View())
    {
      if queue == [] {
        return false;
      }
      accepted := Resolve(queue[0].runId, queue[0].token, decision, now);
    }

    method Subscribe(listener: nat)
      requires Informed()
      modifies this
      ensures listeners == old(listeners) + {listener} && Informed()
      ensures queue == old(queue) && pending == old(pending)
    {
      listeners := listeners + {listener};
      shown := shown[listener := Current(queue)];
    }

    method Unsubscribe(listener: nat)
      requires Informed()
      modifies this
      ensures listeners == old(listeners) - {listener} && Informed()
      ensures queue == old(queue) && pending == old(pending)
    {
      listeners := listeners - {listener};
    }

    method Announce()
      modifies this`shown
      ensures Informed()
    {
      shown := map l | l in listeners :: Current(queue);
    }
  }

  // The outcome of a `confirm` step.

  datatype Outcome =
    | Answer(approved: bool, value: Option<string>, decidedBy: Option<string>)
    | TimeoutError(code: Option<string>)
    | Cancelled

  const FAIL := "fail:"

  /** The policy when nobody decided: fail with a code, let through, or refuse. */
  function ApplyTimeout(onTimeout: string): Outcome {
    if FAIL <= onTimeout then
      var code := onTimeout[|FAIL|..];
      TimeoutError(if code == "" then None else Some(code))
    else Answer(onTimeout == "approve", None, Some("timeout"))
  }

  /** After the wait: a cancelled run throws whatever was decided; nothing decided is the policy's case. */
  function Concluded(answer: Option<Decision>, aborted: bool, onTimeout: string): Outcome {
    if aborted then Cancelled
    else if answer.None? then ApplyTimeout(onTimeout)
    else Answer(answer.value.approved, answer.value.value, answer.value.decidedBy)
  }
}
