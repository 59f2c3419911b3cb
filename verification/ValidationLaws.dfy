/**
 * What the validator accepts, as a condition on the steps at every depth, and which fault it reports of those it
 * refuses.
 */
module ValidationLaws {
  import opened Common
  import opened Blueprint

  /** The step, under the act around it, may run here; and so may every step nested in it. */
  ghost predicate Runnable(step: Step, inherited: string, check: ParamCheck)
    decreases step, 0
  {
    var act := if step.act.Some? then step.act.value else inherited;
    && (act == inherited || act == "vector" || act == "continuum")
    && step.action in Capabilities(act)
    && check(step)
    && (step.action == "optional" ==> step.steps.ListOf?)
    && (step.action == "if" ==> FieldRunnable(step.thenSteps, act, check) && FieldRunnable(step.elseSteps, act, check))
    && (step.action in {"repeat", "for_each", "optional"} ==> FieldRunnable(step.steps, act, check))
  }

  /** A list of runnable steps; a field left out, or null, nests nothing. */
  ghost predicate FieldRunnable(field: Field, act: string, check: ParamCheck)
    decreases field, 1
  {
    match field
    case Absent => true
    case NotAList(isNull) => isNull
    case ListOf(list) => forall i :: 0 <= i < |list| ==> Runnable(list[i], act, check)
    case BadList(_, _, _) => false
  }

  lemma {:induction false} StepAccepted(step: Step, inherited: string, check: ParamCheck)
    ensures ValidateStep(step, inherited, check).None? <==> Runnable(step, inherited, check)
    decreases step, 1
  {
    hide Capabilities, WrongAction, ValidateField, FieldRunnable;
    var act := EffectiveAct(step, inherited);
    FieldAccepted(step.thenSteps, act, check);
    FieldAccepted(step.elseSteps, act, check);
    FieldAccepted(step.steps, act, check);
    NoListNoSteps(step.steps, act, check);
  }

  lemma NoListNoSteps(field: Field, act: string, check: ParamCheck)
    ensures field.BadList? ==> !FieldRunnable(field, act, check)
  {
  }

  lemma {:induction false} FieldAccepted(field: Field, act: string, check: ParamCheck)
    ensures ValidateField(field, act, check).None? <==> FieldRunnable(field, act, check)
    decreases field, 2
  {
    hide ValidateStep, ValidateAll, Runnable;
    match field
    case ListOf(list) => AllAccepted(list, act, check);
    case _ =>
  }

  lemma {:induction false} AllAccepted(steps: seq<Step>, act: string, check: ParamCheck)
    ensures ValidateAll(steps, act, check).None? <==> forall i :: 0 <= i < |steps| ==> Runnable(steps[i], act, check)
    decreases steps, 3
  {
    hide ValidateStep, Runnable;
    if steps != [] {
      var rest := steps[1..];
      StepAccepted(steps[0], act, check);
      AllAccepted(rest, act, check);
      assert forall i :: 0 <= i < |rest| ==> rest[i] == steps[i + 1];
      if forall i :: 0 <= i < |rest| ==> Runnable(rest[i], act, check) {
        forall i | 1 <= i < |steps| ensures Runnable(steps[i], act, check) {
          assert steps[i] == rest[i - 1];
        }
      }
    }
  }

  /** A Blueprint is accepted exactly when its act is embedded, it has steps, and every step at any depth may run. */
  lemma AcceptedExactly(act: string, steps: seq<Step>, check: ParamCheck)
    ensures Validate(act, steps, check).None? <==>
      && (act == "vector" || act == "continuum") && steps != []
      && forall i :: 0 <= i < |steps| ==> Runnable(steps[i], act, check)
  {
    hide Runnable, ValidateStep;
    AllAccepted(steps, act, check);
  }

  // What is reported.

  /** Of several steps, the fault is the one of the first that may not run. */
  lemma {:induction false} FirstFaultIsReported(steps: seq<Step>, act: string, check: ParamCheck) returns (k: nat)
    requires ValidateAll(steps, act, check).Some?
    ensures k < |steps| && ValidateAll(steps, act, check) == ValidateStep(steps[k], act, check)
    ensures !Runnable(steps[k], act, check) && forall i :: 0 <= i < k ==> Runnable(steps[i], act, check)
  {
    hide ValidateStep, Runnable;
    StepAccepted(steps[0], act, check);
    if ValidateStep(steps[0], act, check).Some? {
      k := 0;
    } else {
      var later := FirstFaultIsReported(steps[1..], act, check);
      k := later + 1;
      forall i | 0 <= i < k ensures Runnable(steps[i], act, check) {
        if i > 0 {
          assert steps[i] == steps[1..][i - 1];
        }
      }
    }
  }

  predicate KnownTo(action: string, act: string) {
    action in ContractCapabilities(act)
  }

  /**
   * Why a step's action is refused: the act does grant it, but not on a device; no act has it; another act of a device
   * has it, and is named; or only acts that run elsewhere do.
   */
  lemma ReasonsAreRight(step: Step, inherited: string, check: ParamCheck)
    requires var act := EffectiveAct(step, inherited); IsEmbedded(act) && step.action !in Capabilities(act)
    ensures
      var act := EffectiveAct(step, inherited);
      var action := step.action;
      var reason := ValidateStep(step, inherited, check);
      if KnownTo(action, act) then reason == Some(NotPortable(action, act))
      else if !KnownTo(action, "vector") && !KnownTo(action, "continuum") && !KnownTo(action, "oracle") then
        reason == Some(UnknownAction(action))
      else if KnownTo(action, "vector") then reason == Some(NeedsAct(action, act, "vector"))
      else if KnownTo(action, "continuum") then reason == Some(NeedsAct(action, act, "continuum"))
      else reason == Some(StaysElsewhere(action, "oracle"))
  {
    hide ValidateField;
  }

  /** The engine grants no action its act does not have, and a larger act has all the smaller one has. */
  lemma GrantsAreWithinTheContract(action: string)
    ensures forall act :: action in Capabilities(act) ==> IsEmbedded(act) && KnownTo(action, act)
    ensures action in Capabilities("vector") ==> action in Capabilities("continuum")
    ensures KnownTo(action, "vector") ==> KnownTo(action, "continuum")
    ensures KnownTo(action, "continuum") ==> KnownTo(action, "oracle") && KnownTo(action, "phantom")
  {
  }

  // The shared contract, as it lists the actions of each act, and what a device cannot do of them.

  const IN_VECTOR := {
    "assert", "confirm", "emit", "extract", "for_each", "http.request", "if", "notify", "optional", "repeat",
    "set", "wait"
  }

  const IN_CONTINUUM := {
    "assert", "back", "click", "confirm", "drag", "emit", "evaluate", "extract", "fill", "for_each", "forward", "hover",
    "http.request", "if", "navigate", "notify", "optional", "press", "reload", "repeat", "screenshot", "scroll",
    "select", "set", "type", "upload", "wait", "wait_for"
  }

  const NOT_PORTABLE := {"upload", "drag", "screenshot", "notify"}

  lemma ContractLists()
    ensures ContractCapabilities("vector") == IN_VECTOR == VECTOR + {"notify"}
    ensures ContractCapabilities("continuum") == IN_CONTINUUM == CONTINUUM + NOT_PORTABLE
    ensures ContractCapabilities("oracle") == ContractCapabilities("phantom") == IN_CONTINUUM + {"read"}
  {
  }

  lemma NoneStaysBehind(action: string)
    requires action in VECTOR || action in CONTINUUM
    ensures action in CONTINUUM && action !in NOT_PORTABLE
  {
  }

  /** The acts have the actions the contract lists, and the engine grants all of them that are portable. */
  lemma GrantsAreThePortable()
    ensures ContractCapabilities("vector") == IN_VECTOR && ContractCapabilities("continuum") == IN_CONTINUUM
    ensures ContractCapabilities("oracle") == ContractCapabilities("phantom") == IN_CONTINUUM + {"read"}
    ensures Capabilities("vector") == IN_VECTOR - NOT_PORTABLE
    ensures Capabilities("continuum") == IN_CONTINUUM - NOT_PORTABLE
  {
    assert "notify" in NOT_PORTABLE;
    hide VECTOR, CONTINUUM, IN_VECTOR, IN_CONTINUUM, NOT_PORTABLE, ContractCapabilities;
    ContractLists();
    forall action | action in VECTOR || action in CONTINUUM ensures action !in NOT_PORTABLE {
      NoneStaysBehind(action);
    }
  }
}
