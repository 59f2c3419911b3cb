/** Blueprint steps as the loader hands them over, and the static walk that accepts or rejects them. */
module Blueprint {
  import opened Common
  import opened Tables
  import opened ExprValues

  /** `params` carries what a leaf action reads; the flow fields are spelled out. */
  datatype Step = Step(
    id: Option<string>,
    action: string,
    act: Option<string>,
    guard: Option<Value>,
    condition: Option<Value>,
    times: Option<Value>,
    items: Option<Value>,
    loopVar: Option<Value>,
    thenSteps: Field,
    elseSteps: Field,
    steps: Field,
    params: Table<Value>)

  /**
   * What a nested-list field holds: `BadList` is a list whose first entry that is not an object
   * with an action stands after `before`.
   */
  datatype Field =
    | Absent
    | NotAList(isNull: bool)
    | ListOf(list: seq<Step>)
    | BadList(before: seq<Step>, first: Misfit, after: seq<Entry>)

  /** An entry that is no step; an object may still carry an id. */
  datatype Misfit = Misfit(id: Option<string>)

  datatype Entry = Stray(misfit: Misfit) | Nested(step: Step)

  predicate IsFlow(action: string) {
    action in {"if", "repeat", "for_each", "optional"}
  }

  /** The fields of `step` that hold nested steps, by action. */
  function NestedFields(step: Step): (fields: seq<Field>)
    ensures forall f :: f in fields ==> f < step
  {
    if step.action == "if" then [step.thenSteps, step.elseSteps]
    else if IsFlow(step.action) then [step.steps]
    else []
  }

  // Capabilities: what the engine runs on a device, and what the shared contract grants.

  const VECTOR := {
    "http.request", "extract", "set", "assert", "emit", "wait", "if", "repeat", "for_each", "optional", "confirm"
  }

  const CONTINUUM := VECTOR + {
    "navigate", "back", "forward", "reload", "click", "fill", "type", "press", "select", "hover", "scroll",
    "evaluate", "wait_for"
  }

  const CONTRACT_VECTOR := VECTOR + {"notify"}
  const CONTRACT_CONTINUUM := CONTINUUM + {"notify", "drag", "screenshot", "upload"}
  const CONTRACT_BEYOND := CONTRACT_CONTINUUM + {"read"}

  predicate IsEmbedded(act: string) {
    act == "vector" || act == "continuum"
  }

  function Capabilities(act: string): set<string> {
    if act == "vector" then VECTOR else if act == "continuum" then CONTINUUM else {}
  }

  function ContractCapabilities(act: string): set<string> {
    if act == "vector" then CONTRACT_VECTOR
    else if act == "continuum" then CONTRACT_CONTINUUM
    else if act == "oracle" || act == "phantom" then CONTRACT_BEYOND
    else {}
  }

  /** The first act, in escalation order, that has the action at all. */
  function IntroducingAct(action: string): Option<string> {
    if action in CONTRACT_VECTOR then Some("vector")
    else if action in CONTRACT_CONTINUUM then Some("continuum")
    else if action in CONTRACT_BEYOND then Some("oracle")
    else None
  }

  datatype Rejection =
    | NoSteps
    | ActNotEmbedded(act: string)
    | NotPortable(action: string, act: string)
    | UnknownAction(action: string)
    | StaysElsewhere(action: string, origin: string)
    | NeedsAct(action: string, act: string, origin: string)
    | BadParams
    | OptionalWithoutSteps
    | NotAListOfSteps
    | Crashed

  /** Checks of one step's own parameters (extraction dialects, portability), as a predicate on it. */
  type ParamCheck = Step -> bool

  function Validate(act: string, steps: seq<Step>, check: ParamCheck): Option<Rejection> {
    if !IsEmbedded(act) then Some(ActNotEmbedded(act))
    else if steps == [] then Some(NoSteps)
    else ValidateAll(steps, act, check)
  }

  function EffectiveAct(step: Step, inherited: string): string {
    if step.act.Some? then step.act.value else inherited
  }

  function ValidateStep(step: Step, inherited: string, check: ParamCheck): Option<Rejection>
    decreases step, 1
  {
    var act := EffectiveAct(step, inherited);
    if act != inherited && !IsEmbedded(act) then Some(ActNotEmbedded(act))
    else if step.action !in Capabilities(act) then Some(WrongAction(step.action, act))
    else if !check(step) then Some(BadParams)
    else if step.action == "optional" && !step.steps.ListOf? && !step.steps.BadList? then Some(OptionalWithoutSteps)
    else if step.action == "if" then
      var first := ValidateField(step.thenSteps, act, check);
      if first.Some? then first else ValidateField(step.elseSteps, act, check)
    else if IsFlow(step.action) then ValidateField(step.steps, act, check)
    else None
  }

  function WrongAction(action: string, act: string): Rejection {
    if action in ContractCapabilities(act) then NotPortable(action, act)
    else
      match IntroducingAct(action)
      case None => UnknownAction(action)
      case Some(origin) => if IsEmbedded(origin) then NeedsAct(action, act, origin) else StaysElsewhere(action, origin)
  }

  /** A missing or null field is no field; an entry without an action is an unknown action, or no object at all. */
  function ValidateField(field: Field, act: string, check: ParamCheck): Option<Rejection>
    decreases field, 2
  {
    match field
    case Absent => None
    case NotAList(isNull) => if isNull then None else Some(NotAListOfSteps)
    case ListOf(list) => ValidateAll(list, act, check)
    case BadList(before, first, _) =>
      var early := ValidateAll(before, act, check);
      if early.Some? then early else Some(Crashed)
  }

  function ValidateAll(steps: seq<Step>, act: string, check: ParamCheck): Option<Rejection>
    decreases steps, 3
  {
    if steps == [] then None
    else
      var first := ValidateStep(steps[0], act, check);
      if first.Some? then first else ValidateAll(steps[1..], act, check)
  }

  // Identified steps, at any depth of the nested lists their actions own.

  function OwnId(id: Option<string>): set<string> {
    if id.Some? && id.value != "" then {id.value} else {}
  }

  function Ids(step: Step): set<string>
    decreases step, 1
  {
    OwnId(step.id) +
    if step.action == "if" then FieldIds(step.thenSteps) + FieldIds(step.elseSteps)
    else if IsFlow(step.action) then FieldIds(step.steps)
    else {}
  }

  function FieldIds(field: Field): set<string>
    decreases field, 2
  {
    match field
    case ListOf(list) => AllIds(list)
    case BadList(before, first, after) => AllIds(before) + OwnId(first.id) + EntryIds(after)
    case _ => {}
  }

  function AllIds(steps: seq<Step>): set<string>
    decreases steps, 3
  {
    if steps == [] then {} else Ids(steps[0]) + AllIds(steps[1..])
  }

  function EntryIds(entries: seq<Entry>): set<string>
    decreases entries, 3
  {
    if entries == [] then {} else OneEntryIds(entries[0]) + EntryIds(entries[1..])
  }

  function OneEntryIds(entry: Entry): set<string>
    decreases entry, 2
  {
    match entry
    case Stray(misfit) => OwnId(misfit.id)
    case Nested(step) => Ids(step)
  }
}
