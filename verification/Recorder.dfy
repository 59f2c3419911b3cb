/** From captured events to a Blueprint: steps, secrets, inputs and outputs, event by event. */
module Recorder {
  import opened Common
  import opened Tables
  import opened Names
  import ExprEval
  import Numerals

  /** The selector chosen for an element, and how it was found. */
  datatype Choice = Choice(selector: string, selectorType: string, strategy: string)

  datatype Descriptor = Descriptor(name: Option<string>, fieldType: string, autocomplete: string, choice: Choice)

  datatype FieldConfig = FieldConfig(name: Option<string>, selector: string, reading: string, attr: string)

  /** What an overlay pick says; an empty string stands for an absent or empty entry. */
  datatype Config = Config(name: Option<string>, reading: Option<string>, group: string, item: string, attr: string,
                           each: string, fields: seq<FieldConfig>)

  datatype RecordedEvent = RecordedEvent(kind: string, descriptor: Option<Descriptor>, value: string, key: string,
                                         url: string, redacted: bool, config: Config)

  datatype FieldSpec = FieldSpec(selector: string, reading: string, attr: Option<string>)

  datatype Spec =
    | Single(selector: string, selectorType: Option<string>, reading: string, item: Option<string>, attr: Option<string>)
    | Records(each: string, fields: Table<FieldSpec>)

  datatype InputSpec = InputSpec(kind: string, format: Option<string>)

  /** What a fill step types: text, or a placeholder naming a secret or an input. */
  datatype Filling = Literal(text: string) | Secret(name: string) | Input(name: string)

  datatype Step =
    | Navigate(url: string)
    | WaitFor(selector: string, selectorType: Option<string>)
    | Click(selector: string, selectorType: Option<string>)
    | Press(key: string, selector: string, selectorType: Option<string>)
    | Select(selector: string, selectorType: Option<string>, choice: string)
    | Fill(selector: string, selectorType: Option<string>, value: Filling)
    | Extract(number: nat, fields: Table<Spec>)

  /** Where an output is read: the field of one numbered extract step. */
  datatype Source = Source(number: nat, field: string)

  datatype Notes = Notes(
    steps: seq<Step>, secrets: seq<string>, inputs: Table<InputSpec>, outputs: Table<Source>,
    secretBySelector: map<string, string>, open: bool, extracts: nat, outputNames: set<string>, previous: string)

  const BLANK := Notes([], [], [], [], map[], false, 0, {}, "")

  /** The id written in the Blueprint for the extract step of that number. */
  function ExtractId(number: nat): string {
    if number == 1 then "data" else "data_" + Numerals.Decimal(number)
  }

  lemma ExtractIdsDiffer(i: nat, j: nat)
    requires i != j
    ensures ExtractId(i) != ExtractId(j)
  {
    if i != 1 && j != 1 && ExtractId(i) == ExtractId(j) {
      assert ExtractId(i)[|"data_"|..] == Numerals.Decimal(i);
      assert ExtractId(j)[|"data_"|..] == Numerals.Decimal(j);
      Numerals.DecimalInjective(i, j);
    }
  }

  // Reading one event.

  function ChoiceOf(descriptor: Option<Descriptor>): Choice {
    if descriptor.Some? then descriptor.value.choice else Choice("", "css", "")
  }

  function TypeField(choice: Choice): Option<string> {
    if choice.selectorType == "css" then None else Some(choice.selectorType)
  }

  const TOKENS := ["username", "user", "login", "email", "mail", "pass", "identifiant", "pseudo"]

  predicate IsCredential(descriptor: Option<Descriptor>, lower: Lowering) {
    && descriptor.Some?
    && var d := descriptor.value;
      || d.fieldType == "password"
      || lower(d.autocomplete) in {"username", "email", "current-password", "new-password"}
      || exists k :: 0 <= k < |TOKENS| &&
           ExprEval.Includes(lower((if d.name.Some? then d.name.value else "") + " " + d.autocomplete), TOKENS[k])
  }

  /** A filled value that must not be written down. */
  predicate Concealed(event: RecordedEvent, credentials: bool, lower: Lowering) {
    event.redacted || (credentials && IsCredential(event.descriptor, lower))
  }

  function InputSpecOf(descriptor: Option<Descriptor>): InputSpec {
    var t := if descriptor.Some? then descriptor.value.fieldType else "";
    if t == "number" || t == "range" then InputSpec("number", None)
    else if t == "date" then InputSpec("string", Some("date"))
    else if t == "datetime-local" then InputSpec("string", Some("date-time"))
    else if t == "time" then InputSpec("string", Some("time"))
    else if t == "email" then InputSpec("string", Some("email"))
    else if t == "url" then InputSpec("string", Some("uri"))
    else InputSpec("string", None)
  }

  function RecordFields(raw: seq<FieldConfig>, fields: Table<FieldSpec>, taken: set<string>, lower: Lowering)
    : Table<FieldSpec>
    decreases |raw|
  {
    if raw == [] then fields
    else
      var name := UniqueName(Ident(raw[0].name, "field", lower), taken);
      var spec := FieldSpec(raw[0].selector, raw[0].reading,
        if raw[0].reading == "attr" && raw[0].attr != "" then Some(raw[0].attr) else None);
      RecordFields(raw[1..], Put(fields, name, spec), taken + {name}, lower)
  }

  function SpecOf(event: RecordedEvent, lower: Lowering): Spec {
    var config := event.config;
    var choice := ChoiceOf(event.descriptor);
    if event.kind == "extract_records" then
      Records(if config.each != "" then config.each else choice.selector, RecordFields(config.fields, [], {}, lower))
    else
      var reading := if config.reading.Some? then config.reading.value else "text";
      var grouped := (reading == "list" || reading == "count") && config.group != "";
      var item := if config.item == "" then "text" else config.item;
      var attr := if config.attr != "" && (if reading == "list" then item == "attr" else reading == "attr")
                  then Some(config.attr) else None;
      Single(if grouped then config.group else choice.selector, if grouped then None else TypeField(choice), reading,
        if reading == "list" && item != "text" then Some(item) else None, attr)
  }

  // Writing it down.

  function Append(n: Notes, step: Step): Notes {
    n.(steps := n.steps + [step])
  }

  function AddNavigate(n: Notes, event: RecordedEvent): Notes {
    if n.previous != "click" && n.previous != "press" && event.url != "" then Append(n, Navigate(event.url)) else n
  }

  function AddWaitFor(n: Notes, event: RecordedEvent): Notes {
    var choice := ChoiceOf(event.descriptor);
    if choice.strategy == "css_path" && event.config.group != "" then Append(n, WaitFor(event.config.group, None))
    else Append(n, WaitFor(choice.selector, TypeField(choice)))
  }

  /** The secret of a field: named once, then the same for every edit of that selector. */
  function SecretFor(n: Notes, event: RecordedEvent, lower: Lowering): (Notes, string) {
    var selector := ChoiceOf(event.descriptor).selector;
    if selector in n.secretBySelector then (n, n.secretBySelector[selector])
    else
      var raw := if event.descriptor.Some? then event.descriptor.value.name else None;
      var name := UniqueName(Ident(raw, "secret", lower), set s | s in n.secrets);
      (n.(secretBySelector := n.secretBySelector[selector := name], secrets := n.secrets + [name]), name)
  }

  /** Successive edits of one field are one step. */
  function PutFill(n: Notes, step: Step): Notes
    requires step.Fill?
  {
    if n.steps != [] && n.steps[|n.steps| - 1].Fill? && n.steps[|n.steps| - 1].selector == step.selector
    then n.(steps := n.steps[|n.steps| - 1 := step])
    else Append(n, step)
  }

  function AddFill(n: Notes, event: RecordedEvent, credentials: bool, lower: Lowering): Notes {
    var choice := ChoiceOf(event.descriptor);
    if Concealed(event, credentials, lower) then
      var (noted, name) := SecretFor(n, event, lower);
      PutFill(noted, Fill(choice.selector, TypeField(choice), Secret(name)))
    else PutFill(n, Fill(choice.selector, TypeField(choice), Literal(event.value)))
  }

  function AddElement(n: Notes, event: RecordedEvent, credentials: bool, lower: Lowering): Notes {
    var choice := ChoiceOf(event.descriptor);
    if event.kind == "click" then
      Append(n, if event.url != "" then Navigate(event.url) else Click(choice.selector, TypeField(choice)))
    else if event.kind == "press" then
      Append(n, Press(if event.key != "" then event.key else "Enter", choice.selector, TypeField(choice)))
    else if event.kind == "select" then Append(n, Select(choice.selector, TypeField(choice), event.value))
    else AddFill(n, event, credentials, lower)
  }

  /** The last fill at that selector among the first `upTo` steps. */
  function LastFill(steps: seq<Step>, selector: string, upTo: nat): (r: Option<nat>)
    requires upTo <= |steps|
    ensures r.Some? ==> r.value < upTo && steps[r.value].Fill? && steps[r.value].selector == selector
  {
    if upTo == 0 then None
    else if steps[upTo - 1].Fill? && steps[upTo - 1].selector == selector then Some(upTo - 1)
    else LastFill(steps, selector, upTo - 1)
  }

  function Keys<T>(t: Table<T>): set<string> {
    set i | 0 <= i < |t| :: t[i].0
  }

  /** The latest fill of that field becomes an input, unless it is a secret. */
  function Parameterize(n: Notes, event: RecordedEvent, lower: Lowering): Notes {
    match LastFill(n.steps, ChoiceOf(event.descriptor).selector, |n.steps|)
    case None => n
    case Some(i) =>
      if n.steps[i].value.Secret? then n
      else
        var name := UniqueName(Ident(event.config.name, "value", lower), Keys(n.inputs));
        n.(steps := n.steps[i := n.steps[i].(value := Input(name))],
           inputs := Put(n.inputs, name, InputSpecOf(event.descriptor)))
  }

  function Opened(n: Notes): (r: Notes)
    ensures r.open
  {
    if n.open then n
    else n.(open := true, extracts := n.extracts + 1, steps := n.steps + [Extract(n.extracts + 1, [])])
  }

  /** Neighbouring picks share one extract step; each one is an output of its own. */
  function AddExtraction(n: Notes, event: RecordedEvent, lower: Lowering): Notes {
    var o := Opened(n);
    var last := |o.steps| - 1;
    if last < 0 || !o.steps[last].Extract? then o
    else
      var name := UniqueName(Ident(event.config.name, "value", lower), o.outputNames);
      o.(steps := o.steps[last := Extract(o.steps[last].number, Put(o.steps[last].fields, name, SpecOf(event, lower)))],
         outputNames := o.outputNames + {name},
         outputs := Put(o.outputs, name, Source(o.extracts, name)))
  }

  /** The open extract step is the last one. */
  predicate OpenIsLast(n: Notes) {
    n.open ==> n.steps != [] && n.steps[|n.steps| - 1].Extract?
  }

  predicate IsExtraction(kind: string) {
    kind == "extract" || kind == "extract_records"
  }

  function Handled(n: Notes, event: RecordedEvent, credentials: bool, lower: Lowering): Notes {
    var after :=
      if IsExtraction(event.kind) then AddExtraction(n, event, lower)
      else
        var closed := n.(open := false);
        if event.kind == "navigate" then AddNavigate(closed, event)
        else if event.kind == "wait_for" then AddWaitFor(closed, event)
        else if event.kind == "parameterize" then Parameterize(closed, event, lower)
        else if event.kind in {"click", "fill", "select", "press"} then AddElement(closed, event, credentials, lower)
        else closed;
    after.(previous := event.kind)
  }

  function NotesOf(events: seq<RecordedEvent>, credentials: bool, lower: Lowering): Notes {
    if events == [] then BLANK
    else Handled(NotesOf(events[..|events| - 1], credentials, lower), events[|events| - 1], credentials, lower)
  }

  // The recording itself, updated in place.

  class Recording {
    const credentials: bool
    const lower: Lowering
    var steps: seq<Step>
    var secrets: seq<string>
    var inputs: Table<InputSpec>
    var outputs: Table<Source>
    var secretBySelector: map<string, string>
    var open: bool
    var extracts: nat
    var outputNames: set<string>
    var previous: string

    constructor (credentials: bool, lower: Lowering)
      ensures this.credentials == credentials && this.lower == lower && Current() == BLANK
    {
      this.credentials, this.lower := credentials, lower;
      steps, secrets, inputs, outputs := [], [], [], [];
      secretBySelector, open, extracts, outputNames, previous := map[], false, 0, {}, "";
    }

    function Current(): Notes
      reads this
    {
      Notes(steps, secrets, inputs, outputs, secretBySelector, open, extracts, outputNames, previous)
    }

    method Handle(event: RecordedEvent)
      requires OpenIsLast(Current())
      modifies this
      ensures Current() == Handled(old(Current()), event, credentials, lower)
    {
      hide AddFill, RecordFields, SpecOf, Parameterize, AddExtraction, Ident, UniqueName;
      if IsExtraction(event.kind) {
        Extraction(event);
      } else {
        open := false;
        var choice := ChoiceOf(event.descriptor);
        if event.kind == "navigate" {
          if previous != "click" && previous != "press" && event.url != "" {
            steps := steps + [Navigate(event.url)];
          }
        } else if event.kind == "wait_for" {
          if choice.strategy == "css_path" && event.config.group != "" {
            steps := steps + [WaitFor(event.config.group, None)];
          } else {
            steps := steps + [WaitFor(choice.selector, TypeField(choice))];
          }
        } else if event.kind == "parameterize" {
          MakeInput(event);
        } else if event.kind == "click" {
          steps := steps + [if event.url != "" then Navigate(event.url) else Click(choice.selector, TypeField(choice))];
        } else if event.kind == "press" {
          steps := steps + [Press(if event.key != "" then event.key else "Enter", choice.selector, TypeField(choice))];
        } else if event.kind == "select" {
          steps := steps + [Select(choice.selector, TypeField(choice), event.value)];
        } else if event.kind == "fill" {
          FillStep(event);
        }
      }
      previous := event.kind;
    }

    method FillStep(event: RecordedEvent)
      modifies this
      ensures Current() == AddFill(old(Current()), event, credentials, lower)
    {
      var choice := ChoiceOf(event.descriptor);
      var value := Literal(event.value);
      if Concealed(event, credentials, lower) {
        var name := NameSecret(event);
        value := Secret(name);
      }
      var step := Fill(choice.selector, TypeField(choice), value);
      if steps != [] && steps[|steps| - 1].Fill? && steps[|steps| - 1].selector == choice.selector {
        steps := steps[|steps| - 1 := step];
      } else {
        steps := steps + [step];
      }
    }

    method NameSecret(event: RecordedEvent) returns (name: string)
      modifies this`secrets, this`secretBySelector
      ensures (Current(), name) == SecretFor(old(Current()), event, lower)
    {
      var selector := ChoiceOf(event.descriptor).selector;
      if selector in secretBySelector {
        return secretBySelector[selector];
      }
      var raw := if event.descriptor.Some? then event.descriptor.value.name else None;
      name := Unique(Ident(raw, "secret", lower), set s | s in secrets);
      secretBySelector := secretBySelector[selector := name];
      secrets := secrets + [name];
    }

    method MakeInput(event: RecordedEvent)
      modifies this`steps, this`inputs
      ensures Current() == Parameterize(old(Current()), event, lower)
    {
      var selector := ChoiceOf(event.descriptor).selector;
      var i := |steps|;
      while i > 0
        invariant 0 <= i <= |steps|
        invariant LastFill(steps, selector, i) == LastFill(steps, selector, |steps|)
        invariant Current() == old(Current())
      {
        i := i - 1;
        if steps[i].Fill? && steps[i].selector == selector {
          if steps[i].value.Secret? {
            return;
          }
          var name := Unique(Ident(event.config.name, "value", lower), Keys(inputs));
          steps := steps[i := steps[i].(value := Input(name))];
          inputs := Put(inputs, name, InputSpecOf(event.descriptor));
          return;
        }
      }
    }

    method Extraction(event: RecordedEvent)
      requires OpenIsLast(Current())
      modifies this
      ensures Current() == AddExtraction(old(Current()), event, lower)
    {
      hide SpecOf, Ident, UniqueName, Put;
      if !open {
        extracts := extracts + 1;
        steps := steps + [Extract(extracts, [])];
        open := true;
      }
      var last := |steps| - 1;
      var name := Unique(Ident(event.config.name, "value", lower), outputNames);
      outputNames := outputNames + {name};
      steps := steps[last := Extract(steps[last].number, Put(steps[last].fields, name, SpecOf(event, lower)))];
      outputs := Put(outputs, name, Source(extracts, name));
    }
  }

  method EventsToSteps(events: seq<RecordedEvent>, credentials: bool, lower: Lowering)
    returns (steps: seq<Step>, secrets: seq<string>, inputs: Table<InputSpec>, outputs: Table<Source>)
    ensures var n := NotesOf(events, credentials, lower);
      steps == n.steps && secrets == n.secrets && inputs == n.inputs && outputs == n.outputs
  {
    hide Coherent, Handled;
    var recording := new Recording(credentials, lower);
    for i := 0 to |events|
      invariant recording.credentials == credentials && recording.lower == lower
      invariant recording.Current() == NotesOf(events[..i], credentials, lower)
    {
      EveryRecordingIsCoherent(events[..i], credentials, lower);
      CoherentOpensLast(recording.Current());
      recording.Handle(events[i]);
      assert events[..i + 1][..i] == events[..i];
    }
    assert events[..|events|] == events;
    return recording.steps, recording.secrets, recording.inputs, recording.outputs;
  }

  // What every recording keeps.

  ghost predicate Distinctive(names: seq<string>) {
    forall i, j :: 0 <= i < j < |names| ==> names[i] != names[j]
  }

  /** Placeholders name what is declared. */
  predicate Declared(n: Notes, step: Step) {
    step.Fill? ==>
      && (step.value.Secret? ==> step.value.name in n.secrets)
      && (step.value.Input? ==> Find(n.inputs, step.value.name).Some?)
  }

  /** Each field of an extract step is the output of that name, read from that step. */
  ghost predicate Published(n: Notes, step: Step) {
    step.Extract? ==>
      && 1 <= step.number <= n.extracts
      && Distinct(step.fields)
      && forall name :: Find(step.fields, name).Some? ==> Find(n.outputs, name) == Some(Source(step.number, name))
  }

  /** Each output is read from an extract step that has the field. */
  ghost predicate Supplied(n: Notes, name: string) {
    Find(n.outputs, name).Some? ==>
      && Find(n.outputs, name).value.field == name
      && exists i :: 0 <= i < |n.steps| && n.steps[i].Extract?
           && n.steps[i].number == Find(n.outputs, name).value.number && Find(n.steps[i].fields, name).Some?
  }

  ghost predicate NumbersDiffer(steps: seq<Step>) {
    forall i, j :: 0 <= i < j < |steps| && steps[i].Extract? && steps[j].Extract? ==> steps[i].number != steps[j].number
  }

  ghost predicate Coherent(n: Notes) {
    && Distinctive(n.secrets)
    && (forall s :: s in n.secretBySelector ==> n.secretBySelector[s] in n.secrets)
    && Distinct(n.inputs) && Distinct(n.outputs)
    && (forall name :: Find(n.outputs, name).Some? <==> name in n.outputNames)
    && NumbersDiffer(n.steps)
    && (forall i :: 0 <= i < |n.steps| ==> Declared(n, n.steps[i]) && Published(n, n.steps[i]))
    && (forall name :: Supplied(n, name))
    && (n.open ==> n.steps != [] && n.steps[|n.steps| - 1].Extract? && n.steps[|n.steps| - 1].number == n.extracts)
  }

  lemma CoherentOpensLast(n: Notes)
    requires Coherent(n)
    ensures OpenIsLast(n)
  {
    hide Distinct, Find, Distinctive, NumbersDiffer, Declared, Published, Supplied;
  }

  lemma BlankIsCoherent()
    ensures Coherent(BLANK)
  {
  }

  lemma {:induction false} EveryRecordingIsCoherent(events: seq<RecordedEvent>, credentials: bool, lower: Lowering)
    ensures Coherent(NotesOf(events, credentials, lower))
  {
    hide Coherent, Handled;
    if events == [] {
      BlankIsCoherent();
    } else {
      EveryRecordingIsCoherent(events[..|events| - 1], credentials, lower);
      HandledIsCoherent(NotesOf(events[..|events| - 1], credentials, lower), events[|events| - 1], credentials, lower);
    }
  }

  /** A step other than an extract may be added, or take the place of another such step. */
  lemma StepAdded(n: Notes, step: Step)
    requires Coherent(n) && !n.open && !step.Extract? && Declared(n, step)
    ensures Coherent(Append(n, step))
  {
    hide Distinct, Find, Distinctive;
    var after := Append(n, step);
    forall name ensures Supplied(after, name) {
      assert Supplied(n, name);
      if Find(n.outputs, name).Some? {
        var i :| 0 <= i < |n.steps| && n.steps[i].Extract?
          && n.steps[i].number == Find(n.outputs, name).value.number && Find(n.steps[i].fields, name).Some?;
        assert after.steps[i] == n.steps[i];
      }
    }
  }

  lemma StepReplaced(n: Notes, at: nat, step: Step)
    requires Coherent(n) && !n.open && at < |n.steps| && !n.steps[at].Extract?
    requires !step.Extract? && Declared(n, step)
    ensures Coherent(n.(steps := n.steps[at := step]))
  {
    hide Distinct, Find, Distinctive;
    var after := n.(steps := n.steps[at := step]);
    forall name ensures Supplied(after, name) {
      assert Supplied(n, name);
      if Find(n.outputs, name).Some? {
        var i :| 0 <= i < |n.steps| && n.steps[i].Extract?
          && n.steps[i].number == Find(n.outputs, name).value.number && Find(n.steps[i].fields, name).Some?;
        assert after.steps[i] == n.steps[i];
      }
    }
  }

  lemma SecretNamed(n: Notes, event: RecordedEvent, lower: Lowering)
    requires Coherent(n)
    ensures var (after, name) := SecretFor(n, event, lower);
      Coherent(after) && name in after.secrets && after.open == n.open && after.steps == n.steps
  {
    hide Distinct, Find, Ident, NumbersDiffer, Published;
    var (after, name) := SecretFor(n, event, lower);
    if ChoiceOf(event.descriptor).selector !in n.secretBySelector {
      assert name !in n.secrets;
      forall i | 0 <= i < |n.steps| ensures Declared(after, n.steps[i]) && Published(after, n.steps[i]) {
        assert Declared(n, n.steps[i]) && Published(n, n.steps[i]);
        PublishedStays(n, after, n.steps[i]);
      }
      forall key ensures Supplied(after, key) {
        assert Supplied(n, key);
      }
    }
  }

  lemma PublishedStays(n: Notes, after: Notes, step: Step)
    requires Published(n, step) && after.outputs == n.outputs && after.extracts >= n.extracts
    ensures Published(after, step)
  {
    hide Distinct, Find;
  }

  lemma FillNoted(n: Notes, event: RecordedEvent, credentials: bool, lower: Lowering)
    requires Coherent(n) && !n.open
    ensures Coherent(AddFill(n, event, credentials, lower))
  {
    hide Coherent, SecretFor, Concealed;
    var choice := ChoiceOf(event.descriptor);
    if Concealed(event, credentials, lower) {
      var (noted, name) := SecretFor(n, event, lower);
      SecretNamed(n, event, lower);
      FillPlaced(noted, Fill(choice.selector, TypeField(choice), Secret(name)));
    } else {
      FillPlaced(n, Fill(choice.selector, TypeField(choice), Literal(event.value)));
    }
  }

  lemma FillPlaced(n: Notes, step: Step)
    requires Coherent(n) && !n.open && step.Fill? && Declared(n, step)
    ensures Coherent(PutFill(n, step))
  {
    hide Coherent;
    if n.steps != [] && n.steps[|n.steps| - 1].Fill? && n.steps[|n.steps| - 1].selector == step.selector {
      StepReplaced(n, |n.steps| - 1, step);
    } else {
      StepAdded(n, step);
    }
  }

  lemma InputNamed(n: Notes, name: string, spec: InputSpec)
    requires Coherent(n) && Find(n.inputs, name).None?
    ensures Coherent(n.(inputs := Put(n.inputs, name, spec)))
    ensures Find(Put(n.inputs, name, spec), name).Some?
  {
    hide Distinct, Find, Distinctive, NumbersDiffer, Published;
    var after := n.(inputs := Put(n.inputs, name, spec));
    DistinctPut(n.inputs, name, spec);
    FindPut(n.inputs, name, spec, name);
    forall i | 0 <= i < |n.steps| ensures Declared(after, n.steps[i]) && Published(after, n.steps[i]) {
      assert Declared(n, n.steps[i]) && Published(n, n.steps[i]);
      PublishedStays(n, after, n.steps[i]);
      if n.steps[i].Fill? && n.steps[i].value.Input? {
        FindPut(n.inputs, name, spec, n.steps[i].value.name);
      }
    }
    forall key ensures Supplied(after, key) {
      assert Supplied(n, key);
    }
  }

  lemma NotAKey<T>(t: Table<T>, key: string)
    requires key !in Keys(t)
    ensures Find(t, key).None?
  {
    forall i | 0 <= i < |t| ensures t[i].0 != key {
      assert t[i].0 in Keys(t);
    }
  }

  lemma Parameterized(n: Notes, event: RecordedEvent, lower: Lowering)
    requires Coherent(n) && !n.open
    ensures Coherent(Parameterize(n, event, lower))
  {
    hide Coherent, Ident, Find, InputSpecOf;
    var found := LastFill(n.steps, ChoiceOf(event.descriptor).selector, |n.steps|);
    if found.Some? && !n.steps[found.value].value.Secret? {
      var i := found.value;
      var name := UniqueName(Ident(event.config.name, "value", lower), Keys(n.inputs));
      var spec := InputSpecOf(event.descriptor);
      NotAKey(n.inputs, name);
      InputNamed(n, name, spec);
      StepReplaced(n.(inputs := Put(n.inputs, name, spec)), i, n.steps[i].(value := Input(name)));
    }
  }

  lemma OpenedIsCoherent(n: Notes)
    requires Coherent(n)
    ensures Coherent(Opened(n))
  {
    hide Distinctive;
    if !n.open {
      var after := Opened(n);
      forall i | 0 <= i < |after.steps| ensures Declared(after, after.steps[i]) && Published(after, after.steps[i]) {
        if i < |n.steps| {
          assert after.steps[i] == n.steps[i];
          PublishedStays(n, after, n.steps[i]);
        }
      }
      forall name ensures Supplied(after, name) {
        assert Supplied(n, name);
        if Find(n.outputs, name).Some? {
          var i :| 0 <= i < |n.steps| && n.steps[i].Extract?
            && n.steps[i].number == Find(n.outputs, name).value.number && Find(n.steps[i].fields, name).Some?;
          assert after.steps[i] == n.steps[i];
        }
      }
    }
  }

  /** A fresh field on the open extract step, and its output. */
  function Picked(o: Notes, name: string, spec: Spec): Notes
    requires o.steps != [] && o.steps[|o.steps| - 1].Extract?
  {
    var last := |o.steps| - 1;
    o.(steps := o.steps[last := Extract(o.steps[last].number, Put(o.steps[last].fields, name, spec))],
       outputNames := o.outputNames + {name},
       outputs := Put(o.outputs, name, Source(o.extracts, name)))
  }

  lemma PickedPublished(o: Notes, name: string, spec: Spec, step: Step)
    requires Find(o.outputs, name).None? && Published(o, step)
    ensures Published(o.(outputs := Put(o.outputs, name, Source(o.extracts, name))), step)
  {
    hide Distinct, Find;
    if step.Extract? {
      forall key | Find(step.fields, key).Some?
        ensures Find(Put(o.outputs, name, Source(o.extracts, name)), key) == Some(Source(step.number, key))
      {
        FindPut(o.outputs, name, Source(o.extracts, name), key);
      }
    }
  }

  lemma PickedLast(o: Notes, name: string, spec: Spec)
    requires Coherent(o) && o.open && name !in o.outputNames
    ensures Published(Picked(o, name, spec), Picked(o, name, spec).steps[|o.steps| - 1])
  {
    hide Distinct, Find, Distinctive, NumbersDiffer, Declared, Supplied;
    var last := o.steps[|o.steps| - 1];
    var source := Source(o.extracts, name);
    assert Published(o, last) && Find(o.outputs, name).None?;
    assert Find(last.fields, name).None?;
    DistinctPut(last.fields, name, spec);
    forall key | Find(Put(last.fields, name, spec), key).Some?
      ensures Find(Put(o.outputs, name, source), key) == Some(Source(last.number, key))
    {
      FindPut(last.fields, name, spec, key);
      FindPut(o.outputs, name, source, key);
    }
  }

  lemma PickedSupplied(o: Notes, name: string, spec: Spec, key: string)
    requires Coherent(o) && o.open && name !in o.outputNames
    ensures Supplied(Picked(o, name, spec), key)
  {
    hide Distinct, Find, Distinctive, NumbersDiffer, Declared, Published;
    var after := Picked(o, name, spec);
    var last := |o.steps| - 1;
    FindPut(o.outputs, name, Source(o.extracts, name), key);
    FindPut(o.steps[last].fields, name, spec, key);
    if key == name {
      assert after.steps[last].Extract? && Find(after.steps[last].fields, name).Some?;
    } else if Find(o.outputs, key).Some? {
      assert Supplied(o, key);
      var i :| 0 <= i < |o.steps| && o.steps[i].Extract?
        && o.steps[i].number == Find(o.outputs, key).value.number && Find(o.steps[i].fields, key).Some?;
      assert after.steps[i].Extract? && Find(after.steps[i].fields, key).Some?;
    }
  }

  lemma PickedIsCoherent(o: Notes, name: string, spec: Spec)
    requires Coherent(o) && o.open && name !in o.outputNames
    ensures Coherent(Picked(o, name, spec))
  {
    hide Distinct, Find, Distinctive, Published, Supplied;
    var after := Picked(o, name, spec);
    var last := |o.steps| - 1;
    var source := Source(o.extracts, name);
    assert Find(o.outputs, name).None?;
    DistinctPut(o.outputs, name, source);
    forall key ensures Find(after.outputs, key).Some? <==> key in after.outputNames {
      FindPut(o.outputs, name, source, key);
    }
    PickedLast(o, name, spec);
    forall i | 0 <= i < |after.steps| ensures Declared(after, after.steps[i]) && Published(after, after.steps[i]) {
      if i != last {
        assert after.steps[i] == o.steps[i];
        PickedPublished(o, name, spec, o.steps[i]);
        PublishedStays(o.(outputs := after.outputs), after, o.steps[i]);
      }
    }
    forall key ensures Supplied(after, key) {
      PickedSupplied(o, name, spec, key);
    }
  }

  lemma ExtractionAdded(n: Notes, event: RecordedEvent, lower: Lowering)
    requires Coherent(n)
    ensures Coherent(AddExtraction(n, event, lower))
  {
    hide Ident, SpecOf, Published, Supplied, Declared, Distinct, Distinctive, NumbersDiffer, Find;
    var o := Opened(n);
    OpenedIsCoherent(n);
    var name := UniqueName(Ident(event.config.name, "value", lower), o.outputNames);
    PickedIsCoherent(o, name, SpecOf(event, lower));
  }

  lemma ClosedIsCoherent(n: Notes, kind: string)
    requires Coherent(n)
    ensures Coherent(n.(open := false)) && Coherent(n.(previous := kind))
  {
    hide Distinct, Find, Distinctive;
    forall name ensures Supplied(n.(open := false), name) && Supplied(n.(previous := kind), name) {
      assert Supplied(n, name);
    }
  }

  lemma HandledIsCoherent(n: Notes, event: RecordedEvent, credentials: bool, lower: Lowering)
    requires Coherent(n)
    ensures Coherent(Handled(n, event, credentials, lower))
  {
    hide Coherent, AddExtraction, Parameterize, AddFill, ChoiceOf;
    ClosedIsCoherent(n, event.kind);
    var closed := n.(open := false);
    var choice := ChoiceOf(event.descriptor);
    if IsExtraction(event.kind) {
      ExtractionAdded(n, event, lower);
      ClosedIsCoherent(AddExtraction(n, event, lower), event.kind);
    } else if event.kind == "parameterize" {
      Parameterized(closed, event, lower);
      ClosedIsCoherent(Parameterize(closed, event, lower), event.kind);
    } else if event.kind == "fill" {
      FillNoted(closed, event, credentials, lower);
      ClosedIsCoherent(AddFill(closed, event, credentials, lower), event.kind);
    } else {
      PlainStep(closed, event, credentials, lower);
    }
  }

  /** The other kinds add at most one step that is neither a fill nor an extract. */
  lemma PlainStep(closed: Notes, event: RecordedEvent, credentials: bool, lower: Lowering)
    requires Coherent(closed) && !closed.open
    requires !IsExtraction(event.kind) && event.kind != "parameterize" && event.kind != "fill"
    ensures Coherent(Handled(closed, event, credentials, lower))
  {
    hide Coherent, AddExtraction, Parameterize, AddFill;
    var after := Handled(closed, event, credentials, lower);
    ClosedIsCoherent(closed, event.kind);
    if after.steps != closed.steps {
      var step := after.steps[|after.steps| - 1];
      StepAdded(closed, step);
      ClosedIsCoherent(Append(closed, step), event.kind);
      assert after == Append(closed, step).(previous := event.kind);
    }
  }

  // The promises, read off the invariant.

  /** Every placeholder names a declaration, and no secret or input is declared twice. */
  lemma PlaceholdersAreDeclared(events: seq<RecordedEvent>, credentials: bool, lower: Lowering, i: nat)
    requires i < |NotesOf(events, credentials, lower).steps|
    ensures var n := NotesOf(events, credentials, lower);
      && Distinctive(n.secrets) && Distinct(n.inputs)
      && (n.steps[i].Fill? && n.steps[i].value.Secret? ==> n.steps[i].value.name in n.secrets)
      && (n.steps[i].Fill? && n.steps[i].value.Input? ==> Find(n.inputs, n.steps[i].value.name).Some?)
  {
    hide NotesOf, Distinct, Find, Published, Supplied;
    EveryRecordingIsCoherent(events, credentials, lower);
    assert Declared(NotesOf(events, credentials, lower), NotesOf(events, credentials, lower).steps[i]);
  }

  /** Extract ids never repeat. */
  lemma ExtractIdsNeverRepeat(events: seq<RecordedEvent>, credentials: bool, lower: Lowering, i: nat, j: nat)
    requires i < j < |NotesOf(events, credentials, lower).steps|
    requires var steps := NotesOf(events, credentials, lower).steps; steps[i].Extract? && steps[j].Extract?
    ensures var steps := NotesOf(events, credentials, lower).steps;
      ExtractId(steps[i].number) != ExtractId(steps[j].number)
  {
    hide NotesOf, Distinct, Find, Published, Supplied, Declared, ExtractId;
    EveryRecordingIsCoherent(events, credentials, lower);
    var steps := NotesOf(events, credentials, lower).steps;
    ExtractIdsDiffer(steps[i].number, steps[j].number);
  }

  /**
   * Outputs and extracted fields are in one-to-one correspondence: an extract step holds a field of
   * some name exactly when the output of that name is read from that step, and one step only does.
   */
  lemma OutputsMatchFields(events: seq<RecordedEvent>, credentials: bool, lower: Lowering, name: string)
    ensures var n := NotesOf(events, credentials, lower);
      && Distinct(n.outputs)
      && (forall i :: 0 <= i < |n.steps| && n.steps[i].Extract? ==>
            (Find(n.steps[i].fields, name).Some? <==> Find(n.outputs, name) == Some(Source(n.steps[i].number, name))))
      && (Find(n.outputs, name).Some? ==>
            exists i :: 0 <= i < |n.steps| && n.steps[i].Extract? && Find(n.steps[i].fields, name).Some?)
  {
    hide NotesOf, Distinct, Find, Declared;
    EveryRecordingIsCoherent(events, credentials, lower);
    var n := NotesOf(events, credentials, lower);
    assert Supplied(n, name);
    forall i | 0 <= i < |n.steps| && n.steps[i].Extract?
      ensures Find(n.steps[i].fields, name).Some? <==> Find(n.outputs, name) == Some(Source(n.steps[i].number, name))
    {
      assert Published(n, n.steps[i]);
      if Find(n.outputs, name) == Some(Source(n.steps[i].number, name)) {
        var k :| 0 <= k < |n.steps| && n.steps[k].Extract?
          && n.steps[k].number == Find(n.outputs, name).value.number && Find(n.steps[k].fields, name).Some?;
        SameNumber(n.steps, i, k);
      }
    }
  }

  lemma SameNumber(steps: seq<Step>, i: nat, k: nat)
    requires NumbersDiffer(steps) && i < |steps| && k < |steps|
    requires steps[i].Extract? && steps[k].Extract? && steps[i].number == steps[k].number
    ensures i == k
  {
  }

  // What is concealed stays concealed.

  /** Some recorded fill of that element, neither redacted nor a credential, showed that text. */
  predicate Plain(events: seq<RecordedEvent>, selector: string, text: string, credentials: bool, lower: Lowering) {
    exists k :: 0 <= k < |events| && events[k].kind == "fill" && !Concealed(events[k], credentials, lower)
      && events[k].value == text && ChoiceOf(events[k].descriptor).selector == selector
  }

  predicate LiteralsPlain(steps: seq<Step>, events: seq<RecordedEvent>, credentials: bool, lower: Lowering) {
    forall i :: 0 <= i < |steps| && steps[i].Fill? && steps[i].value.Literal? ==>
      Plain(events, steps[i].selector, steps[i].value.text, credentials, lower)
  }

  lemma PlainGrows(events: seq<RecordedEvent>, event: RecordedEvent, selector: string, text: string,
                   credentials: bool, lower: Lowering)
    requires Plain(events, selector, text, credentials, lower)
    ensures Plain(events + [event], selector, text, credentials, lower)
  {
    hide Concealed;
    var k :| 0 <= k < |events| && events[k].kind == "fill" && !Concealed(events[k], credentials, lower)
      && events[k].value == text && ChoiceOf(events[k].descriptor).selector == selector;
    assert (events + [event])[k] == events[k];
  }

  /** A step that was there before, or what an open fill just showed. */
  predicate OldOrShown(n: Notes, after: Notes, event: RecordedEvent, credentials: bool, lower: Lowering, i: nat)
    requires i < |after.steps| && after.steps[i].Fill? && after.steps[i].value.Literal?
  {
    || (i < |n.steps| && after.steps[i] == n.steps[i])
    || (event.kind == "fill" && !Concealed(event, credentials, lower) && after.steps[i].value.text == event.value
        && after.steps[i].selector == ChoiceOf(event.descriptor).selector)
  }

  lemma FillShows(n: Notes, event: RecordedEvent, credentials: bool, lower: Lowering, i: nat)
    requires event.kind == "fill"
    requires var after := AddFill(n, event, credentials, lower);
      i < |after.steps| && after.steps[i].Fill? && after.steps[i].value.Literal?
    ensures OldOrShown(n, AddFill(n, event, credentials, lower), event, credentials, lower, i)
  {
    hide Concealed, Ident, UniqueName;
  }

  lemma ExtractionShows(n: Notes, event: RecordedEvent, lower: Lowering, i: nat)
    requires i < |AddExtraction(n, event, lower).steps| && AddExtraction(n, event, lower).steps[i].Fill?
    ensures i < |n.steps| && AddExtraction(n, event, lower).steps[i] == n.steps[i]
  {
    hide SpecOf, Ident, UniqueName, Put;
  }

  lemma InputShows(n: Notes, event: RecordedEvent, lower: Lowering, i: nat)
    requires i < |n.steps|
    ensures |Parameterize(n, event, lower).steps| == |n.steps|
    ensures var step := Parameterize(n, event, lower).steps[i];
      step == n.steps[i] || (step.Fill? && step.value.Input?)
  {
    hide LastFill, Ident, UniqueName, Put, InputSpecOf;
  }

  lemma HandledShows(n: Notes, event: RecordedEvent, credentials: bool, lower: Lowering, i: nat)
    requires var after := Handled(n, event, credentials, lower);
      i < |after.steps| && after.steps[i].Fill? && after.steps[i].value.Literal?
    ensures OldOrShown(n, Handled(n, event, credentials, lower), event, credentials, lower, i)
  {
    hide Concealed, AddExtraction, Parameterize, AddFill;
    var closed := n.(open := false);
    if IsExtraction(event.kind) {
      ExtractionShows(n, event, lower, i);
    } else if event.kind == "parameterize" {
      if i < |n.steps| {
        InputShows(closed, event, lower, i);
      } else {
        InputKeepsLength(closed, event, lower);
      }
    } else if event.kind == "fill" {
      FillShows(closed, event, credentials, lower, i);
    }
  }

  lemma InputKeepsLength(n: Notes, event: RecordedEvent, lower: Lowering)
    ensures |Parameterize(n, event, lower).steps| == |n.steps|
  {
    hide LastFill, Ident, UniqueName, Put, InputSpecOf;
  }

  lemma HandledLiterals(n: Notes, events: seq<RecordedEvent>, event: RecordedEvent, credentials: bool, lower: Lowering)
    requires LiteralsPlain(n.steps, events, credentials, lower)
    ensures LiteralsPlain(Handled(n, event, credentials, lower).steps, events + [event], credentials, lower)
  {
    hide Concealed, Plain, Handled;
    var after := Handled(n, event, credentials, lower);
    forall i | 0 <= i < |after.steps| && after.steps[i].Fill? && after.steps[i].value.Literal?
      ensures Plain(events + [event], after.steps[i].selector, after.steps[i].value.text, credentials, lower)
    {
      HandledShows(n, event, credentials, lower, i);
      if i < |n.steps| && after.steps[i] == n.steps[i] {
        PlainGrows(events, event, n.steps[i].selector, n.steps[i].value.text, credentials, lower);
      } else {
        LastIsPlain(events, event, credentials, lower);
      }
    }
  }

  lemma LastIsPlain(events: seq<RecordedEvent>, event: RecordedEvent, credentials: bool, lower: Lowering)
    requires event.kind == "fill" && !Concealed(event, credentials, lower)
    ensures Plain(events + [event], ChoiceOf(event.descriptor).selector, event.value, credentials, lower)
  {
    hide Concealed;
    assert (events + [event])[|events|] == event;
  }

  /** A value is written down for an element only if some fill of that element showed it openly: a redacted fill
      never becomes a literal, and no literal moves to another element. */
  lemma {:induction false} NoConcealedLiteral(events: seq<RecordedEvent>, credentials: bool, lower: Lowering)
    ensures LiteralsPlain(NotesOf(events, credentials, lower).steps, events, credentials, lower)
  {
    hide LiteralsPlain, Handled;
    if events == [] {
      NothingWritten(credentials, lower);
    } else {
      var most, last := events[..|events| - 1], events[|events| - 1];
      NoConcealedLiteral(most, credentials, lower);
      HandledLiterals(NotesOf(most, credentials, lower), most, last, credentials, lower);
      assert most + [last] == events;
    }
  }

  lemma NothingWritten(credentials: bool, lower: Lowering)
    ensures LiteralsPlain(BLANK.steps, [], credentials, lower)
  {
  }

  /** Nothing about the field says that what is typed there is a credential. */
  predicate Harmless(d: Descriptor, lower: Lowering) {
    && d.fieldType != "password"
    && lower(d.autocomplete) !in {"username", "email", "current-password", "new-password"}
    && forall word :: word in WORDS ==> !Mentions(d, word, lower)
  }

  const WORDS := {"username", "user", "login", "email", "mail", "pass", "identifiant", "pseudo"}

  /** The name of the field, or what it asks the browser to fill in, has that word in it. */
  predicate Mentions(d: Descriptor, word: string, lower: Lowering) {
    ExprEval.Includes(lower((if d.name.Some? then d.name.value else "") + " " + d.autocomplete), word)
  }

  lemma CredentialIs(descriptor: Option<Descriptor>, lower: Lowering)
    ensures IsCredential(descriptor, lower) <==> descriptor.Some? && !Harmless(descriptor.value, lower)
  {
    hide ExprEval.Includes;
    if descriptor.Some? {
      assert forall k :: 0 <= k < |TOKENS| ==> TOKENS[k] in WORDS;
      forall word | word in WORDS ensures exists k :: 0 <= k < |TOKENS| && TOKENS[k] == word {
        assert TOKENS[0] == "username" && TOKENS[1] == "user" && TOKENS[2] == "login" && TOKENS[3] == "email";
        assert TOKENS[4] == "mail" && TOKENS[5] == "pass" && TOKENS[6] == "identifiant" && TOKENS[7] == "pseudo";
      }
    }
  }

  /** What is typed into a field that is redacted, or that looks like a credential when those are kept apart. */
  predicate MustHide(event: RecordedEvent, credentials: bool, lower: Lowering) {
    event.redacted || (credentials && event.descriptor.Some? && !Harmless(event.descriptor.value, lower))
  }

  /** A text in the Blueprint was typed in the open, into that element: never into a password field, for one. */
  lemma HiddenIsNeverWritten(events: seq<RecordedEvent>, credentials: bool, lower: Lowering, i: nat) returns (k: nat)
    requires var steps := NotesOf(events, credentials, lower).steps;
      i < |steps| && steps[i].Fill? && steps[i].value.Literal?
    ensures var step := NotesOf(events, credentials, lower).steps[i];
      && k < |events| && events[k].kind == "fill" && !MustHide(events[k], credentials, lower)
      && events[k].value == step.value.text && ChoiceOf(events[k].descriptor).selector == step.selector
  {
    hide NotesOf, IsCredential, Harmless;
    NoConcealedLiteral(events, credentials, lower);
    var step := NotesOf(events, credentials, lower).steps[i];
    assert Plain(events, step.selector, step.value.text, credentials, lower);
    k :| 0 <= k < |events| && events[k].kind == "fill" && !Concealed(events[k], credentials, lower)
      && events[k].value == step.value.text && ChoiceOf(events[k].descriptor).selector == step.selector;
    CredentialIs(events[k].descriptor, lower);
  }

  /** A fill is written as its last step: in the open with its text, hidden with the name of a secret. */
  lemma FillIsWritten(n: Notes, event: RecordedEvent, credentials: bool, lower: Lowering)
    requires event.kind == "fill"
    requires forall selector :: selector in n.secretBySelector ==> n.secretBySelector[selector] in n.secrets
    ensures
      var after := Handled(n, event, credentials, lower);
      && after.steps != [] && after.steps[|after.steps| - 1].Fill?
      && var last := after.steps[|after.steps| - 1];
         && last.selector == ChoiceOf(event.descriptor).selector
         && (!MustHide(event, credentials, lower) ==> last.value == Literal(event.value))
         && (MustHide(event, credentials, lower) ==> last.value.Secret? && last.value.name in after.secrets)
  {
    hide IsCredential, Harmless, Ident, UniqueName;
    CredentialIs(event.descriptor, lower);
  }

  /** The kind of input a field of that type asks for. */
  predicate Typed(fieldType: string, spec: InputSpec) {
    && (fieldType == "number" || fieldType == "range" <==> spec.kind == "number")
    && (spec.kind == "number" || spec.kind == "string")
    && (fieldType == "date" <==> spec.format == Some("date"))
    && (fieldType == "datetime-local" <==> spec.format == Some("date-time"))
    && (fieldType == "time" <==> spec.format == Some("time"))
    && (fieldType == "email" <==> spec.format == Some("email"))
    && (fieldType == "url" <==> spec.format == Some("uri"))
    && (fieldType !in {"date", "datetime-local", "time", "email", "url"} <==> spec.format == None)
  }

  lemma SpecTyped(descriptor: Option<Descriptor>)
    ensures Typed(if descriptor.Some? then descriptor.value.fieldType else "", InputSpecOf(descriptor))
  {
  }

  /** A field made into an input: its last fill reads the new input, declared with the type of the field. */
  lemma InputIsDeclared(n: Notes, event: RecordedEvent, credentials: bool, lower: Lowering, i: nat)
    requires event.kind == "parameterize" && i < |n.steps|
    requires n.steps[i].Fill? && n.steps[i].selector == ChoiceOf(event.descriptor).selector && !n.steps[i].value.Secret?
    requires forall j :: i < j < |n.steps| && n.steps[j].Fill? ==>
      n.steps[j].selector != ChoiceOf(event.descriptor).selector
    ensures
      var after := Handled(n, event, credentials, lower);
      && |after.steps| == |n.steps| && after.steps[i].Fill? && after.steps[i].value.Input?
      && after.steps[i] == n.steps[i].(value := after.steps[i].value)
      && (forall j :: 0 <= j < |n.steps| && j != i ==> after.steps[j] == n.steps[j])
      && var name := after.steps[i].value.name;
         && Find(n.inputs, name).None? && Find(after.inputs, name).Some?
         && Typed(if event.descriptor.Some? then event.descriptor.value.fieldType else "",
                  Find(after.inputs, name).value)
  {
    hide Ident, UniqueName, InputSpecOf, Typed;
    LastFillIs(n.steps, ChoiceOf(event.descriptor).selector, |n.steps|, i);
    var name := UniqueName(Ident(event.config.name, "value", lower), Keys(n.inputs));
    FindPut(n.inputs, name, InputSpecOf(event.descriptor), name);
    SpecTyped(event.descriptor);
    FreshKey(Ident(event.config.name, "value", lower), n.inputs);
  }

  lemma FreshKey<T>(base: string, t: Table<T>)
    ensures Find(t, UniqueName(base, Keys(t))).None?
  {
    hide Candidate;
    forall i | 0 <= i < |t| ensures t[i].0 != UniqueName(base, Keys(t)) {
      assert t[i].0 in Keys(t);
    }
  }

  lemma {:induction false} LastFillIs(steps: seq<Step>, selector: string, upTo: nat, i: nat)
    requires i < upTo <= |steps| && steps[i].Fill? && steps[i].selector == selector
    requires forall j :: i < j < upTo && steps[j].Fill? ==> steps[j].selector != selector
    ensures LastFill(steps, selector, upTo) == Some(i)
  {
    if i + 1 < upTo {
      LastFillIs(steps, selector, upTo - 1, i);
    }
  }

  /** The field names of a record table never repeat either. */
  lemma {:induction false} RecordFieldsDistinct(raw: seq<FieldConfig>, fields: Table<FieldSpec>, taken: set<string>,
                                                lower: Lowering)
    requires Distinct(fields) && taken == Keys(fields)
    ensures Distinct(RecordFields(raw, fields, taken, lower))
    ensures |RecordFields(raw, fields, taken, lower)| == |fields| + |raw|
    decreases |raw|
  {
    hide Ident;
    if raw != [] {
      var name := UniqueName(Ident(raw[0].name, "field", lower), taken);
      var spec := FieldSpec(raw[0].selector, raw[0].reading,
        if raw[0].reading == "attr" && raw[0].attr != "" then Some(raw[0].attr) else None);
      NotAKey(fields, name);
      DistinctPut(fields, name, spec);
      PutFresh(fields, name, spec);
      KeysPut(fields, name, spec);
      RecordFieldsDistinct(raw[1..], Put(fields, name, spec), taken + {name}, lower);
    }
  }

  lemma KeysPut<T>(t: Table<T>, key: string, value: T)
    requires Put(t, key, value) == t + [(key, value)]
    ensures Keys(Put(t, key, value)) == Keys(t) + {key}
  {
    var p := t + [(key, value)];
    forall k | k in Keys(t) + {key} ensures k in Keys(p) {
      if k == key {
        assert p[|t|].0 == key;
      } else {
        var i :| 0 <= i < |t| && t[i].0 == k;
        assert p[i].0 == k;
      }
    }
  }
}
