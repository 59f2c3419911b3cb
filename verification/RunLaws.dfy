/** What every run keeps, whatever the world answers: the books balance, the scope comes back, nothing is lost. */
module RunLaws {
  import opened Common
  import opened Tables
  import opened ExprValues
  import opened Blueprint
  import opened RunModel

  // The books.

  function CountResults(results: seq<StepResult>, status: Status): nat {
    if results == [] then 0
    else CountResults(results[..|results| - 1], status) + (if results[|results| - 1].status == status then 1 else 0)
  }

  function CountFinished(events: seq<Event>): nat {
    if events == [] then 0
    else CountFinished(events[..|events| - 1]) + (if events[|events| - 1].StepFinished? then 1 else 0)
  }

  function CountSkipped(events: seq<Event>): nat {
    if events == [] then 0
    else CountSkipped(events[..|events| - 1]) + (if events[|events| - 1].StepSkipped? then 1 else 0)
  }

  /** The errors reported to the event bus, in order. */
  function Reported(events: seq<Event>): seq<Error> {
    if events == [] then []
    else
      var last := events[|events| - 1];
      Reported(events[..|events| - 1]) + (if last.ErrorEvent? then [last.error] else [])
  }

  /** The typed errors among the faults, in order. */
  function TypedOf(faults: seq<Fault>): seq<Error> {
    if faults == [] then []
    else
      var last := faults[|faults| - 1];
      TypedOf(faults[..|faults| - 1]) + (if last.Typed? then [last.error] else [])
  }

  /** Errors reported beyond the blocks that gave way. */
  function Debt(run: Run): int {
    |Reported(run.events)| - CountResults(run.results, Partial)
  }

  function Closing(run: Run): int {
    CountFinished(run.events) - CountResults(run.results, Success) - CountResults(run.results, Partial)
  }

  function Skipping(run: Run): int {
    CountSkipped(run.events) - CountResults(run.results, Skipped)
  }

  predicate Quiet(faults: seq<Fault>) {
    forall i :: 0 <= i < |faults| ==> faults[i].Typed?
  }

  ghost predicate KeysKept<T>(before: Table<T>, after: Table<T>) {
    forall key :: Has(before, key) ==> Has(after, key)
  }

  predicate NoRepeat(drivers: seq<string>) {
    forall i, j :: 0 <= i < j < |drivers| ==> drivers[i] != drivers[j]
  }

  /** The books of two states agree but for `extra` failures reported and not yet settled. */
  predicate Balanced(before: Run, after: Run, extra: int) {
    && Debt(after) == Debt(before) + extra
    && Closing(after) == Closing(before)
    && Skipping(after) == Skipping(before)
  }

  /** Every typed error thrown so far was reported, exactly once and in order; nothing else was thrown. */
  predicate Steady(run: Run) {
    && Quiet(run.faults)
    && Reported(run.events) == TypedOf(run.faults)
    && NoRepeat(run.drivers)
  }

  /** How a state ends when `thrown` leaves a step: the last fault is the one that leaves. */
  predicate EndsWith(run: Run, thrown: Option<Thrown>) {
    && Reported(run.events) == TypedOf(run.faults)
    && NoRepeat(run.drivers)
    && match thrown
       case None => Quiet(run.faults)
       case Some(StepFailed(e)) => Quiet(run.faults) && run.faults != [] && run.faults[|run.faults| - 1] == Typed(e)
       case Some(Raw(fault)) =>
         && !fault.Typed? && run.faults != []
         && run.faults[|run.faults| - 1] == fault && Quiet(run.faults[..|run.faults| - 1])
  }

  function Owed(thrown: Option<Thrown>): int {
    if thrown.Some? && thrown.value.StepFailed? then 1 else 0
  }

  ghost predicate Kept(before: Run, after: Run, extra: int) {
    && after.scope == before.scope
    && KeysKept(before.outputs, after.outputs)
    && Balanced(before, after, extra)
  }

  lemma RecordCounts(run: Run, entry: StepResult, event: Event)
    ensures var after := Record(run, entry, event);
      && Debt(after) == Debt(run) + (if event.ErrorEvent? then 1 else 0) - (if entry.status == Partial then 1 else 0)
      && Closing(after) == Closing(run) + (if event.StepFinished? then 1 else 0)
           - (if entry.status == Success || entry.status == Partial then 1 else 0)
      && Skipping(after) == Skipping(run) + (if event.StepSkipped? then 1 else 0)
           - (if entry.status == Skipped then 1 else 0)
      && Reported(after.events) == Reported(run.events) + (if event.ErrorEvent? then [event.error] else [])
  {
    var after := Record(run, entry, event);
    assert after.results[..|run.results|] == run.results;
    assert after.events[..|run.events|] == run.events;
  }

  lemma RaiseKeepsBooks(run: Run, fault: Fault)
    ensures var after := Raise(run, fault);
      && Kept(run, after, 0)
      && after.faults[..|run.faults|] == run.faults
      && TypedOf(after.faults) == TypedOf(run.faults) + (if fault.Typed? then [fault.error] else [])
  {
    var after := Raise(run, fault);
    assert after.faults[..|run.faults|] == run.faults;
  }

  lemma EmitKeepsBooks(run: Run, event: Event)
    requires !event.StepFinished? && !event.StepSkipped? && !event.ErrorEvent?
    ensures Kept(run, Emit(run, event), 0)
    ensures Reported(Emit(run, event).events) == Reported(run.events)
  {
    assert Emit(run, event).events[..|run.events|] == run.events;
  }

  lemma {:induction false} ChatterKeepsBooks(run: Run, texts: seq<string>)
    ensures var after := run.(events := run.events + Chatter(texts));
      Kept(run, after, 0) && Reported(after.events) == Reported(run.events)
    decreases |texts|
  {
    if texts == [] {
      assert run.events + Chatter(texts) == run.events;
    } else {
      var n := |texts| - 1;
      var most := run.(events := run.events + Chatter(texts[..n]));
      ChatterKeepsBooks(run, texts[..n]);
      EmitKeepsBooks(most, FromDriver(texts[n]));
      assert run.events + Chatter(texts) == most.events + [FromDriver(texts[n])];
    }
  }

  // Outputs grow.

  lemma PutKeepsKeys<T>(t: Table<T>, key: string, value: T)
    ensures KeysKept(t, Put(t, key, value)) && Has(Put(t, key, value), key)
  {
    FindPut(t, key, value, key);
    forall other | Has(t, other) ensures Has(Put(t, key, value), other) {
      FindPut(t, key, value, other);
      assert Find(t, other).Some?;
    }
  }

  // The scope of a loop variable.

  lemma {:induction false} PutTwice<T>(t: Table<T>, key: string, x: T, y: T)
    ensures Put(Put(t, key, x), key, y) == Put(t, key, y)
  {
    if t != [] && t[0].0 != key {
      PutTwice(t[1..], key, x, y);
    }
  }

  lemma {:induction false} DeletePut<T>(t: Table<T>, key: string, x: T)
    ensures Delete(Put(t, key, x), key) == Delete(t, key)
  {
    if t != [] {
      DeletePut(t[1..], key, x);
    }
  }

  lemma {:induction false} PutFound<T>(t: Table<T>, key: string)
    requires Find(t, key).Some?
    ensures Put(t, key, Find(t, key).value) == t
  {
    if t[0].0 != key {
      PutFound(t[1..], key);
    }
  }

  /** Restoring undoes any binding of the variable, and does nothing to the scope it restores. */
  lemma RestoredIsBefore(before: Table<Value>, scope: Table<Value>, variable: string, x: Value)
    ensures Restored(before, variable, before) == before
    ensures Restored(Put(scope, variable, x), variable, before) == Restored(scope, variable, before)
  {
    match Find(before, variable)
    case Some(previous) =>
      PutFound(before, variable);
      PutTwice(scope, variable, x, previous);
    case None =>
      DeleteAbsent(before, variable);
      DeletePut(scope, variable, x);
  }
}
