/** A block that gave way publishes an empty table for exactly the identified steps it did not publish. */
module SeedLaws {
  import opened Common
  import opened Tables
  import opened ExprValues
  import opened Blueprint
  import opened RunModel

  type Outputs = Table<Table<Value>>

  /** `after` adds an empty table under each of `ids` that had none, and changes nothing else. */
  ghost predicate Seeds(before: Outputs, after: Outputs, ids: set<string>) {
    forall key :: Find(after, key) ==
      if Find(before, key).Some? then Find(before, key) else if key in ids then Some([]) else None
  }

  lemma SeedsCompose(a: Outputs, b: Outputs, c: Outputs, first: set<string>, second: set<string>)
    requires Seeds(a, b, first) && Seeds(b, c, second)
    ensures Seeds(a, c, first + second)
  {
  }

  lemma SeedIdSeeds(outputs: Outputs, id: Option<string>)
    ensures Seeds(outputs, SeedId(outputs, id), OwnId(id))
  {
    if id.Some? && id.value != "" && Find(outputs, id.value).None? {
      forall key ensures Find(Put(outputs, id.value, []), key) ==
                         if Find(outputs, key).Some? then Find(outputs, key)
                         else if key in OwnId(id) then Some([]) else None
      {
        FindPut(outputs, id.value, [], key);
      }
    }
  }

  lemma {:induction false} SeedSeeds(outputs: Outputs, step: Step)
    ensures Seeds(outputs, Seed(outputs, step), Ids(step))
    decreases step, 1
  {
    hide Seeds, SeedId;
    var own := SeedId(outputs, step.id);
    SeedIdSeeds(outputs, step.id);
    if step.action == "if" {
      var seeded := SeedField(own, step.thenSteps);
      SeedFieldSeeds(own, step.thenSteps);
      SeedFieldSeeds(seeded, step.elseSteps);
      SeedsCompose(own, seeded, SeedField(seeded, step.elseSteps), FieldIds(step.thenSteps), FieldIds(step.elseSteps));
      SeedsCompose(outputs, own, SeedField(seeded, step.elseSteps), OwnId(step.id),
        FieldIds(step.thenSteps) + FieldIds(step.elseSteps));
    } else if IsFlow(step.action) {
      SeedFieldSeeds(own, step.steps);
      SeedsCompose(outputs, own, SeedField(own, step.steps), OwnId(step.id), FieldIds(step.steps));
    } else {
      assert Ids(step) == OwnId(step.id);
    }
  }

  lemma NothingSeeds(outputs: Outputs)
    ensures Seeds(outputs, outputs, {})
  {
  }

  lemma {:induction false} SeedFieldSeeds(outputs: Outputs, field: Field)
    ensures Seeds(outputs, SeedField(outputs, field), FieldIds(field))
    decreases field, 2
  {
    hide Seeds, SeedId;
    match field
    case ListOf(list) => SeedAllSeeds(outputs, list);
    case BadList(before, first, after) =>
      var a := SeedAll(outputs, before);
      var b := SeedId(a, first.id);
      var c := SeedEntries(b, after);
      SeedAllSeeds(outputs, before);
      SeedIdSeeds(a, first.id);
      SeedEntriesSeeds(b, after);
      SeedsCompose(outputs, a, b, AllIds(before), OwnId(first.id));
      SeedsCompose(outputs, b, c, AllIds(before) + OwnId(first.id), EntryIds(after));
    case _ => NothingSeeds(outputs);
  }

  lemma {:induction false} SeedAllSeeds(outputs: Outputs, steps: seq<Step>)
    ensures Seeds(outputs, SeedAll(outputs, steps), AllIds(steps))
    decreases steps, 3
  {
    hide Seeds, Seed, Ids;
    if steps == [] {
      NothingSeeds(outputs);
    } else {
      var first := Seed(outputs, steps[0]);
      SeedSeeds(outputs, steps[0]);
      SeedAllSeeds(first, steps[1..]);
      SeedsCompose(outputs, first, SeedAll(first, steps[1..]), Ids(steps[0]), AllIds(steps[1..]));
    }
  }

  lemma {:induction false} SeedEntriesSeeds(outputs: Outputs, entries: seq<Entry>)
    ensures Seeds(outputs, SeedEntries(outputs, entries), EntryIds(entries))
    decreases entries, 3
  {
    hide Seeds, SeedEntry, OneEntryIds;
    if entries == [] {
      NothingSeeds(outputs);
    } else {
      var first := SeedEntry(outputs, entries[0]);
      SeedEntrySeeds(outputs, entries[0]);
      SeedEntriesSeeds(first, entries[1..]);
      SeedsCompose(outputs, first, SeedEntries(first, entries[1..]), OneEntryIds(entries[0]), EntryIds(entries[1..]));
    }
  }

  lemma {:induction false} SeedEntrySeeds(outputs: Outputs, entry: Entry)
    ensures Seeds(outputs, SeedEntry(outputs, entry), OneEntryIds(entry))
    decreases entry, 2
  {
    hide Seeds, SeedId, Seed, Ids;
    match entry
    case Stray(misfit) => SeedIdSeeds(outputs, misfit.id);
    case Nested(step) => SeedSeeds(outputs, step);
  }

  /** The rest of the block is seeded too, step by step. */
  lemma {:induction false} SkipRestSeeds(steps: seq<Step>, i: nat, path: string, run: Run)
    requires i <= |steps|
    ensures Seeds(run.outputs, SkipRest(steps, i, path, run).outputs, AllIds(steps[i..]))
    decreases |steps| - i
  {
    hide Seeds, Seed, Ids, DisplayId;
    if i == |steps| {
      NothingSeeds(run.outputs);
    } else {
      var first := Seed(run.outputs, steps[i]);
      SeedSeeds(run.outputs, steps[i]);
      var id := DisplayId(steps[i], i, path);
      var next := Record(Seeded(run, steps[i]), SkippedResult(id, steps[i].action), StepSkipped(id, None));
      SkipRestSeeds(steps, i + 1, path, next);
      assert steps[i..][1..] == steps[i + 1..];
      SeedsCompose(run.outputs, first, SkipRest(steps, i + 1, path, next).outputs, Ids(steps[i]), AllIds(steps[i + 1..]));
    }
  }
}
