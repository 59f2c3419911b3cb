/**
 * The registry with many operations in flight: every `await` is a point where the others run.
 *
 * An operation first waits for the cache document, unless the overlay is in memory; then it waits once
 * more, holding the entries it was given; then it acts on them in one stretch. The downloads of a
 * refresh happen between its two stretches and touch nothing shared.
 */
module RegistryRuns {
  import opened Common
  import opened Tables
  import opened Delivery
  import opened Registry

  datatype Goal = ToLookup(name: string) | ToRefresh | ToRevert(which: Option<string>)

  datatype Task = Reading(read: Overlay, goal: Goal) | Holding(entries: Overlay, goal: Goal) | Over

  datatype Serving = Serving(name: string, entry: Cached, document: Document)

  datatype World = World(cell: Cell, tasks: seq<Task>, served: seq<Serving>)

  /** What may happen next. `Tamper` is anyone else writing to the store. */
  datatype Step =
    | Begin(goal: Goal)
    | ReadArrives(i: nat)
    | Proceed(i: nat, network: Network)
    | Tamper(stored: Stored)

  predicate Enabled(w: World, step: Step) {
    match step
    case ReadArrives(i) => i < |w.tasks| && w.tasks[i].Reading?
    case Proceed(i, network) =>
      && i < |w.tasks| && w.tasks[i].Holding?
      && (network.manifest.Some? ==> Distinct(network.manifest.value.blueprints))
    case _ => true
  }

  /** A read sees what the store holds when it is issued; its answer may arrive any time later. */
  function Started(c: Config, w: World, goal: Goal): World {
    if goal.ToLookup? && !c.remote then w.(tasks := w.tasks + [Over])
    else if w.cell.overlay.Some? then w.(tasks := w.tasks + [Holding(w.cell.overlay.value, goal)])
    else
      w.(tasks := w.tasks + [Reading(ReadCache(c, w.cell), goal)], cell := w.cell.(uses := w.cell.uses + 1))
  }

  function Acted(c: Config, w: World, entries: Overlay, goal: Goal, network: Network): World {
    match goal
    case ToLookup(name) =>
      var answer := Lookup(c, name, entries);
      w.(cell := AfterLookup(c, name, entries, w.cell),
         served := if answer.Served? then w.served + [Serving(name, answer.entry, answer.document)] else w.served)
    case ToRefresh =>
      var kept := Refreshed(c, entries, network).0;
      if kept.Some? then w.(cell := Publish(c, w.cell, kept.value)) else w
    case ToRevert(which) =>
      w.(cell := Publish(c, w.cell, if which.Some? then entries - {which.value} else map[]))
  }

  function Next(c: Config, w: World, step: Step): World
    requires Enabled(w, step)
  {
    match step
    case Begin(goal) => Started(c, w, goal)
    case ReadArrives(i) =>
      var cell := Arrive(c, w.cell, w.tasks[i].read);
      w.(cell := cell, tasks := w.tasks[i := Holding(cell.overlay.value, w.tasks[i].goal)])
    case Proceed(i, network) =>
      Acted(c, w.(tasks := w.tasks[i := Over]), w.tasks[i].entries, w.tasks[i].goal, network)
    case Tamper(stored) => w.(cell := w.cell.(stored := stored))
  }

  /** Steps that are not enabled do not happen. */
  function Taken(c: Config, w: World, step: Step): World {
    if Enabled(w, step) then Next(c, w, step) else w
  }

  /** Any run, from any world. */
  function Onward(c: Config, w: World, steps: seq<Step>): World {
    if steps == [] then w else Taken(c, Onward(c, w, steps[..|steps| - 1]), steps[|steps| - 1])
  }

  /** Any run of a new registry over what the store holds. */
  function After(c: Config, start: Stored, steps: seq<Step>): World {
    Onward(c, World(Cell(None, start, 0), [], []), steps)
  }

  // Safety under every interleaving.

  predicate AllEntitled(c: Config, overlay: Overlay) {
    forall name :: name in overlay ==> Entitled(c, name)
  }

  ghost predicate Invariant(c: Config, w: World) {
    && (w.cell.overlay.Some? ==> AllEntitled(c, w.cell.overlay.value))
    && (forall i :: 0 <= i < |w.tasks| && w.tasks[i].Holding? ==> AllEntitled(c, w.tasks[i].entries))
    && (forall k :: 0 <= k < |w.served| ==>
          Guarded(c, w.served[k].name, w.served[k].entry, w.served[k].document))
  }

  lemma LookupIsGuarded(c: Config, name: string, entries: Overlay)
    requires AllEntitled(c, entries)
    ensures var answer := Lookup(c, name, entries);
      answer.Served? ==> Guarded(c, name, answer.entry, answer.document)
  {
    hide Verify, Guarded, BoundsOf, Entitled;
    var answer := Lookup(c, name, entries);
    if answer.Served? {
      AcceptedIsGuarded(c, name, answer.entry, answer.document);
    }
  }

  lemma RefreshedEntitled(c: Config, previous: Overlay, network: Network)
    requires network.manifest.Some? ==> Distinct(network.manifest.value.blueprints)
    ensures var kept := Refreshed(c, previous, network).0; kept.Some? ==> AllEntitled(c, kept.value)
  {
    hide Refreshed, Fate, Entitled;
    var kept := Refreshed(c, previous, network).0;
    RefreshedOnlyIfRead(c, previous, network);
    if kept.Some? {
      forall name | name in kept.value ensures Entitled(c, name) {
        RefreshIsFate(c, previous, network, name);
        FateIsEntitled(c, previous, network, network.manifest.value, name);
      }
    }
  }

  lemma FateIsEntitled(c: Config, previous: Overlay, network: Network, manifest: Manifest, name: string)
    ensures Fate(c, previous, network, manifest, name).Some? ==> Entitled(c, name)
  {
    hide Verify, Entitled;
  }

  lemma ActedKeeps(c: Config, w: World, entries: Overlay, goal: Goal, network: Network)
    requires Invariant(c, w) && AllEntitled(c, entries)
    requires network.manifest.Some? ==> Distinct(network.manifest.value.blueprints)
    ensures Invariant(c, Acted(c, w, entries, goal, network))
  {
    hide Verify, Guarded, Refreshed, Entitled, Lookup;
    match goal
    case ToLookup(name) => LookupIsGuarded(c, name, entries);
    case ToRefresh => RefreshedEntitled(c, entries, network);
    case ToRevert(_) =>
  }

  lemma NextKeeps(c: Config, w: World, step: Step)
    requires Invariant(c, w) && Enabled(w, step)
    ensures Invariant(c, Next(c, w, step))
  {
    hide Guarded, Acted, Usable, Entitled;
    if step.Proceed? {
      var i := step.i;
      ActedKeeps(c, w.(tasks := w.tasks[i := Over]), w.tasks[i].entries, w.tasks[i].goal, step.network);
    }
  }

  /**
   * Whatever the store held, whatever is written into it behind the registry's back, whatever the
   * network answers and however operations interleave: all that is served from remote passed every guard.
   */
  lemma {:induction false} EveryServingIsGuarded(c: Config, start: Stored, steps: seq<Step>)
    ensures Invariant(c, After(c, start, steps))
    decreases |steps|
  {
    hide Invariant, Next, Enabled;
    if steps == [] {
      NothingYet(c, start);
    } else {
      var w := After(c, start, steps[..|steps| - 1]);
      EveryServingIsGuarded(c, start, steps[..|steps| - 1]);
      if Enabled(w, steps[|steps| - 1]) {
        NextKeeps(c, w, steps[|steps| - 1]);
      }
    }
  }

  lemma NothingYet(c: Config, start: Stored)
    ensures Invariant(c, World(Cell(None, start, 0), [], []))
  {
  }

  // Memory and store, once the first read is over.

  predicate NoReading(w: World) {
    forall i :: 0 <= i < |w.tasks| ==> !w.tasks[i].Reading?
  }

  /** The overlay is in memory, nobody is about to replace it with an old document, and the store agrees. */
  ghost predicate Settled(c: Config, w: World) {
    && w.cell.overlay.Some? && NoReading(w) && Sound(c, w.cell)
    && forall i :: 0 <= i < |w.tasks| && w.tasks[i].Holding? ==> WellKept(c, w.tasks[i].entries)
  }

  lemma ActedSettled(c: Config, w: World, entries: Overlay, goal: Goal, network: Network)
    requires forall n :: c.host.works(n)
    requires Settled(c, w) && WellKept(c, entries)
    requires network.manifest.Some? ==> Distinct(network.manifest.value.blueprints)
    ensures Settled(c, Acted(c, w, entries, goal, network))
  {
    hide Refreshed, Publish, Lookup, Sound, Entitled;
    match goal
    case ToLookup(name) => PublishSound(c, w.cell, entries - {name});
    case ToRefresh =>
      RefreshedWellKept(c, entries, network);
      var kept := Refreshed(c, entries, network).0;
      if kept.Some? {
        PublishSound(c, w.cell, kept.value);
      }
    case ToRevert(which) => PublishSound(c, w.cell, if which.Some? then entries - {which.value} else map[]);
  }

  /** From then on every interleaving keeps store and memory together, as long as writes succeed. */
  lemma SettledStays(c: Config, w: World, step: Step)
    requires forall n :: c.host.works(n)
    requires Settled(c, w) && Enabled(w, step) && !step.Tamper?
    ensures Settled(c, Next(c, w, step))
  {
    hide Acted, Entitled, Mirrors;
    if step.Proceed? {
      var i := step.i;
      ActedSettled(c, w.(tasks := w.tasks[i := Over]), w.tasks[i].entries, w.tasks[i].goal, step.network);
    }
  }

  predicate Untampered(steps: seq<Step>) {
    forall k :: 0 <= k < |steps| ==> !steps[k].Tamper?
  }

  /** Whatever happens next, in whatever order: from a settled world on, memory and store never part. */
  lemma {:induction false} SettledForever(c: Config, w: World, steps: seq<Step>)
    requires forall n :: c.host.works(n)
    requires Settled(c, w) && Untampered(steps)
    ensures Settled(c, Onward(c, w, steps)) && Mirrors(c, Onward(c, w, steps).cell)
    decreases |steps|
  {
    hide Next, Enabled;
    if steps != [] {
      var most, last := steps[..|steps| - 1], steps[|steps| - 1];
      SettledForever(c, w, most);
      if Enabled(Onward(c, w, most), last) {
        SettledStays(c, Onward(c, w, most), last);
      }
    }
  }

  // When they part, exactly.

  predicate Named(entries: Overlay) {
    forall name :: name in entries ==> entries[name].name == name
  }

  /** What every run keeps about names, pending reads included. */
  ghost predicate AllNamed(c: Config, w: World) {
    && (w.cell.overlay.Some? ==> WellKept(c, w.cell.overlay.value))
    && forall i :: 0 <= i < |w.tasks| ==>
         (w.tasks[i].Reading? ==> Named(w.tasks[i].read)) && (w.tasks[i].Holding? ==> WellKept(c, w.tasks[i].entries))
  }

  /** The answer of a read that pruning leaves whole, and that is no longer what the store holds. */
  predicate Stale(c: Config, cell: Cell, read: Overlay) {
    Prune(c, read) == read && Prune(c, Usable(cell.stored)) != read
  }

  /** The step puts an overlay in memory and tells the store. */
  predicate Publishes(c: Config, w: World, step: Step)
    requires Enabled(w, step)
  {
    && step.Proceed?
    && match w.tasks[step.i].goal
       case ToLookup(name) => Lookup(c, name, w.tasks[step.i].entries).Purged?
       case ToRefresh => c.remote && step.network.manifest.Some?
       case ToRevert(_) => true
  }

  /** A read that arrives leaves memory and store in agreement exactly when it is not stale. */
  lemma ArrivalPartsExactly(c: Config, cell: Cell, read: Overlay)
    requires forall n :: c.host.works(n)
    requires Named(read)
    ensures WellKept(c, Arrive(c, cell, read).overlay.value)
    ensures Mirrors(c, Arrive(c, cell, read)) <==> !Stale(c, cell, read)
  {
    hide Entitled, Usable, Encoded;
    EncodedIsUsable(c, Prune(c, read));
  }

  lemma ActedPublishes(c: Config, w: World, step: Step)
    requires forall n :: c.host.works(n)
    requires AllNamed(c, w) && Enabled(w, step) && step.Proceed?
    ensures AllNamed(c, Next(c, w, step))
    ensures Mirrors(c, Next(c, w, step).cell) <==> Publishes(c, w, step) || Mirrors(c, w.cell)
  {
    hide Refreshed, Publish, Lookup, Entitled, Mirrors, Named, Verify;
    var entries, cell := w.tasks[step.i].entries, w.cell;
    match w.tasks[step.i].goal
    case ToLookup(name) => PublishSound(c, cell, entries - {name});
    case ToRefresh =>
      RefreshedWellKept(c, entries, step.network);
      RefreshedOnlyIfRead(c, entries, step.network);
      var kept := Refreshed(c, entries, step.network).0;
      if kept.Some? {
        PublishSound(c, cell, kept.value);
      }
    case ToRevert(which) => PublishSound(c, cell, if which.Some? then entries - {which.value} else map[]);
  }

  /** One step: a read parts them exactly when it is stale, a publication reunites them, the rest changes nothing. */
  lemma StepPartsExactly(c: Config, w: World, step: Step)
    requires forall n :: c.host.works(n)
    requires AllNamed(c, w) && Enabled(w, step) && !step.Tamper?
    ensures AllNamed(c, Next(c, w, step))
    ensures Mirrors(c, Next(c, w, step).cell) <==>
      if step.ReadArrives? then !Stale(c, w.cell, w.tasks[step.i].read)
      else Publishes(c, w, step) || Mirrors(c, w.cell)
  {
    hide Acted, Arrive, Entitled, Usable, Stale, Lookup, Prune;
    match step
    case Begin(goal) => StartedNamed(c, w, goal);
    case ReadArrives(i) => ArrivalPartsExactly(c, w.cell, w.tasks[i].read);
    case Proceed(_, _) => ActedPublishes(c, w, step);
  }

  lemma StartedNamed(c: Config, w: World, goal: Goal)
    requires AllNamed(c, w)
    ensures AllNamed(c, Started(c, w, goal)) && (Mirrors(c, Started(c, w, goal).cell) <==> Mirrors(c, w.cell))
  {
    hide Entitled, Prune;
  }

  /**
   * The last read or publication of the run was the arrival of a stale read. What a stretch of steps does
   * after it without publishing or reading does not matter.
   */
  predicate LastlyStale(c: Config, start: Stored, steps: seq<Step>) {
    steps != [] &&
    var w, last := After(c, start, steps[..|steps| - 1]), steps[|steps| - 1];
    if !Enabled(w, last) then LastlyStale(c, start, steps[..|steps| - 1])
    else if last.ReadArrives? then Stale(c, w.cell, w.tasks[last.i].read)
    else !Publishes(c, w, last) && LastlyStale(c, start, steps[..|steps| - 1])
  }

  /** Over every run with a store that works: memory and store part if and only if a stale read came last. */
  lemma {:induction false} PartedExactly(c: Config, start: Stored, steps: seq<Step>)
    requires forall n :: c.host.works(n)
    requires Untampered(steps)
    ensures AllNamed(c, After(c, start, steps))
    ensures !Mirrors(c, After(c, start, steps).cell) <==> LastlyStale(c, start, steps)
    decreases |steps|
  {
    hide Next, Enabled, AllNamed, Mirrors, Stale, Publishes;
    if steps == [] {
      NothingParted(c, start);
    } else {
      var most, last := steps[..|steps| - 1], steps[|steps| - 1];
      PartedExactly(c, start, most);
      var w := After(c, start, most);
      if Enabled(w, last) {
        StepPartsExactly(c, w, last);
      }
    }
  }

  lemma NothingParted(c: Config, start: Stored)
    ensures AllNamed(c, After(c, start, [])) && Mirrors(c, After(c, start, []).cell)
  {
  }

  /**
   * Such runs exist. A refresh and a lookup both start by reading and the store answers in the order it
   * was asked; the refresh publishes in between, and the lookup's old document takes the overlay back while
   * the store keeps the new one.
   */
  lemma StaleReadParts(c: Config, network: Network, stale: Overlay, recent: Overlay, name: string)
    requires forall n :: c.host.works(n)
    requires c.remote && WellKept(c, stale) && WellKept(c, recent) && stale != recent
    requires network.manifest.Some? && Distinct(network.manifest.value.blueprints)
    requires Refreshed(c, stale, network).0 == Some(recent)
    ensures var steps := [Begin(ToRefresh), Begin(ToLookup(name)), ReadArrives(0), Proceed(0, network), ReadArrives(1)];
      var w := After(c, Encoded(stale), steps);
      w.cell.overlay == Some(stale) && Prune(c, Usable(w.cell.stored)) == recent && !Mirrors(c, w.cell)
  {
    hide Refreshed, Encoded, Usable, Entitled, WellKept, Prune, After;
    EncodedIsUsable(c, stale);
    EncodedIsUsable(c, recent);
    UsableEncoded(c, stale);
    var a, b, d, e, f := Begin(ToRefresh), Begin(ToLookup(name)), ReadArrives(0), Proceed(0, network), ReadArrives(1);
    var start := Encoded(stale);
    var w0 := World(Cell(None, start, 0), [], []);
    AtFirst(c, start);
    var w1 := Next(c, w0, a);
    Extend(c, start, [], a, w0);
    assert [] + [a] == [a];
    assert w1.tasks == [Reading(stale, ToRefresh)];
    var w2 := Next(c, w1, b);
    Extend(c, start, [a], b, w1);
    assert w2.tasks == [Reading(stale, ToRefresh), Reading(stale, ToLookup(name))];
    assert [a] + [b] == [a, b];
    var w3 := Next(c, w2, d);
    Extend(c, start, [a, b], d, w2);
    assert [a, b] + [d] == [a, b, d];
    var w4 := Next(c, w3, e);
    Extend(c, start, [a, b, d], e, w3);
    assert [a, b, d] + [e] == [a, b, d, e];
    assert w4.cell.overlay == Some(recent) && w4.cell.stored == Encoded(recent);
    Extend(c, start, [a, b, d, e], f, w4);
    assert [a, b, d, e] + [f] == [a, b, d, e, f];
  }

  lemma AtFirst(c: Config, start: Stored)
    ensures After(c, start, []) == World(Cell(None, start, 0), [], [])
  {
  }

  /** So it goes for any stored overlay when the manifest announces nothing any more. */
  lemma EmptiedManifestParts(c: Config, overlay: Overlay, name: string, now: string)
    requires forall n :: c.host.works(n)
    requires c.remote && WellKept(c, overlay) && overlay != map[]
    ensures exists steps :: !Mirrors(c, After(c, Encoded(overlay), steps).cell)
  {
    var network := Network(Some(Manifest(false, [])), _ => None, now);
    StaleReadParts(c, network, overlay, map[], name);
  }

  lemma Extend(c: Config, start: Stored, steps: seq<Step>, step: Step, w: World)
    requires After(c, start, steps) == w && Enabled(w, step)
    ensures After(c, start, steps + [step]) == Next(c, w, step)
  {
    hide Next, Enabled;
    assert (steps + [step])[..|steps|] == steps;
  }

  lemma UsableEncoded(c: Config, overlay: Overlay)
    requires WellKept(c, overlay)
    ensures Usable(Encoded(overlay)) == overlay && Prune(c, overlay) == overlay
  {
  }
}
