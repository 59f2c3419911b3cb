/**
 * What a refresh may bring in, said of the manifest and of the network alone: a text is taken only under the digest
 * its manifest announced, and whatever is ever served can be traced to such a text or to the stored document.
 */
module DeliveryLaws {
  import opened Common
  import opened Tables
  import opened Delivery
  import opened Registry
  import opened RegistryRuns
  import opened Utf8
  import Versions

  // ---- One entry of a manifest -----------------------------------------------

  /** The entry holds what the manifest announced, over a text that has the announced digest. */
  predicate Announced(entry: ManifestEntry, cached: Cached) {
    && cached.version == entry.version
    && cached.sha256 == entry.sha256
    && cached.minEngine == (if entry.minEngine.Some? then Version(entry.minEngine.value) else Unset)
    && Intact(cached.text, entry.sha256)
  }

  /** The same, downloaded in this refresh and put under its name. */
  predicate Downloaded(network: Network, name: string, entry: ManifestEntry, cached: Cached) {
    && Announced(entry, cached)
    && network.text(name) == Some(cached.text)
    && cached.name == name && cached.fetchedAt == network.now
  }

  predicate TooNewFor(c: Config, entry: ManifestEntry) {
    entry.minEngine.Some? && Versions.CompareTexts(entry.minEngine.value, c.engineVersion, c.host.number) > 0
  }

  predicate NoNewer(c: Config, name: string, entry: ManifestEntry) {
    var b := Find(c.bundled, name);
    b.Some? && Versions.CompareTexts(entry.version, b.value.version, c.host.number) <= 0
  }

  /** A name with a bundled version may ask for the allowed secrets, one without for those of the reserved prefix. */
  predicate MayAsk(c: Config, name: string, secret: string) {
    if Find(c.bundled, name).Some? then secret in c.allowed
    else c.scope.Some? && secret in c.scope.value.secrets
  }

  predicate Unchanged(previous: Overlay, name: string, entry: ManifestEntry) {
    name in previous && previous[name].version == entry.version && previous[name].sha256 == entry.sha256
  }

  /** What the line of one entry says, first reason first. */
  function Judged(c: Config, previous: Overlay, network: Network, off: bool, name: string, entry: ManifestEntry)
    : (Outcome, Option<Why>)
  {
    if !Entitled(c, name) then (Ignored, Some(OutsideApplication))
    else if off || entry.disabled then (Ignored, Some(Disabled))
    else if Unchanged(previous, name, entry) then (Kept, None)
    else if TooNewFor(c, entry) then (Ignored, Some(NeedsEngine))
    else if NoNewer(c, name, entry) then (Ignored, Some(NotNewer))
    else
      match network.text(name)
      case None => (Rejected, Some(Unreachable))
      case Some(text) =>
        if !Intact(text, entry.sha256) then (Rejected, Some(Integrity))
        else
          match c.host.parse(text)
          case None => (Rejected, Some(Invalid))
          case Some(document) =>
            if document.name != name then (Rejected, Some(WrongName))
            else if !AsksOnlyAllowed(c, name, document) then (Rejected, Some(ForeignSecrets))
            else (Updated, None)
  }

  predicate AsksOnlyAllowed(c: Config, name: string, document: Document) {
    forall i :: 0 <= i < |document.secrets| ==> MayAsk(c, name, document.secrets[i])
  }

  lemma TreatJudges(c: Config, previous: Overlay, network: Network, off: bool, name: string, entry: ManifestEntry)
    ensures var (treated, line) := Treat(c, previous, network, off, name, entry);
      var (outcome, why) := Judged(c, previous, network, off, name, entry);
      && line == Line(name, outcome, why)
      && (outcome == Updated ==> treated.Some? && Downloaded(network, name, entry, treated.value))
      && (outcome != Updated && why != Some(OutsideApplication) && why != Some(Disabled) ==>
            treated == At(previous, name))
      && (why == Some(OutsideApplication) || why == Some(Disabled) ==> treated == None)
  {
    hide Versions.CompareTexts, Intact, Entitled;
    if network.text(name).Some? && c.host.parse(network.text(name).value).Some? {
      SecretsAsked(c, name, c.host.parse(network.text(name).value).value);
    }
  }

  lemma SecretsAsked(c: Config, name: string, document: Document)
    ensures AsksOnlyAllowed(c, name, document) <==>
      forall i :: 0 <= i < |document.secrets| ==> document.secrets[i] in BoundsOf(c, name).allowedSecrets
  {
  }

  // ---- A whole refresh -------------------------------------------------------

  predicate Reads(c: Config, network: Network) {
    c.remote && network.manifest.Some? && Distinct(network.manifest.value.blueprints)
  }

  /** The `k`-th line is about the `k`-th entry; it says `updated` only of a text with the announced digest. */
  lemma LinesJudge(c: Config, previous: Overlay, network: Network, k: nat)
    requires Reads(c, network) && k < |network.manifest.value.blueprints|
    ensures var manifest := network.manifest.value;
      var (name, entry) := manifest.blueprints[k];
      var (kept, report) := Refreshed(c, previous, network);
      && kept.Some? && report.Done? && |report.lines| == |manifest.blueprints|
      && var (outcome, why) := Judged(c, previous, network, manifest.disabled, name, entry);
         && report.lines[k] == Line(name, outcome, why)
         && (outcome == Updated ==> name in kept.value && Downloaded(network, name, entry, kept.value[name]))
  {
    hide Treat, Judged, Downloaded, Pass, Fate;
    var manifest := network.manifest.value;
    var (name, entry) := manifest.blueprints[k];
    PassLines(c, previous, network, manifest.disabled, manifest.blueprints, map[], []);
    assert 0 + k == k;
    FindDistinct(manifest.blueprints, k);
    PassAt(c, previous, network, manifest.disabled, manifest.blueprints, map[], [], name);
    TreatJudges(c, previous, network, manifest.disabled, name, entry);
  }

  /** What a refresh may leave under a name: nothing, what was there, or what the manifest announced. */
  ghost predicate Left(c: Config, previous: Overlay, network: Network, name: string, after: Option<Cached>)
    requires network.manifest.Some?
  {
    var manifest := network.manifest.value;
    match Find(manifest.blueprints, name)
    case None => after.None?
    case Some(entry) =>
      if !Entitled(c, name) || manifest.disabled || entry.disabled then after.None?
      else if Judged(c, previous, network, false, name, entry).0 == Updated then
        after.Some? && Downloaded(network, name, entry, after.value)
      else after == At(previous, name)
  }

  lemma RefreshLeaves(c: Config, previous: Overlay, network: Network, name: string)
    requires Reads(c, network)
    ensures Refreshed(c, previous, network).0.Some?
    ensures Left(c, previous, network, name, At(Refreshed(c, previous, network).0.value, name))
  {
    hide Treat, Downloaded, Pass, Intact, Versions.CompareTexts;
    var manifest := network.manifest.value;
    PassAt(c, previous, network, manifest.disabled, manifest.blueprints, map[], [], name);
    if Find(manifest.blueprints, name).Some? {
      TreatJudges(c, previous, network, manifest.disabled, name, Find(manifest.blueprints, name).value);
    }
  }

  /**
   * What is served right after a refresh: the text the manifest announced, with its version, digest and minimum engine,
   * or the very entry that was there before, for a name the manifest still announces.
   */
  lemma ServedAfterRefresh(c: Config, network: Network, cell: Cell, name: string)
    requires Reads(c, network)
    ensures var manifest := network.manifest.value;
      var before := Load(c, cell).overlay.value;
      var answer := RemoteAnswer(c, name, RefreshCell(c, network, cell));
      answer.Served? ==>
        && Find(manifest.blueprints, name).Some?
        && var entry := Find(manifest.blueprints, name).value;
           && !manifest.disabled && !entry.disabled
           && (Downloaded(network, name, entry, answer.entry) || (name in before && before[name] == answer.entry))
           && (Judged(c, before, network, false, name, entry).0 == Updated ==>
                 Downloaded(network, name, entry, answer.entry))
           && (Unchanged(before, name, entry) ==> answer.entry.sha256 == entry.sha256)
  {
    hide Verify, BoundsOf, Refreshed, Load, Downloaded, Entitled, Intact, TooNewFor, NoNewer, AsksOnlyAllowed;
    RefreshLeaves(c, Load(c, cell).overlay.value, network, name);
    LoadedStays(c, RefreshCell(c, network, cell));
  }

  // ---- Every run -------------------------------------------------------------

  /** The stored document has the entry under some name. */
  predicate Holds(stored: Stored, cached: Cached) {
    stored.Saved? && exists name :: name in stored.entries && stored.entries[name] == Entry(cached)
  }

  /** A manifest read at this step announced the entry, and the network served its text. */
  predicate BroughtBy(step: Step, cached: Cached) {
    && step.Proceed? && step.network.manifest.Some?
    && var entry := Find(step.network.manifest.value.blueprints, cached.name);
       && entry.Some? && !entry.value.disabled && !step.network.manifest.value.disabled
       && Downloaded(step.network, cached.name, entry.value, cached)
  }

  /** Where an entry may come from: the document first found, one written by others, or a refresh of this run. */
  ghost predicate Comes(start: Stored, steps: seq<Step>, cached: Cached) {
    || Holds(start, cached)
    || exists k :: 0 <= k < |steps|
         && ((steps[k].Tamper? && Holds(steps[k].stored, cached)) || BroughtBy(steps[k], cached))
  }

  ghost predicate AllCome(start: Stored, steps: seq<Step>, overlay: Overlay) {
    forall name :: name in overlay ==> Comes(start, steps, overlay[name])
  }

  ghost predicate Traced(start: Stored, steps: seq<Step>, w: World) {
    && (w.cell.overlay.Some? ==> AllCome(start, steps, w.cell.overlay.value))
    && AllCome(start, steps, Usable(w.cell.stored))
    && (forall i :: 0 <= i < |w.tasks| ==> TaskComes(start, steps, w.tasks[i]))
    && forall k :: 0 <= k < |w.served| ==> Comes(start, steps, w.served[k].entry)
  }

  ghost predicate TaskComes(start: Stored, steps: seq<Step>, task: Task) {
    match task
    case Reading(read, _) => AllCome(start, steps, read)
    case Holding(entries, _) => AllCome(start, steps, entries)
    case Over => true
  }

  lemma ComesLater(start: Stored, steps: seq<Step>, step: Step, cached: Cached)
    requires Comes(start, steps, cached)
    ensures Comes(start, steps + [step], cached)
  {
    hide Holds, BroughtBy;
    if !Holds(start, cached) {
      var k :| 0 <= k < |steps|
        && ((steps[k].Tamper? && Holds(steps[k].stored, cached)) || BroughtBy(steps[k], cached));
      assert (steps + [step])[k] == steps[k];
    }
  }

  lemma TracedLater(start: Stored, steps: seq<Step>, step: Step, w: World)
    requires Traced(start, steps, w)
    ensures Traced(start, steps + [step], w)
  {
    hide Comes, Usable;
    forall cached | Comes(start, steps, cached) ensures Comes(start, steps + [step], cached) {
      ComesLater(start, steps, step, cached);
    }
  }

  lemma UsableOf(stored: Stored, name: string)
    requires name in Usable(stored)
    ensures Holds(stored, Usable(stored)[name])
  {
  }

  lemma HeldComes(start: Stored, steps: seq<Step>)
    ensures AllCome(start, steps, Usable(start))
    ensures forall k :: 0 <= k < |steps| && steps[k].Tamper? ==> AllCome(start, steps, Usable(steps[k].stored))
  {
    hide Holds, Usable;
    forall name | name in Usable(start) ensures Holds(start, Usable(start)[name]) {
      UsableOf(start, name);
    }
    forall k, name | 0 <= k < |steps| && steps[k].Tamper? && name in Usable(steps[k].stored)
      ensures Holds(steps[k].stored, Usable(steps[k].stored)[name])
    {
      UsableOf(steps[k].stored, name);
    }
  }

  lemma EncodedComes(start: Stored, steps: seq<Step>, overlay: Overlay)
    requires AllCome(start, steps, overlay)
    ensures AllCome(start, steps, Usable(Encoded(overlay)))
  {
    hide Comes;
  }

  lemma PublishComes(c: Config, start: Stored, steps: seq<Step>, cell: Cell, overlay: Overlay)
    requires AllCome(start, steps, overlay) && AllCome(start, steps, Usable(cell.stored))
    ensures var after := Publish(c, cell, overlay);
      after.overlay == Some(overlay) && AllCome(start, steps, Usable(after.stored))
  {
    hide Comes, Usable, Encoded;
    EncodedComes(start, steps, overlay);
  }

  lemma ArriveComes(c: Config, start: Stored, steps: seq<Step>, cell: Cell, read: Overlay)
    requires AllCome(start, steps, read) && AllCome(start, steps, Usable(cell.stored))
    ensures var after := Arrive(c, cell, read);
      AllCome(start, steps, after.overlay.value) && AllCome(start, steps, Usable(after.stored))
  {
    hide Comes, Usable, Encoded, Publish;
    PublishComes(c, start, steps, cell, Prune(c, read));
  }

  lemma RefreshedComes(c: Config, start: Stored, steps: seq<Step>, entries: Overlay, k: nat)
    requires k < |steps| && steps[k].Proceed? && AllCome(start, steps, entries)
    requires steps[k].network.manifest.Some? ==> Distinct(steps[k].network.manifest.value.blueprints)
    ensures var kept := Refreshed(c, entries, steps[k].network).0;
      kept.Some? ==> AllCome(start, steps, kept.value)
  {
    hide Refreshed, Downloaded, Judged, Holds, Entitled;
    var network := steps[k].network;
    RefreshedOnlyIfRead(c, entries, network);
    var kept := Refreshed(c, entries, network).0;
    if kept.Some? {
      forall name | name in kept.value ensures Comes(start, steps, kept.value[name]) {
        RefreshLeaves(c, entries, network, name);
        var entry := Find(network.manifest.value.blueprints, name).value;
        if Judged(c, entries, network, false, name, entry).0 == Updated {
          DownloadedUnderItsName(network, name, entry, kept.value[name]);
          assert BroughtBy(steps[k], kept.value[name]);
        }
      }
    }
  }

  lemma DownloadedUnderItsName(network: Network, name: string, entry: ManifestEntry, cached: Cached)
    requires Downloaded(network, name, entry, cached)
    ensures cached.name == name
  {
  }

  lemma ActedTraced(c: Config, start: Stored, steps: seq<Step>, w: World, entries: Overlay, goal: Goal, k: nat)
    requires Traced(start, steps, w) && AllCome(start, steps, entries) && k < |steps| && steps[k].Proceed?
    requires steps[k].network.manifest.Some? ==> Distinct(steps[k].network.manifest.value.blueprints)
    ensures Traced(start, steps, Acted(c, w, entries, goal, steps[k].network))
  {
    hide Comes, Usable, Publish, Refreshed, TaskComes, Verify, BoundsOf;
    match goal
    case ToLookup(name) => PublishComes(c, start, steps, w.cell, entries - {name});
    case ToRefresh =>
      RefreshedComes(c, start, steps, entries, k);
      var kept := Refreshed(c, entries, steps[k].network).0;
      if kept.Some? {
        PublishComes(c, start, steps, w.cell, kept.value);
      }
    case ToRevert(which) =>
      PublishComes(c, start, steps, w.cell, if which.Some? then entries - {which.value} else map[]);
  }

  lemma StartedTraced(c: Config, start: Stored, steps: seq<Step>, w: World, goal: Goal)
    requires Traced(start, steps, w)
    ensures Traced(start, steps, Started(c, w, goal))
  {
    hide Comes, Usable;
  }

  lemma TakenTraced(c: Config, start: Stored, steps: seq<Step>, w: World, k: nat)
    requires Traced(start, steps, w) && k < |steps| && Enabled(w, steps[k])
    ensures Traced(start, steps, Next(c, w, steps[k]))
  {
    hide Comes, Usable, Started, Acted, Arrive;
    match steps[k]
    case Begin(goal) => StartedTraced(c, start, steps, w, goal);
    case ReadArrives(i) => ArriveComes(c, start, steps, w.cell, w.tasks[i].read);
    case Proceed(i, network) =>
      ActedTraced(c, start, steps, w.(tasks := w.tasks[i := Over]), w.tasks[i].entries, w.tasks[i].goal, k);
    case Tamper(stored) => HeldComes(start, steps);
  }

  /**
   * In every run, whatever is written behind the registry's back and however operations interleave: each entry served,
   * each entry remembered, comes from a stored document, or from a refresh of the run whose manifest announced its
   * version, its minimum engine and the digest its text has.
   */
  lemma {:induction false} EveryServingHasAnOrigin(c: Config, start: Stored, steps: seq<Step>)
    ensures Traced(start, steps, After(c, start, steps))
    decreases |steps|
  {
    hide Traced, Next, Enabled;
    if steps == [] {
      NothingServed(c, start);
    } else {
      var n := |steps| - 1;
      var w := After(c, start, steps[..n]);
      EveryServingHasAnOrigin(c, start, steps[..n]);
      TracedLater(start, steps[..n], steps[n], w);
      assert steps[..n] + [steps[n]] == steps;
      if Enabled(w, steps[n]) {
        TakenTraced(c, start, steps, w, n);
      }
    }
  }

  lemma NothingServed(c: Config, start: Stored)
    ensures Traced(start, [], World(Cell(None, start, 0), [], []))
  {
    HeldComes(start, []);
  }

  // ---- Resolving -------------------------------------------------------------

  /** What resolving answers, from the entry remembered under the name and the bundled version. */
  lemma ResolvesExactly(c: Config, name: string, cell: Cell)
    requires AllEntitled(c, Load(c, cell).overlay.value)
    ensures
      var entries := Load(c, cell).overlay.value;
      var answer := ResolutionOf(c, name, RemoteAnswer(c, name, cell));
      && (forall version, document :: answer == FromRemote(version, document) <==>
            c.remote && name in entries && entries[name].version == version
            && Guarded(c, name, entries[name], document))
      && (answer == Crashed <==> c.remote && Jams(entries, name))
      && (!answer.FromRemote? && answer != Crashed ==>
            match Find(c.bundled, name)
            case None => answer == UnknownName
            case Some(b) =>
              answer == if b.document.Some? then FromBundle(b.version, b.document.value) else BrokenBundle)
  {
    hide Verify, Load, BoundsOf, Entitled, Guarded, Intact;
    var entries := Load(c, cell).overlay.value;
    FailsOnJammed(c, name, entries);
    if name in entries {
      var verdict := Verify(c, name, entries[name], BoundsOf(c, name));
      forall document
        ensures verdict == Accepted(document) <==> Guarded(c, name, entries[name], document)
      {
        AcceptedIsGuarded(c, name, entries[name], document);
      }
    }
  }

  /** After a revert the name, or every name, resolves to its bundled version; other names answer as before. */
  lemma RevertForgets(c: Config, which: Option<string>, cell: Cell, name: string)
    ensures var after := RevertCell(c, which, cell);
      if which.None? || which == Some(name) then RemoteAnswer(c, name, after) == Absent
      else RemoteAnswer(c, name, after) == RemoteAnswer(c, name, cell)
  {
    hide Verify, Load, BoundsOf;
    LoadedStays(c, RevertCell(c, which, cell));
  }
}
