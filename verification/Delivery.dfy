/** What a remote Blueprint must pass, what a refresh keeps, and what the device remembers. */
module Delivery {
  import opened Common
  import opened Tables
  import opened Utf8
  import Versions
  import Sha256Spec

  /** A parsed Blueprint that this engine can run, as far as the delivery looks at it. */
  datatype Document = Document(name: string, secrets: seq<string>, body: Text)

  /** A bundled entry: what its raw document declares, and the Blueprint it validates to, if it does. */
  datatype Bundled = Bundled(version: string, declaredName: Option<string>, declaredSecrets: set<string>,
                             document: Option<Document>)

  datatype Scope = Scope(prefix: string, secrets: set<string>)

  /** `allowNew` as written: `None` stands for a value of the wrong type. */
  datatype AllowNew = NotAsked | Asked(prefix: Option<string>, secrets: Option<set<string>>)

  datatype Host = Host(number: Versions.Reading, parse: Text -> Option<Document>, works: nat -> bool)

  datatype Config = Config(
    bundled: Table<Bundled>, allowed: set<string>, scope: Option<Scope>, remote: bool, engineVersion: string, host: Host)

  datatype ConfigError = MisnamedBundle(name: string) | BadPrefix | PrefixWithoutDot | BadSecrets

  // Configuration.

  function Misnamed(bundled: Table<Bundled>): Option<string> {
    if bundled == [] then None
    else
      var entry := bundled[0];
      if entry.1.declaredName.Some? && entry.1.declaredName.value != entry.0 then Some(entry.0)
      else Misnamed(bundled[1..])
  }

  function BundledSecrets(bundled: Table<Bundled>): set<string> {
    if bundled == [] then {} else bundled[0].1.declaredSecrets + BundledSecrets(bundled[1..])
  }

  function ResolveScope(declared: AllowNew): Result<Option<Scope>, ConfigError> {
    match declared
    case NotAsked => Ok(None)
    case Asked(prefix, secrets) =>
      if prefix.None? || prefix.value == "" then Err(BadPrefix)
      else if prefix.value[|prefix.value| - 1] != '.' then Err(PrefixWithoutDot)
      else if secrets.None? then Err(BadSecrets)
      else Ok(Some(Scope(prefix.value, secrets.value)))
  }

  function Configure(bundled: Table<Bundled>, allowedSecrets: Option<set<string>>, allowNew: AllowNew, remote: bool,
                     engineVersion: string, host: Host): Result<Config, ConfigError> {
    var misnamed := Misnamed(bundled);
    if misnamed.Some? then Err(MisnamedBundle(misnamed.value))
    else
      var scope :- ResolveScope(allowNew);
      var allowed := if allowedSecrets.Some? then allowedSecrets.value else BundledSecrets(bundled);
      Ok(Config(bundled, allowed, scope, remote, engineVersion, host))
  }

  predicate HonestlyNamed(bundled: Table<Bundled>) {
    forall i :: 0 <= i < |bundled| ==>
      bundled[i].1.declaredName.None? || bundled[i].1.declaredName.value == bundled[i].0
  }

  lemma {:induction false} MisnamedExactly(bundled: Table<Bundled>)
    ensures Misnamed(bundled).None? <==> HonestlyNamed(bundled)
  {
    if bundled != [] {
      MisnamedExactly(bundled[1..]);
      assert forall i :: 0 <= i < |bundled[1..]| ==> bundled[1..][i] == bundled[i + 1];
      assert HonestlyNamed(bundled) ==> HonestlyNamed(bundled[1..]);
    }
  }

  lemma {:induction false} BundledSecretsExactly(bundled: Table<Bundled>, secret: string)
    ensures secret in BundledSecrets(bundled) <==>
            exists i :: 0 <= i < |bundled| && secret in bundled[i].1.declaredSecrets
  {
    if bundled != [] {
      BundledSecretsExactly(bundled[1..], secret);
      assert forall i :: 0 <= i < |bundled[1..]| ==> bundled[1..][i] == bundled[i + 1];
      if i :| 0 <= i < |bundled| && secret in bundled[i].1.declaredSecrets {
        assert i == 0 || secret in bundled[1..][i - 1].1.declaredSecrets;
      }
    }
  }

  predicate NamesANamespace(allowNew: AllowNew)
    requires allowNew.Asked?
  {
    && allowNew.secrets.Some? && allowNew.prefix.Some? && allowNew.prefix.value != ""
    && allowNew.prefix.value[|allowNew.prefix.value| - 1] == '.'
  }

  /**
   * A registry exists exactly when no bundled key lies about its document and the reserved prefix, if any,
   * names a namespace with its secrets written out. Unless the application says otherwise, an update may
   * declare just the secrets some bundled document declares.
   */
  lemma ConfiguredExactly(bundled: Table<Bundled>, allowedSecrets: Option<set<string>>, allowNew: AllowNew, remote: bool,
                          engineVersion: string, host: Host)
    ensures var r := Configure(bundled, allowedSecrets, allowNew, remote, engineVersion, host);
      && (r.Ok? <==> HonestlyNamed(bundled) && (allowNew.Asked? ==> NamesANamespace(allowNew)))
      && (r.Ok? ==> (r.value.scope.None? <==> allowNew.NotAsked?))
      && (r.Ok? && allowNew.Asked? ==> r.value.scope.value == Scope(allowNew.prefix.value, allowNew.secrets.value))
      && (r.Ok? && allowedSecrets.None? ==> forall secret :: secret in r.value.allowed <==>
            exists i :: 0 <= i < |bundled| && secret in bundled[i].1.declaredSecrets)
  {
    hide Misnamed, BundledSecrets, HonestlyNamed;
    MisnamedExactly(bundled);
    forall secret
      ensures secret in BundledSecrets(bundled) <==>
              exists i :: 0 <= i < |bundled| && secret in bundled[i].1.declaredSecrets
    {
      BundledSecretsExactly(bundled, secret);
    }
  }

  predicate Covers(scope: Option<Scope>, name: string) {
    scope.Some? && scope.value.prefix <= name
  }

  /** A name that may be served at all: bundled, or under the reserved prefix. */
  predicate Entitled(c: Config, name: string) {
    Find(c.bundled, name).Some? || Covers(c.scope, name)
  }

  datatype Bounds = Bounds(bundledVersion: Option<string>, allowedSecrets: set<string>)

  /** The name alone decides: a bundled name keeps the bundle's rules even under the prefix. */
  function BoundsOf(c: Config, name: string): Bounds {
    match Find(c.bundled, name)
    case Some(b) => Bounds(Some(b.version), c.allowed)
    case None => Bounds(None, if c.scope.Some? then c.scope.value.secrets else {})
  }

  // Verification.

  /** The cache may hold anything where the manifest holds a version. */
  datatype MinEngine = Unset | Version(text: string) | NotText

  datatype Cached = Cached(name: string, version: string, sha256: string, text: Text, minEngine: MinEngine,
                           fetchedAt: string)

  datatype Why =
    | Integrity | NeedsEngine | NotNewer | Invalid | WrongName | ForeignSecrets
    | OutsideApplication | Disabled | Unreachable

  datatype Outcome = Updated | Kept | Ignored | Rejected

  datatype Verdict = Accepted(document: Document) | Refused(outcome: Outcome, why: Why) | Threw

  /** The guards a manifest entry suffices to judge: engine first, then the bundled version. */
  function VerifyBounds(c: Config, version: string, minEngine: MinEngine, bounds: Bounds): Option<Verdict> {
    if minEngine.NotText? then Some(Threw)
    else if minEngine.Version? && Versions.CompareTexts(minEngine.text, c.engineVersion, c.host.number) > 0 then
      Some(Refused(Ignored, NeedsEngine))
    else if bounds.bundledVersion.Some?
            && Versions.CompareTexts(version, bounds.bundledVersion.value, c.host.number) <= 0 then
      Some(Refused(Ignored, NotNewer))
    else None
  }

  predicate Intact(text: Text, sha256: string) {
    Sha256Spec.HexDigest(EncodeText(text)) == sha256
  }

  function Verify(c: Config, name: string, entry: Cached, bounds: Bounds): Verdict {
    if !Intact(entry.text, entry.sha256) then Refused(Rejected, Integrity)
    else
      var bounded := VerifyBounds(c, entry.version, entry.minEngine, bounds);
      if bounded.Some? then bounded.value
      else
        match c.host.parse(entry.text)
        case None => Refused(Rejected, Invalid)
        case Some(document) =>
          if document.name != name then Refused(Rejected, WrongName)
          else if exists i :: 0 <= i < |document.secrets| && document.secrets[i] !in bounds.allowedSecrets then
            Refused(Rejected, ForeignSecrets)
          else Accepted(document)
  }

  /** Everything a served document has passed, whatever the cache or the network said about it. */
  predicate Guarded(c: Config, name: string, entry: Cached, document: Document) {
    && Entitled(c, name)
    && Intact(entry.text, entry.sha256)
    && c.host.parse(entry.text) == Some(document)
    && document.name == name
    && (entry.minEngine.Unset?
        || (entry.minEngine.Version?
            && Versions.CompareTexts(entry.minEngine.text, c.engineVersion, c.host.number) <= 0))
    && (match Find(c.bundled, name)
        case Some(b) =>
          && Versions.CompareTexts(entry.version, b.version, c.host.number) > 0
          && forall i :: 0 <= i < |document.secrets| ==> document.secrets[i] in c.allowed
        case None =>
          forall i :: 0 <= i < |document.secrets| ==> document.secrets[i] in c.scope.value.secrets)
  }

  /** The guards, read as a condition: an entitled entry is accepted exactly when it passes them all. */
  lemma AcceptedIsGuarded(c: Config, name: string, entry: Cached, document: Document)
    requires Entitled(c, name)
    ensures Verify(c, name, entry, BoundsOf(c, name)) == Accepted(document) <==> Guarded(c, name, entry, document)
  {
    hide Versions.CompareTexts, Intact;
  }

  /** A stored entry whose minimum engine is no text stops every resolution instead of being purged. */
  lemma ThrowsExactlyWhen(c: Config, name: string, entry: Cached, bounds: Bounds)
    ensures Verify(c, name, entry, bounds) == Threw <==> Intact(entry.text, entry.sha256) && entry.minEngine.NotText?
  {
    hide Versions.CompareTexts, Intact;
  }

  // The overlay and its document in the store.

  type Overlay = map<string, Cached>

  datatype RawEntry = Junk | Entry(cached: Cached)

  /** What the store holds under the key: nothing, what no reader understands, or a cache document. */
  datatype Stored = Nothing | Unreadable | Saved(entries: map<string, RawEntry>)

  /** The memory of one registry over its store; `uses` counts the calls made to the store. */
  datatype Cell = Cell(overlay: Option<Overlay>, stored: Stored, uses: nat)

  function Usable(stored: Stored): (r: Overlay)
    ensures forall n :: n in r ==> r[n].name == n
  {
    if !stored.Saved? then map[]
    else
      var e := stored.entries;
      map n | n in e && e[n].Entry? && e[n].cached.name == n :: e[n].cached
  }

  function Prune(c: Config, entries: Overlay): (r: Overlay)
    ensures forall n :: n in r <==> n in entries && Entitled(c, n)
    ensures forall n :: n in r ==> r[n] == entries[n]
  {
    map n | n in entries && Entitled(c, n) :: entries[n]
  }

  function Encoded(overlay: Overlay): Stored {
    if overlay == map[] then Nothing else Saved(map n | n in overlay :: Entry(overlay[n]))
  }

  /** A store that fails reads as empty, and a write that fails is silent. */
  function ReadCache(c: Config, cell: Cell): Overlay {
    if c.host.works(cell.uses) then Usable(cell.stored) else map[]
  }

  function WriteCache(c: Config, cell: Cell, overlay: Overlay): Cell {
    cell.(stored := if c.host.works(cell.uses) then Encoded(overlay) else cell.stored, uses := cell.uses + 1)
  }

  /** The overlay becomes `overlay`, and the store is told. */
  function Publish(c: Config, cell: Cell, overlay: Overlay): Cell {
    WriteCache(c, cell.(overlay := Some(overlay)), overlay)
  }

  /** What the arrival of a document read earlier does, whatever the overlay has become since. */
  function Arrive(c: Config, cell: Cell, read: Overlay): (r: Cell)
    ensures r.overlay == Some(Prune(c, read))
  {
    var kept := Prune(c, read);
    if kept != read then Publish(c, cell, kept) else cell.(overlay := Some(kept))
  }

  /** The entries held in memory, read from the store the first time. */
  function Load(c: Config, cell: Cell): (r: Cell)
    ensures r.overlay.Some?
  {
    if cell.overlay.Some? then cell else Arrive(c, cell.(uses := cell.uses + 1), ReadCache(c, cell))
  }

  // One lookup against the entries it was given.

  datatype Answer = Absent | Served(entry: Cached, document: Document) | Purged | Failed

  function Lookup(c: Config, name: string, entries: Overlay): Answer {
    if !c.remote || name !in entries then Absent
    else
      match Verify(c, name, entries[name], BoundsOf(c, name))
      case Accepted(document) => Served(entries[name], document)
      case Refused(_, _) => Purged
      case Threw => Failed
  }

  function AfterLookup(c: Config, name: string, entries: Overlay, cell: Cell): Cell {
    if Lookup(c, name, entries) == Purged then Publish(c, cell, entries - {name}) else cell
  }

  // A pass over the manifest.

  datatype ManifestEntry = ManifestEntry(version: string, sha256: string, minEngine: Option<string>, disabled: bool)

  datatype Manifest = Manifest(disabled: bool, blueprints: Table<ManifestEntry>)

  /** The network at one refresh: the manifest if it could be read, and the text served for each name. */
  datatype Network = Network(manifest: Option<Manifest>, text: string -> Option<Text>, now: string)

  datatype Line = Line(name: string, outcome: Outcome, why: Option<Why>)

  function Fresh(name: string, entry: ManifestEntry, text: Text, now: string): Cached {
    Cached(name, entry.version, entry.sha256, text,
      if entry.minEngine.Some? then Version(entry.minEngine.value) else Unset, now)
  }

  function MinEngineOf(entry: ManifestEntry): MinEngine {
    if entry.minEngine.Some? then Version(entry.minEngine.value) else Unset
  }

  /** The outcome of one manifest entry, and what stands under its name afterwards. */
  function Treat(c: Config, previous: Overlay, network: Network, off: bool, name: string, entry: ManifestEntry)
    : (Option<Cached>, Line)
  {
    var known := if name in previous then Some(previous[name]) else None;
    if !Entitled(c, name) then (None, Line(name, Ignored, Some(OutsideApplication)))
    else if off || entry.disabled then (None, Line(name, Ignored, Some(Disabled)))
    else if known.Some? && known.value.version == entry.version && known.value.sha256 == entry.sha256 then
      (known, Line(name, Kept, None))
    else
      match VerifyBounds(c, entry.version, MinEngineOf(entry), BoundsOf(c, name))
      case Some(Refused(outcome, why)) => (known, Line(name, outcome, Some(why)))
      case _ =>
        match network.text(name)
        case None => (known, Line(name, Rejected, Some(Unreachable)))
        case Some(text) =>
          var candidate := Fresh(name, entry, text, network.now);
          match Verify(c, name, candidate, BoundsOf(c, name))
          case Refused(outcome, why) => (known, Line(name, outcome, Some(why)))
          case _ => (Some(candidate), Line(name, Updated, None))
  }

  function Kept1(kept: Overlay, name: string, treated: Option<Cached>): Overlay {
    if treated.Some? then kept[name := treated.value] else kept
  }

  function Pass(c: Config, previous: Overlay, network: Network, off: bool, entries: Table<ManifestEntry>, kept: Overlay,
                lines: seq<Line>): (Overlay, seq<Line>)
    decreases |entries|
  {
    if entries == [] then (kept, lines)
    else
      var (treated, line) := Treat(c, previous, network, off, entries[0].0, entries[0].1);
      Pass(c, previous, network, off, entries[1..], Kept1(kept, entries[0].0, treated), lines + [line])
  }

  datatype Report = Unread | Done(lines: seq<Line>, gone: set<string>)

  /** The new overlay is absent when the manifest could not be read: then nothing is touched. */
  method RefreshOverlay(c: Config, previous: Overlay, network: Network)
    returns (kept: Option<Overlay>, report: Report)
    ensures kept == Refreshed(c, previous, network).0 && report == Refreshed(c, previous, network).1
  {
    hide Treat;
    if !c.remote || network.manifest.None? {
      return None, Unread;
    }
    var manifest := network.manifest.value;
    var overlay: Overlay := map[];
    var lines: seq<Line> := [];
    for i := 0 to |manifest.blueprints|
      invariant Pass(c, previous, network, manifest.disabled, manifest.blueprints[i..], overlay, lines)
             == Pass(c, previous, network, manifest.disabled, manifest.blueprints, map[], [])
    {
      var (name, entry) := manifest.blueprints[i];
      var (treated, line) := Treat(c, previous, network, manifest.disabled, name, entry);
      assert manifest.blueprints[i..][1..] == manifest.blueprints[i + 1..];
      if treated.Some? {
        overlay := overlay[name := treated.value];
      }
      lines := lines + [line];
    }
    var gone := set name | name in previous && name !in overlay && Find(manifest.blueprints, name).None?;
    return Some(overlay), Done(lines, gone);
  }

  function Refreshed(c: Config, previous: Overlay, network: Network): (Option<Overlay>, Report) {
    if !c.remote || network.manifest.None? then (None, Unread)
    else
      var manifest := network.manifest.value;
      var (kept, lines) := Pass(c, previous, network, manifest.disabled, manifest.blueprints, map[], []);
      (Some(kept),
       Done(lines, set name | name in previous && name !in kept && Find(manifest.blueprints, name).None?))
  }

  // What a refresh does, name by name.

  /**
   * The fate of one name: nothing when it is outside the application, disabled or gone; what was there
   * when the manifest announces it or when the announced one is refused; the fresh one otherwise.
   */
  function Fate(c: Config, previous: Overlay, network: Network, manifest: Manifest, name: string): Option<Cached> {
    var known := if name in previous then Some(previous[name]) else None;
    match Find(manifest.blueprints, name)
    case None => None
    case Some(entry) =>
      if !Entitled(c, name) || manifest.disabled || entry.disabled then None
      else if known.Some? && known.value.version == entry.version && known.value.sha256 == entry.sha256 then known
      else if network.text(name).Some?
              && Verify(c, name, Fresh(name, entry, network.text(name).value, network.now), BoundsOf(c, name)).Accepted?
      then Some(Fresh(name, entry, network.text(name).value, network.now))
      else known
  }

  function At(overlay: Overlay, name: string): Option<Cached> {
    if name in overlay then Some(overlay[name]) else None
  }

  lemma TreatIsFate(c: Config, previous: Overlay, network: Network, manifest: Manifest, name: string)
    requires Find(manifest.blueprints, name).Some?
    ensures Treat(c, previous, network, manifest.disabled, name, Find(manifest.blueprints, name).value).0
         == Fate(c, previous, network, manifest, name)
  {
    hide Versions.CompareTexts, Intact, BoundsOf, Entitled;
    var entry := Find(manifest.blueprints, name).value;
    if network.text(name).Some? {
      ThrowsExactlyWhen(c, name, Fresh(name, entry, network.text(name).value, network.now), BoundsOf(c, name));
    }
  }

  lemma {:induction false} PassAt(c: Config, previous: Overlay, network: Network, off: bool,
                                  entries: Table<ManifestEntry>, kept: Overlay, lines: seq<Line>, name: string)
    requires Distinct(entries)
    requires forall i :: 0 <= i < |entries| ==> entries[i].0 !in kept
    ensures At(Pass(c, previous, network, off, entries, kept, lines).0, name) ==
      match Find(entries, name)
      case None => At(kept, name)
      case Some(entry) => Treat(c, previous, network, off, name, entry).0
    decreases |entries|
  {
    hide Treat;
    if entries != [] {
      var (treated, line) := Treat(c, previous, network, off, entries[0].0, entries[0].1);
      var next := Kept1(kept, entries[0].0, treated);
      var rest := entries[1..];
      assert Distinct(rest) by {
        forall i, j | 0 <= i < j < |rest| ensures rest[i].0 != rest[j].0 {
          assert rest[i] == entries[i + 1] && rest[j] == entries[j + 1];
        }
      }
      forall i | 0 <= i < |rest| ensures rest[i].0 !in next {
        assert rest[i] == entries[i + 1];
      }
      PassAt(c, previous, network, off, rest, next, lines + [line], name);
      if entries[0].0 == name {
        NotLater(entries, name);
      }
    }
  }

  lemma NotLater<T>(t: Table<T>, name: string)
    requires Distinct(t) && t != [] && t[0].0 == name
    ensures Find(t[1..], name).None?
  {
    forall i | 0 <= i < |t[1..]| ensures t[1..][i].0 != name {
      assert t[1..][i] == t[i + 1];
    }
  }

  /** A refresh that read its manifest maps every name to its fate, and nothing else. */
  lemma RefreshIsFate(c: Config, previous: Overlay, network: Network, name: string)
    requires c.remote && network.manifest.Some? && Distinct(network.manifest.value.blueprints)
    ensures Refreshed(c, previous, network).0.Some?
    ensures At(Refreshed(c, previous, network).0.value, name)
         == Fate(c, previous, network, network.manifest.value, name)
  {
    hide Treat, Fate, Pass;
    var manifest := network.manifest.value;
    PassAt(c, previous, network, manifest.disabled, manifest.blueprints, map[], [], name);
    if Find(manifest.blueprints, name).Some? {
      TreatIsFate(c, previous, network, manifest, name);
    } else {
      GoneHasNoFate(c, previous, network, manifest, name);
    }
  }

  lemma GoneHasNoFate(c: Config, previous: Overlay, network: Network, manifest: Manifest, name: string)
    requires Find(manifest.blueprints, name).None?
    ensures Fate(c, previous, network, manifest, name) == None
  {
  }

  /** One line per manifest entry, in its order: each is the line of its own entry. */
  lemma {:induction false} PassLines(c: Config, previous: Overlay, network: Network, off: bool,
                                     entries: Table<ManifestEntry>, kept: Overlay, lines: seq<Line>)
    ensures var out := Pass(c, previous, network, off, entries, kept, lines).1;
      && |out| == |lines| + |entries|
      && out[..|lines|] == lines
      && forall i :: 0 <= i < |entries| ==>
           out[|lines| + i] == Treat(c, previous, network, off, entries[i].0, entries[i].1).1
    decreases |entries|
  {
    hide Treat;
    if entries != [] {
      var (treated, line) := Treat(c, previous, network, off, entries[0].0, entries[0].1);
      var out := Pass(c, previous, network, off, entries, kept, lines).1;
      PassLines(c, previous, network, off, entries[1..], Kept1(kept, entries[0].0, treated), lines + [line]);
      assert out[..|lines|] == out[..|lines| + 1][..|lines|];
      assert out[|lines|] == out[..|lines| + 1][|lines|];
      forall i | 0 <= i < |entries|
        ensures out[|lines| + i] == Treat(c, previous, network, off, entries[i].0, entries[i].1).1
      {
        if i > 0 {
          assert entries[1..][i - 1] == entries[i];
        }
      }
    }
  }

  /** `updated` means a verified download under the announced digest, and says what then stands under the name. */
  lemma UpdatedMeansVerified(c: Config, previous: Overlay, network: Network, off: bool, name: string,
                             entry: ManifestEntry)
    ensures var (treated, line) := Treat(c, previous, network, off, name, entry);
      line.outcome == Updated <==>
        && Entitled(c, name) && !off && !entry.disabled
        && !(name in previous && previous[name].version == entry.version && previous[name].sha256 == entry.sha256)
        && network.text(name).Some?
        && Verify(c, name, Fresh(name, entry, network.text(name).value, network.now), BoundsOf(c, name)).Accepted?
    ensures var (treated, line) := Treat(c, previous, network, off, name, entry);
      line.outcome == Updated ==>
        && Intact(network.text(name).value, entry.sha256)
        && treated == Some(Cached(name, entry.version, entry.sha256, network.text(name).value,
                                  if entry.minEngine.Some? then Version(entry.minEngine.value) else Unset, network.now))
  {
    hide Versions.CompareTexts, Intact, BoundsOf, Entitled;
    if network.text(name).Some? {
      ThrowsExactlyWhen(c, name, Fresh(name, entry, network.text(name).value, network.now), BoundsOf(c, name));
    }
  }
}
