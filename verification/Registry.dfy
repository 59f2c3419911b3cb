/** The registry an application holds: one overlay in memory over one document in a store. */
module Registry {
  import opened Common
  import opened Tables
  import opened Delivery
  import opened Utf8
  import Sha256Spec

  // What each operation does to the memory and the store.

  function RemoteCell(c: Config, name: string, cell: Cell): Cell {
    if !c.remote then cell else AfterLookup(c, name, Load(c, cell).overlay.value, Load(c, cell))
  }

  function RemoteAnswer(c: Config, name: string, cell: Cell): Answer {
    if !c.remote then Absent else Lookup(c, name, Load(c, cell).overlay.value)
  }

  datatype Resolution =
    | FromRemote(version: string, document: Document)
    | FromBundle(version: string, document: Document)
    | UnknownName
    | BrokenBundle
    | Crashed

  /** The remote version when it passes every guard, otherwise the bundled one. */
  function ResolutionOf(c: Config, name: string, answer: Answer): Resolution {
    match answer
    case Served(entry, document) => FromRemote(entry.version, document)
    case Failed => Crashed
    case _ =>
      match Find(c.bundled, name)
      case None => UnknownName
      case Some(b) => if b.document.Some? then FromBundle(b.version, b.document.value) else BrokenBundle
  }

  function RevertCell(c: Config, which: Option<string>, cell: Cell): Cell {
    var loaded := Load(c, cell);
    Publish(c, loaded, if which.Some? then loaded.overlay.value - {which.value} else map[])
  }

  function RefreshCell(c: Config, network: Network, cell: Cell): Cell {
    var loaded := Load(c, cell);
    var kept := Refreshed(c, loaded.overlay.value, network).0;
    if kept.Some? then Publish(c, loaded, kept.value) else loaded
  }

  // The listing.

  datatype Status = Status(name: string, version: string, remote: bool)

  function BundledLines(c: Config, names: Table<Bundled>, cell: Cell, lines: seq<Status>): (Cell, Option<seq<Status>>)
    decreases |names|
  {
    if names == [] then (cell, Some(lines))
    else
      var (name, b) := names[0];
      var next := RemoteCell(c, name, cell);
      match RemoteAnswer(c, name, cell)
      case Failed => (next, None)
      case Served(entry, _) => BundledLines(c, names[1..], next, lines + [Status(name, entry.version, true)])
      case _ => BundledLines(c, names[1..], next, lines + [Status(name, b.version, false)])
  }

  function AddedLines(c: Config, names: seq<string>, cell: Cell, lines: seq<Status>): (Cell, Option<seq<Status>>)
    decreases |names|
  {
    if names == [] then (cell, Some(lines))
    else if Find(c.bundled, names[0]).Some? then AddedLines(c, names[1..], cell, lines)
    else
      var next := RemoteCell(c, names[0], cell);
      match RemoteAnswer(c, names[0], cell)
      case Failed => (next, None)
      case Served(entry, _) => AddedLines(c, names[1..], next, lines + [Status(names[0], entry.version, true)])
      case _ => AddedLines(c, names[1..], next, lines)
  }

  /** Bundled names first, then what arrived under the prefix, in the order `sorted` puts them. */
  function Listing(c: Config, sorted: set<string> -> seq<string>, cell: Cell): (Cell, Option<seq<Status>>) {
    var (after, lines) := BundledLines(c, c.bundled, cell, []);
    if lines.None? then (after, None)
    else
      var loaded := Load(c, after);
      AddedLines(c, sorted(loaded.overlay.value.Keys), loaded, lines.value)
  }

  class Store {
    const works: nat -> bool
    var content: Stored
    var uses: nat

    constructor (content: Stored, works: nat -> bool)
      ensures this.content == content && this.uses == 0 && this.works == works
    {
      this.content, this.works, this.uses := content, works, 0;
    }

    method ReadEntries() returns (entries: Overlay)
      modifies this
      ensures content == old(content) && uses == old(uses) + 1
      ensures entries == if works(old(uses)) then Usable(old(content)) else map[]
    {
      entries := if works(uses) then Usable(content) else map[];
      uses := uses + 1;
    }

    method WriteEntries(entries: Overlay)
      modifies this
      ensures uses == old(uses) + 1
      ensures content == if works(old(uses)) then Encoded(entries) else old(content)
    {
      if works(uses) {
        content := Encoded(entries);
      }
      uses := uses + 1;
    }
  }

  class BlueprintRegistry {
    const c: Config
    const store: Store
    var overlay: Option<Overlay>
    var parsed: map<string, Document>

    constructor (c: Config, store: Store)
      requires store.works == c.host.works
      ensures this.c == c && this.store == store && Valid()
      ensures Memory() == Cell(None, store.content, store.uses)
    {
      this.c, this.store, overlay, parsed := c, store, None, map[];
    }

    ghost predicate Valid()
      reads this
    {
      && store.works == c.host.works
      && forall name :: name in parsed ==>
           Find(c.bundled, name).Some? && Find(c.bundled, name).value.document == Some(parsed[name])
    }

    function Memory(): Cell
      reads this, store
    {
      Cell(overlay, store.content, store.uses)
    }

    method Entries() returns (entries: Overlay)
      requires Valid()
      modifies this`overlay, store
      ensures Valid() && Memory() == Load(c, old(Memory())) && overlay == Some(entries)
    {
      if overlay.Some? {
        return overlay.value;
      }
      var read := store.ReadEntries();
      entries := Prune(c, read);
      overlay := Some(entries);
      if entries != read {
        store.WriteEntries(entries);
      }
    }

    method Remote(name: string) returns (answer: Answer)
      requires Valid()
      modifies this`overlay, store
      ensures Valid() && Memory() == RemoteCell(c, name, old(Memory()))
      ensures answer == RemoteAnswer(c, name, old(Memory()))
    {
      hide Load, Lookup, Encoded;
      if !c.remote {
        return Absent;
      }
      var entries := Entries();
      answer := Lookup(c, name, entries);
      if answer.Purged? {
        entries := entries - {name};
        overlay := Some(entries);
        store.WriteEntries(entries);
      }
    }

    method Resolve(name: string) returns (r: Resolution)
      requires Valid()
      modifies this, store
      ensures Valid() && Memory() == RemoteCell(c, name, old(Memory()))
      ensures r == ResolutionOf(c, name, RemoteAnswer(c, name, old(Memory())))
    {
      var answer := Remote(name);
      if answer.Failed? {
        return Crashed;
      }
      if answer.Served? {
        return FromRemote(answer.entry.version, answer.document);
      }
      var b := Find(c.bundled, name);
      if b.None? {
        return UnknownName;
      }
      if name in parsed {
        return FromBundle(b.value.version, parsed[name]);
      }
      if b.value.document.None? {
        return BrokenBundle;
      }
      parsed := parsed[name := b.value.document.value];
      return FromBundle(b.value.version, b.value.document.value);
    }

    method List(sorted: set<string> -> seq<string>) returns (lines: Option<seq<Status>>)
      requires Valid()
      modifies this`overlay, store
      ensures Valid() && (Memory(), lines) == Listing(c, sorted, old(Memory()))
    {
      hide RemoteCell, RemoteAnswer, Load;
      var out: seq<Status> := [];
      for i := 0 to |c.bundled|
        invariant Valid()
        invariant BundledLines(c, c.bundled[i..], Memory(), out) == BundledLines(c, c.bundled, old(Memory()), [])
      {
        var (name, b) := c.bundled[i];
        assert c.bundled[i..][1..] == c.bundled[i + 1..];
        var answer := Remote(name);
        if answer.Failed? {
          return None;
        }
        out := out + [if answer.Served? then Status(name, answer.entry.version, true) else Status(name, b.version, false)];
      }
      var entries := Entries();
      var names := sorted(entries.Keys);
      ghost var loaded, bundledLines := Memory(), out;
      for i := 0 to |names|
        invariant Valid()
        invariant AddedLines(c, names[i..], Memory(), out) == AddedLines(c, names, loaded, bundledLines)
      {
        assert names[i..][1..] == names[i + 1..];
        if Find(c.bundled, names[i]).None? {
          var answer := Remote(names[i]);
          if answer.Failed? {
            return None;
          }
          if answer.Served? {
            out := out + [Status(names[i], answer.entry.version, true)];
          }
        }
      }
      return Some(out);
    }

    method Refresh(network: Network) returns (report: Report)
      requires Valid()
      modifies this`overlay, store
      ensures Valid() && Memory() == RefreshCell(c, network, old(Memory()))
      ensures report == Refreshed(c, Load(c, old(Memory())).overlay.value, network).1
    {
      hide Refreshed;
      var entries := Entries();
      var kept;
      kept, report := RefreshOverlay(c, entries, network);
      if kept.Some? {
        overlay := kept;
        store.WriteEntries(kept.value);
      }
    }

    method Revert(which: Option<string>)
      requires Valid()
      modifies this`overlay, store
      ensures Valid() && Memory() == RevertCell(c, which, old(Memory()))
    {
      var entries := Entries();
      var left := if which.Some? then entries - {which.value} else map[];
      overlay := Some(left);
      store.WriteEntries(left);
    }
  }

  // The store holds what the memory holds.

  /** Every name may be served here, and every entry stands under its own name. */
  ghost predicate WellKept(c: Config, overlay: Overlay) {
    forall name :: name in overlay ==> Entitled(c, name) && overlay[name].name == name
  }

  /** A registry rebuilt over the store would hold exactly this overlay. */
  predicate Mirrors(c: Config, cell: Cell) {
    cell.overlay.Some? ==> Prune(c, Usable(cell.stored)) == cell.overlay.value
  }

  ghost predicate Sound(c: Config, cell: Cell) {
    && (cell.overlay.Some? ==> WellKept(c, cell.overlay.value))
    && Mirrors(c, cell)
  }

  lemma EncodedIsUsable(c: Config, overlay: Overlay)
    requires WellKept(c, overlay)
    ensures Prune(c, Usable(Encoded(overlay))) == overlay
  {
  }

  lemma PublishSound(c: Config, cell: Cell, overlay: Overlay)
    requires forall n :: c.host.works(n)
    requires WellKept(c, overlay)
    ensures Sound(c, Publish(c, cell, overlay)) && Publish(c, cell, overlay).overlay == Some(overlay)
  {
    EncodedIsUsable(c, overlay);
  }

  lemma LoadSound(c: Config, cell: Cell)
    requires forall n :: c.host.works(n)
    requires Sound(c, cell)
    ensures Sound(c, Load(c, cell))
  {
    if cell.overlay.None? {
      var read := Usable(cell.stored);
      assert ReadCache(c, cell) == read;
      if Prune(c, read) != read {
        PublishSound(c, cell.(uses := cell.uses + 1), Prune(c, read));
      }
    }
  }

  lemma RefreshedWellKept(c: Config, previous: Overlay, network: Network)
    requires WellKept(c, previous)
    requires network.manifest.Some? ==> Distinct(network.manifest.value.blueprints)
    ensures var kept := Refreshed(c, previous, network).0; kept.Some? ==> WellKept(c, kept.value)
  {
    hide Pass, Refreshed, Fate;
    var kept := Refreshed(c, previous, network).0;
    RefreshedOnlyIfRead(c, previous, network);
    if kept.Some? {
      forall name | name in kept.value ensures Entitled(c, name) && kept.value[name].name == name {
        RefreshIsFate(c, previous, network, name);
        FateIsWellKept(c, previous, network, network.manifest.value, name);
      }
    }
  }

  lemma RefreshedOnlyIfRead(c: Config, previous: Overlay, network: Network)
    ensures Refreshed(c, previous, network).0.Some? <==> c.remote && network.manifest.Some?
  {
    hide Pass;
  }

  lemma FateIsWellKept(c: Config, previous: Overlay, network: Network, manifest: Manifest, name: string)
    requires WellKept(c, previous)
    ensures var fate := Fate(c, previous, network, manifest, name);
      fate.Some? ==> Entitled(c, name) && fate.value.name == name
  {
    hide Verify;
  }

  /** One operation of the registry, taken alone. */
  datatype Operation =
    | OpResolve(name: string)
    | OpList(sorted: set<string> -> seq<string>)
    | OpRefresh(network: Network)
    | OpRevert(which: Option<string>)

  function Apply(c: Config, op: Operation, cell: Cell): Cell {
    match op
    case OpResolve(name) => RemoteCell(c, name, cell)
    case OpList(sorted) => Listing(c, sorted, cell).0
    case OpRefresh(network) => RefreshCell(c, network, cell)
    case OpRevert(which) => RevertCell(c, which, cell)
  }

  function ApplyAll(c: Config, ops: seq<Operation>, cell: Cell): Cell {
    if ops == [] then cell else Apply(c, ops[|ops| - 1], ApplyAll(c, ops[..|ops| - 1], cell))
  }

  predicate WellFormedOp(op: Operation) {
    op.OpRefresh? && op.network.manifest.Some? ==> Distinct(op.network.manifest.value.blueprints)
  }

  lemma RemoteSound(c: Config, name: string, cell: Cell)
    requires forall n :: c.host.works(n)
    requires Sound(c, cell)
    ensures Sound(c, RemoteCell(c, name, cell))
  {
    hide Verify, Publish, Mirrors, Load;
    LoadSound(c, cell);
    PublishSound(c, Load(c, cell), Load(c, cell).overlay.value - {name});
  }

  lemma {:induction false} BundledSound(c: Config, names: Table<Bundled>, cell: Cell, lines: seq<Status>)
    requires forall n :: c.host.works(n)
    requires Sound(c, cell)
    ensures Sound(c, BundledLines(c, names, cell, lines).0)
    decreases |names|
  {
    hide Sound, RemoteCell, RemoteAnswer;
    if names != [] {
      var (name, b) := names[0];
      var next := RemoteCell(c, name, cell);
      RemoteSound(c, name, cell);
      match RemoteAnswer(c, name, cell)
      case Failed =>
      case Served(entry, _) => BundledSound(c, names[1..], next, lines + [Status(name, entry.version, true)]);
      case _ => BundledSound(c, names[1..], next, lines + [Status(name, b.version, false)]);
    }
  }

  lemma {:induction false} AddedSound(c: Config, names: seq<string>, cell: Cell, lines: seq<Status>)
    requires forall n :: c.host.works(n)
    requires Sound(c, cell)
    ensures Sound(c, AddedLines(c, names, cell, lines).0)
    decreases |names|
  {
    hide Sound, RemoteCell, RemoteAnswer, Find;
    if names == [] {
    } else if Find(c.bundled, names[0]).Some? {
      AddedSound(c, names[1..], cell, lines);
    } else {
      var next := RemoteCell(c, names[0], cell);
      RemoteSound(c, names[0], cell);
      match RemoteAnswer(c, names[0], cell)
      case Failed =>
      case Served(entry, _) => AddedSound(c, names[1..], next, lines + [Status(names[0], entry.version, true)]);
      case _ => AddedSound(c, names[1..], next, lines);
    }
  }

  lemma ListingSound(c: Config, sorted: set<string> -> seq<string>, cell: Cell)
    requires forall n :: c.host.works(n)
    requires Sound(c, cell)
    ensures Sound(c, Listing(c, sorted, cell).0)
  {
    hide Sound, BundledLines, AddedLines, Load;
    var (after, lines) := BundledLines(c, c.bundled, cell, []);
    BundledSound(c, c.bundled, cell, []);
    if lines.Some? {
      var loaded := Load(c, after);
      LoadSound(c, after);
      AddedSound(c, sorted(loaded.overlay.value.Keys), loaded, lines.value);
    }
  }

  lemma ApplySound(c: Config, op: Operation, cell: Cell)
    requires forall n :: c.host.works(n)
    requires Sound(c, cell) && WellFormedOp(op)
    ensures Sound(c, Apply(c, op, cell))
  {
    hide Verify, Refreshed, Publish, Mirrors, Load, Listing;
    LoadSound(c, cell);
    var loaded := Load(c, cell);
    var entries := loaded.overlay.value;
    match op
    case OpResolve(name) => RemoteSound(c, name, cell);
    case OpList(sorted) => ListingSound(c, sorted, cell);
    case OpRefresh(network) =>
      RefreshedWellKept(c, entries, network);
      var kept := Refreshed(c, entries, network).0;
      if kept.Some? {
        PublishSound(c, loaded, kept.value);
      }
    case OpRevert(which) =>
      PublishSound(c, loaded, if which.Some? then entries - {which.value} else map[]);
  }

  /** Whatever the store held at first, and after any operations one after the other, the store mirrors the memory. */
  lemma {:induction false} OperationsSound(c: Config, ops: seq<Operation>, stored: Stored)
    requires forall n :: c.host.works(n)
    requires forall i :: 0 <= i < |ops| ==> WellFormedOp(ops[i])
    ensures Sound(c, ApplyAll(c, ops, Cell(None, stored, 0)))
    decreases |ops|
  {
    hide Apply, WellFormedOp;
    if ops != [] {
      var n := |ops| - 1;
      OperationsSound(c, ops[..n], stored);
      ApplySound(c, ops[n], ApplyAll(c, ops[..n], Cell(None, stored, 0)));
    }
  }

  /** A registry rebuilt over the same store answers every name as the running one does. */
  lemma RebuiltResolvesTheSame(c: Config, ops: seq<Operation>, stored: Stored, name: string, uses: nat)
    requires forall n :: c.host.works(n)
    requires forall i :: 0 <= i < |ops| ==> WellFormedOp(ops[i])
    ensures var cell := ApplyAll(c, ops, Cell(None, stored, 0));
      var rebuilt := Cell(None, cell.stored, uses);
      RemoteAnswer(c, name, rebuilt) == RemoteAnswer(c, name, cell)
  {
    hide ApplyAll, Verify, Lookup, WellFormedOp;
    OperationsSound(c, ops, stored);
    var cell := ApplyAll(c, ops, Cell(None, stored, 0));
    var rebuilt := Cell(None, cell.stored, uses);
    assert ReadCache(c, rebuilt) == Usable(cell.stored) == ReadCache(c, cell);
  }

  /**
   * An unreadable manifest, or delivery switched off, changes nothing that is loaded; the first time it
   * loads, as any operation does, and the store changes only if entries no longer entitled were pruned.
   */
  lemma UnreadableChangesNothing(c: Config, network: Network, cell: Cell)
    requires !c.remote || network.manifest.None?
    ensures RefreshCell(c, network, cell) == Load(c, cell)
    ensures cell.overlay.Some? ==> RefreshCell(c, network, cell) == cell
    ensures RefreshCell(c, network, cell).stored != cell.stored ==> Prune(c, ReadCache(c, cell)) != ReadCache(c, cell)
  {
    hide Usable, Encoded;
  }

  /** What a refresh reports as updated is what the next resolution serves. */
  lemma UpdatedIsServed(c: Config, network: Network, cell: Cell, name: string)
    requires c.remote && network.manifest.Some? && Distinct(network.manifest.value.blueprints)
    requires Find(network.manifest.value.blueprints, name).Some?
    requires var entry := Find(network.manifest.value.blueprints, name).value;
      Treat(c, Load(c, cell).overlay.value, network, network.manifest.value.disabled, name, entry).1.outcome == Updated
    ensures var entry := Find(network.manifest.value.blueprints, name).value;
      var answer := RemoteAnswer(c, name, RefreshCell(c, network, cell));
      && network.text(name).Some? && answer.Served?
      && answer.entry == Fresh(name, entry, network.text(name).value, network.now)
      && answer.entry.version == entry.version && answer.entry.sha256 == entry.sha256
      && answer.entry.text == network.text(name).value && Intact(answer.entry.text, entry.sha256)
  {
    hide Verify, VerifyBounds, Treat, Refreshed, Load, Fate, Entitled;
    var previous := Load(c, cell).overlay.value;
    var manifest := network.manifest.value;
    var entry := Find(manifest.blueprints, name).value;
    UpdatedMeansVerified(c, previous, network, manifest.disabled, name, entry);
    RefreshIsFate(c, previous, network, name);
    FreshFate(c, previous, network, manifest, name);
    var kept := Refreshed(c, previous, network).0;
    assert kept.Some? && name in kept.value;
    LoadedStays(c, RefreshCell(c, network, cell));
  }

  lemma LoadedStays(c: Config, cell: Cell)
    requires cell.overlay.Some?
    ensures Load(c, cell) == cell
  {
  }

  lemma FreshFate(c: Config, previous: Overlay, network: Network, manifest: Manifest, name: string)
    requires Find(manifest.blueprints, name).Some? && network.text(name).Some?
    requires var entry := Find(manifest.blueprints, name).value;
      && Entitled(c, name) && !manifest.disabled && !entry.disabled
      && !(name in previous && previous[name].version == entry.version && previous[name].sha256 == entry.sha256)
      && Verify(c, name, Fresh(name, entry, network.text(name).value, network.now), BoundsOf(c, name)).Accepted?
    ensures var entry := Find(manifest.blueprints, name).value;
      Fate(c, previous, network, manifest, name) == Some(Fresh(name, entry, network.text(name).value, network.now))
  {
    hide Verify;
  }

  // The listing says what resolving would serve.

  /** The line a name gets, from the entries held when the listing began. */
  function LineOf(c: Config, name: string, version: string, entries: Overlay): Status {
    var answer := Lookup(c, name, entries);
    if answer.Served? then Status(name, answer.entry.version, true) else Status(name, version, false)
  }

  /** Looking one name up leaves the entries of all others as they were. */
  lemma LookupLeavesOthers(c: Config, name: string, cell: Cell, other: string)
    requires cell.overlay.Some? && other != name
    ensures RemoteCell(c, name, cell).overlay.Some?
    ensures At(RemoteCell(c, name, cell).overlay.value, other) == At(cell.overlay.value, other)
  {
    hide Lookup;
  }

  /** The bundled lines, from a loaded overlay that agrees with `entries` on the names still to come. */
  lemma {:induction false} LinesTellTheTruth(c: Config, names: Table<Bundled>, cell: Cell, lines: seq<Status>,
                                             entries: Overlay)
    requires Distinct(names)
    requires c.remote ==> cell.overlay.Some?
    requires c.remote ==> forall k :: 0 <= k < |names| ==> At(cell.overlay.value, names[k].0) == At(entries, names[k].0)
    ensures var out := BundledLines(c, names, cell, lines).1;
      && (out.None? <==> exists k :: 0 <= k < |names| && Lookup(c, names[k].0, entries).Failed?)
      && (out.Some? ==> |out.value| == |lines| + |names| && out.value[..|lines|] == lines)
      && (out.Some? ==> forall k :: 0 <= k < |names| ==>
            out.value[|lines| + k] == LineOf(c, names[k].0, names[k].1.version, entries))
    decreases |names|
  {
    hide Lookup, RemoteCell, RemoteAnswer, Load;
    if names != [] {
      var (name, b) := names[0];
      FirstAnswer(c, name, cell, entries);
      var answer := Lookup(c, name, entries);
      if !answer.Failed? {
        var line := LineOf(c, name, b.version, entries);
        var next := RemoteCell(c, name, cell);
        var rest := names[1..];
        assert forall i :: 0 <= i < |rest| ==> rest[i] == names[i + 1];
        if c.remote {
          LookupLeavesOthers(c, name, cell, name + "!");
          forall k | 0 <= k < |rest| ensures At(next.overlay.value, rest[k].0) == At(entries, rest[k].0) {
            assert names[0].0 != names[k + 1].0;
            LookupLeavesOthers(c, name, cell, rest[k].0);
          }
        }
        LinesTellTheTruth(c, rest, next, lines + [line], entries);
        var out := BundledLines(c, names, cell, lines).1;
        assert out == BundledLines(c, rest, next, lines + [line]).1;
        if out.Some? {
          assert out.value[..|lines|] == out.value[..|lines| + 1][..|lines|];
          assert out.value[|lines|] == out.value[..|lines| + 1][|lines|];
          forall k | 0 <= k < |names|
            ensures out.value[|lines| + k] == LineOf(c, names[k].0, names[k].1.version, entries)
          {
            if k > 0 {
              assert rest[k - 1] == names[k];
            }
          }
        } else {
          var k :| 0 <= k < |rest| && Lookup(c, rest[k].0, entries).Failed?;
          assert names[k + 1] == rest[k];
        }
      }
    }
  }

  lemma FirstAnswer(c: Config, name: string, cell: Cell, entries: Overlay)
    requires c.remote ==> cell.overlay.Some? && At(cell.overlay.value, name) == At(entries, name)
    ensures RemoteAnswer(c, name, cell) == Lookup(c, name, entries)
  {
    hide Verify, BoundsOf;
  }

  /** Loading first changes no listing of at least one name. */
  lemma LoadedLines(c: Config, names: Table<Bundled>, cell: Cell, lines: seq<Status>)
    requires c.remote && names != []
    ensures BundledLines(c, names, cell, lines) == BundledLines(c, names, Load(c, cell), lines)
  {
    hide Lookup, AfterLookup, Load;
    LoadedStays(c, Load(c, cell));
  }

  lemma BundledTellTheTruth(c: Config, cell: Cell)
    requires Distinct(c.bundled)
    ensures var entries := Load(c, cell).overlay.value;
      var out := BundledLines(c, c.bundled, cell, []).1;
      && (out.None? <==> exists k :: 0 <= k < |c.bundled| && Lookup(c, c.bundled[k].0, entries).Failed?)
      && (out.Some? ==> |out.value| == |c.bundled|)
      && (out.Some? ==> forall k :: 0 <= k < |c.bundled| ==>
            out.value[k] == LineOf(c, c.bundled[k].0, c.bundled[k].1.version, entries))
  {
    hide BundledLines, Lookup, Load, LineOf;
    var entries := Load(c, cell).overlay.value;
    if c.remote && c.bundled != [] {
      LoadedLines(c, c.bundled, cell, []);
      LinesTellTheTruth(c, c.bundled, Load(c, cell), [], entries);
    } else if c.bundled != [] {
      LinesTellTheTruth(c, c.bundled, cell, [], entries);
    } else {
      NoLines(c, cell);
    }
  }

  lemma NoLines(c: Config, cell: Cell)
    requires c.bundled == []
    ensures BundledLines(c, c.bundled, cell, []) == (cell, Some([]))
  {
  }

  /** What the bundled lines leave of the entries: none of the bundled names that failed their guards. */
  function Remaining(c: Config, entries: Overlay): Overlay {
    map name | name in entries && !(Find(c.bundled, name).Some? && Lookup(c, name, entries).Purged?) :: entries[name]
  }

  lemma LookupSame(c: Config, name: string, a: Overlay, b: Overlay)
    requires At(a, name) == At(b, name)
    ensures Lookup(c, name, a) == Lookup(c, name, b)
  {
    hide Verify, BoundsOf;
  }

  lemma RemoteLeaves(c: Config, name: string, cell: Cell)
    requires cell.overlay.Some?
    ensures RemoteCell(c, name, cell).overlay == Some(
              if Lookup(c, name, cell.overlay.value).Purged? then cell.overlay.value - {name} else cell.overlay.value)
    ensures RemoteAnswer(c, name, cell) == Lookup(c, name, cell.overlay.value)
  {
    hide Verify, BoundsOf;
  }

  /** The bundled lines of `names`, from a loaded overlay, purge those of them that fail their guards and no other. */
  lemma {:induction false} LinesLeave(c: Config, names: Table<Bundled>, cell: Cell, lines: seq<Status>, other: string)
    requires Distinct(names) && cell.overlay.Some? && BundledLines(c, names, cell, lines).1.Some?
    ensures var after := BundledLines(c, names, cell, lines).0;
      && after.overlay.Some?
      && At(after.overlay.value, other) ==
         if Has(names, other) && Lookup(c, other, cell.overlay.value).Purged? then None
         else At(cell.overlay.value, other)
    decreases |names|
  {
    hide Lookup, RemoteCell, RemoteAnswer;
    if names != [] {
      var (name, b) := names[0];
      var next := RemoteCell(c, name, cell);
      var rest := names[1..];
      RemoteLeaves(c, name, cell);
      assert forall i :: 0 <= i < |rest| ==> rest[i] == names[i + 1];
      HasCons(names, other);
      var answer := RemoteAnswer(c, name, cell);
      var line := if answer.Served? then Status(name, answer.entry.version, true) else Status(name, b.version, false);
      LinesLeave(c, rest, next, lines + [line], other);
      if other == name {
        assert !Has(rest, other);
      } else {
        LookupSame(c, other, next.overlay.value, cell.overlay.value);
      }
    }
  }

  lemma HasCons<T>(t: Table<T>, key: string)
    requires t != []
    ensures Has(t, key) <==> t[0].0 == key || Has(t[1..], key)
  {
    if Has(t, key) {
      var i :| 0 <= i < |t| && t[i].0 == key;
      assert i > 0 ==> t[1..][i - 1] == t[i];
    }
    if Has(t[1..], key) {
      var i :| 0 <= i < |t[1..]| && t[1..][i].0 == key;
      assert t[i + 1] == t[1..][i];
    }
  }

  /** The entries held when the added names are read. */
  lemma BundledLeave(c: Config, cell: Cell)
    requires Distinct(c.bundled) && BundledLines(c, c.bundled, cell, []).1.Some?
    ensures Load(c, BundledLines(c, c.bundled, cell, []).0).overlay.value == Remaining(c, Load(c, cell).overlay.value)
  {
    hide BundledLines, Lookup, Load;
    var entries := Load(c, cell).overlay.value;
    var after := BundledLines(c, c.bundled, cell, []).0;
    if c.remote && c.bundled != [] {
      LoadedLines(c, c.bundled, cell, []);
      LinesLeave(c, c.bundled, Load(c, cell), [], "");
      forall name ensures At(after.overlay.value, name) == At(Remaining(c, entries), name) {
        LinesLeave(c, c.bundled, Load(c, cell), [], name);
      }
      LoadedStays(c, after);
      SameEverywhere(after.overlay.value, Remaining(c, entries));
    } else {
      NothingRead(c, cell);
      NothingPurged(c, entries);
    }
  }

  lemma SameEverywhere(a: Overlay, b: Overlay)
    requires forall name :: At(a, name) == At(b, name)
    ensures a == b
  {
    forall name ensures name in a <==> name in b {
      assert At(a, name) == At(b, name);
    }
    forall name | name in a ensures a[name] == b[name] {
      assert At(a, name) == At(b, name);
    }
  }

  lemma {:induction false} NothingReadFrom(c: Config, names: Table<Bundled>, cell: Cell, lines: seq<Status>)
    requires !c.remote || names == []
    ensures BundledLines(c, names, cell, lines).0 == cell
    decreases |names|
  {
    if names != [] {
      NothingReadFrom(c, names[1..], cell, lines + [Status(names[0].0, names[0].1.version, false)]);
    }
  }

  lemma NothingRead(c: Config, cell: Cell)
    requires !c.remote || c.bundled == []
    ensures BundledLines(c, c.bundled, cell, []).0 == cell
  {
    NothingReadFrom(c, c.bundled, cell, []);
  }

  lemma NothingPurged(c: Config, entries: Overlay)
    requires !c.remote || c.bundled == []
    ensures Remaining(c, entries) == entries
  {
    hide Verify, BoundsOf;
  }

  /** One line for each bundled name. */
  function BundledOf(c: Config, entries: Overlay): seq<Status> {
    seq(|c.bundled|, k requires 0 <= k < |c.bundled| => LineOf(c, c.bundled[k].0, c.bundled[k].1.version, entries))
  }

  /** One line for each of `names` that is not bundled and is served. */
  function AddedOf(c: Config, names: seq<string>, entries: Overlay): seq<Status> {
    if names == [] then []
    else
      (if Find(c.bundled, names[0]).None? && Lookup(c, names[0], entries).Served?
       then [LineOf(c, names[0], "", entries)] else [])
      + AddedOf(c, names[1..], entries)
  }

  predicate AnyAddedFails(c: Config, names: seq<string>, entries: Overlay) {
    exists k :: 0 <= k < |names| && Find(c.bundled, names[k]).None? && Lookup(c, names[k], entries).Failed?
  }

  predicate Unrepeated(names: seq<string>) {
    forall i, j :: 0 <= i < j < |names| ==> names[i] != names[j]
  }

  /** The added lines, from a loaded overlay that agrees with `entries` on the added names still to come. */
  lemma {:induction false} AddedTellTheTruth(c: Config, names: seq<string>, cell: Cell, lines: seq<Status>,
                                             entries: Overlay)
    requires Unrepeated(names) && cell.overlay.Some?
    requires forall k :: 0 <= k < |names| && Find(c.bundled, names[k]).None? ==>
      At(cell.overlay.value, names[k]) == At(entries, names[k])
    ensures var out := AddedLines(c, names, cell, lines).1;
      && (out.None? <==> AnyAddedFails(c, names, entries))
      && (out.Some? ==> out.value == lines + AddedOf(c, names, entries))
    decreases |names|
  {
    hide Lookup, RemoteCell, RemoteAnswer, Find;
    if names != [] {
      var name, rest := names[0], names[1..];
      assert forall i :: 0 <= i < |rest| ==> rest[i] == names[i + 1];
      if Find(c.bundled, name).Some? {
        AddedTellTheTruth(c, rest, cell, lines, entries);
        assert lines + ([] + AddedOf(c, rest, entries)) == lines + AddedOf(c, rest, entries);
      } else {
        RemoteLeaves(c, name, cell);
        LookupSame(c, name, cell.overlay.value, entries);
        var answer := RemoteAnswer(c, name, cell);
        if !answer.Failed? {
          var next := RemoteCell(c, name, cell);
          forall k | 0 <= k < |rest| && Find(c.bundled, rest[k]).None?
            ensures At(next.overlay.value, rest[k]) == At(entries, rest[k])
          {
            assert names[0] != names[k + 1];
          }
          var line := if answer.Served? then [LineOf(c, name, "", entries)] else [];
          AddedTellTheTruth(c, rest, next, lines + line, entries);
          assert AddedLines(c, names, cell, lines) == AddedLines(c, rest, next, lines + line) by {
            assert lines + [] == lines;
          }
          assert (lines + line) + AddedOf(c, rest, entries) == lines + (line + AddedOf(c, rest, entries));
        }
      }
      AnyOf(c, names, entries);
    }
  }

  lemma AnyOf(c: Config, names: seq<string>, entries: Overlay)
    requires names != []
    ensures AnyAddedFails(c, names, entries) <==>
      (Find(c.bundled, names[0]).None? && Lookup(c, names[0], entries).Failed?) || AnyAddedFails(c, names[1..], entries)
  {
    hide Lookup, Find;
    var rest := names[1..];
    assert forall i :: 0 <= i < |rest| ==> rest[i] == names[i + 1];
    if k :| 0 <= k < |names| && Find(c.bundled, names[k]).None? && Lookup(c, names[k], entries).Failed? {
      assert k > 0 ==> rest[k - 1] == names[k];
    }
  }

  // An entry that is neither served nor purged.

  /** An intact entry whose minimum engine is no text: the comparison has nothing to split. */
  predicate Jams(entries: Overlay, name: string) {
    name in entries && Intact(entries[name].text, entries[name].sha256) && entries[name].minEngine.NotText?
  }

  lemma FailsOnJammed(c: Config, name: string, entries: Overlay)
    ensures Lookup(c, name, entries).Failed? <==> c.remote && Jams(entries, name)
  {
    hide Verify, Intact;
    if name in entries {
      ThrowsExactlyWhen(c, name, entries[name], BoundsOf(c, name));
    }
  }

  /** What sorting keys does: each of them once. */
  ghost predicate Enumerates(sorted: set<string> -> seq<string>) {
    forall names: set<string> ::
      Unrepeated(sorted(names)) && forall name :: name in sorted(names) <==> name in names
  }

  /**
   * The listing, from any cell, loaded or not. It fails exactly when some entry held when it began jams, bundled or
   * added. Otherwise it has one line per bundled name, in order, telling what resolving it would have served, then, in
   * sorted order, one per served name that is not bundled.
   */
  lemma ListingTellsTheTruth(c: Config, sorted: set<string> -> seq<string>, cell: Cell)
    requires Distinct(c.bundled) && Enumerates(sorted)
    ensures var entries := Load(c, cell).overlay.value;
      var out := Listing(c, sorted, cell).1;
      && (out.None? <==> c.remote && exists name :: Jams(entries, name))
      && (out.Some? ==>
            out.value == BundledOf(c, entries) + AddedOf(c, sorted(Remaining(c, entries).Keys), entries))
  {
    hide BundledLines, AddedLines, Lookup, Load, LineOf, AddedOf, Jams, Remaining, Unrepeated;
    var entries := Load(c, cell).overlay.value;
    var (after, lines) := BundledLines(c, c.bundled, cell, []);
    BundledTellTheTruth(c, cell);
    forall name ensures Lookup(c, name, entries).Failed? <==> c.remote && Jams(entries, name) {
      FailsOnJammed(c, name, entries);
    }
    if lines.Some? {
      var loaded := Load(c, after);
      var names := sorted(loaded.overlay.value.Keys);
      BundledLeave(c, cell);
      RemainingAdded(c, entries);
      AddedTellTheTruth(c, names, loaded, lines.value, entries);
      AllListed(c, names, entries);
      assert lines.value == BundledOf(c, entries);
    }
  }

  lemma RemainingAdded(c: Config, entries: Overlay)
    ensures forall name :: Find(c.bundled, name).None? ==> At(Remaining(c, entries), name) == At(entries, name)
  {
    hide Lookup;
  }

  /** Every name is looked up, among the bundled or among the added. */
  lemma AllListed(c: Config, names: seq<string>, entries: Overlay)
    requires forall name :: name in names <==> name in Remaining(c, entries)
    ensures (exists name :: Lookup(c, name, entries).Failed?) <==>
      || (exists k :: 0 <= k < |c.bundled| && Lookup(c, c.bundled[k].0, entries).Failed?)
      || AnyAddedFails(c, names, entries)
  {
    hide Verify, BoundsOf, Find;
    if name :| Lookup(c, name, entries).Failed? {
      if Find(c.bundled, name).None? {
        assert name in Remaining(c, entries);
        var k :| 0 <= k < |names| && names[k] == name;
      } else {
        var k :| 0 <= k < |c.bundled| && c.bundled[k].0 == name;
      }
    }
  }

  /**
   * Resolving throws exactly on such an entry, and then purges nothing: memory and store stay as loading
   * left them, so every later resolution of the name throws again.
   */
  lemma JammedExactly(c: Config, name: string, cell: Cell)
    ensures RemoteAnswer(c, name, cell).Failed? <==> c.remote && Jams(Load(c, cell).overlay.value, name)
    ensures RemoteAnswer(c, name, cell).Failed? ==>
      && ResolutionOf(c, name, RemoteAnswer(c, name, cell)) == Crashed
      && RemoteCell(c, name, cell) == Load(c, cell)
      && RemoteAnswer(c, name, RemoteCell(c, name, cell)).Failed?
  {
    hide Verify, Intact, Load;
    var entries := Load(c, cell).overlay.value;
    LoadedStays(c, Load(c, cell));
    FailsOnJammed(c, name, entries);
  }

  /** A stored document that jams a name: any text under its own digest. */
  function JammingDocument(name: string, version: string, text: Text): Stored {
    Saved(map[name := Entry(Cached(name, version, Sha256Spec.HexDigest(EncodeText(text)), text, NotText, ""))])
  }

  /** For every entitled name and every text there is a document on which a new registry throws, for ever. */
  lemma StoredDocumentJams(c: Config, name: string, version: string, text: Text)
    requires c.remote && Entitled(c, name) && c.host.works(0)
    ensures var cell := Cell(None, JammingDocument(name, version, text), 0);
      && ResolutionOf(c, name, RemoteAnswer(c, name, cell)) == Crashed
      && RemoteCell(c, name, cell).stored == cell.stored
      && RemoteAnswer(c, name, RemoteCell(c, name, cell)).Failed?
  {
    hide Verify, Entitled, EncodeText, Sha256Spec.HexDigest, Lookup;
    var cell := Cell(None, JammingDocument(name, version, text), 0);
    var entries := Usable(cell.stored);
    assert name in entries && entries.Keys == {name};
    assert Prune(c, entries) == entries;
    assert Load(c, cell).overlay == Some(entries) && Load(c, cell).stored == cell.stored;
    JammedExactly(c, name, cell);
  }
}
