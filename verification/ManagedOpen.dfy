/**
  The two-file identity protocol that binds one journal directory to one
  primary share store: a marker in the store and an equal identity file in the
  journal, published in that order.
*/
module ManagedOpen {
  import opened Common
  import opened JournalRecords
  import JournalSpec

  type Stage = JournalSpec.Stage

  datatype Identity = Identity(version: int, id: string, directory: string)

  /** A marker in a primary store, an identity file in a journal directory, or that directory itself. */
  datatype File = Marker(primary: string) | IdentityFile(directory: string) | Folder(directory: string)

  datatype Disk = Disk(visible: map<File, Bytes>, durable: map<File, Bytes>)

  const NOTHING := Disk(map[], map[])

  datatype Lib = Lib(codec: Codec<Identity>, validId: string -> bool)

  datatype Point =
    | Paths | ReadMarker | ReadIdentity | SyncPrimary | OpenJournal | StatIdentity | MakeDirectory | SyncParent | Random
    | PublishMarker(Stage) | PublishIdentity(Stage)

  type Faults = Point -> bool

  function WithDurable(d: Disk, f: File): Disk {
    if f in d.visible then d.(durable := d.durable[f := d.visible[f]]) else d
  }

  function Publish(d: Disk, f: File, raw: Bytes, io: Stage -> bool): (Disk, bool) {
    if JournalSpec.FailsBeforeRename(io) || io(JournalSpec.Rename) || f in d.visible then (d, false)
    else
      var renamed := d.(visible := d.visible[f := raw]);
      if io(JournalSpec.SyncDirectory) then (renamed, false) else (WithDurable(renamed, f), true)
  }

  /** An initialized store: both files must exist and agree. */
  function Reopen(lib: Lib, d: Disk, directory: string, primary: string, io: Faults): (Disk, Result<string, Error>)
    requires Marker(primary) in d.visible
  {
    var marker := d.visible[Marker(primary)];
    var identity := lib.codec.decode(marker);
    if identity.None? then (d, Err(Integrity))
    else if identity.value.version != 1 || !lib.validId(identity.value.id) || identity.value.directory != directory then (d, Err(Integrity))
    else if io(ReadIdentity) || IdentityFile(directory) !in d.visible || d.visible[IdentityFile(directory)] != marker then (d, Err(Integrity))
    else if io(SyncPrimary) then (d, Err(Io))
    else
      var synced := WithDurable(d, Marker(primary));
      if io(OpenJournal) then (synced, Err(Io)) else (WithDurable(synced, IdentityFile(directory)), Ok(identity.value.id))
  }

  /** A store without marker: refused if the journal has an identity, otherwise initialized. */
  function Initialize(lib: Lib, d: Disk, directory: string, primary: string, auto: bool, freshId: string, io: Faults): (Disk, Result<string, Error>)
    requires Marker(primary) !in d.visible
  {
    var folder := Folder(directory);
    if io(StatIdentity) then (d, Err(Io))
    else if IdentityFile(directory) in d.visible then (d, Err(Integrity))
    else if folder !in d.visible && (!auto || io(MakeDirectory)) then (d, Err(Io))
    else
      var made := if folder in d.visible then d else d.(visible := d.visible[folder := ""]);
      if io(SyncParent) then (made, Err(Io))
      else
        var kept := WithDurable(made, folder);
        if io(OpenJournal) || io(Random) then (kept, Err(Io))
        else
          var raw := lib.codec.encode(Identity(1, freshId, directory));
          var (marked, ok) := Publish(kept, Marker(primary), raw, (s: Stage) => io(PublishMarker(s)));
          if !ok then (marked, Err(Io))
          else
            var (bound, done) := Publish(marked, IdentityFile(directory), raw, (s: Stage) => io(PublishIdentity(s)));
            (bound, if done then Ok(freshId) else Err(Io))
  }

  function Open(lib: Lib, d: Disk, directory: string, primary: string, auto: bool, freshId: string, io: Faults): (Disk, Result<string, Error>) {
    if io(Paths) || io(ReadMarker) then (d, Err(Io))
    else if Marker(primary) in d.visible then Reopen(lib, d, directory, primary, io)
    else Initialize(lib, d, directory, primary, auto, freshId, io)
  }

  /** The store object, with the protocol written out in the order it touches the disk. */
  class Store {
    const lib: Lib
    var disk: Disk

    constructor (lib: Lib, disk: Disk)
      ensures this.lib == lib && this.disk == disk
    {
      this.lib, this.disk := lib, disk;
    }

    method PublishFile(f: File, raw: Bytes, io: Stage -> bool) returns (ok: bool)
      modifies this
      ensures (disk, ok) == Publish(old(disk), f, raw, io)
    {
      if JournalSpec.FailsBeforeRename(io) { return false; }
      if io(JournalSpec.Rename) || f in disk.visible { return false; }
      disk := disk.(visible := disk.visible[f := raw]);
      if io(JournalSpec.SyncDirectory) { return false; }
      disk := disk.(durable := disk.durable[f := raw]);
      return true;
    }

    method OpenManaged(directory: string, primary: string, auto: bool, freshId: string, io: Faults) returns (r: Result<string, Error>)
      modifies this
      ensures (disk, r) == Open(lib, old(disk), directory, primary, auto, freshId, io)
    {
      if io(Paths) || io(ReadMarker) { return Err(Io); }
      var markerPath, identityPath, folder := Marker(primary), IdentityFile(directory), Folder(directory);
      if markerPath in disk.visible {
        var marker := disk.visible[markerPath];
        var identity := lib.codec.decode(marker);
        if identity.None? || identity.value.version != 1 || !lib.validId(identity.value.id) || identity.value.directory != directory {
          return Err(Integrity);
        }
        if io(ReadIdentity) || identityPath !in disk.visible || disk.visible[identityPath] != marker { return Err(Integrity); }
        if io(SyncPrimary) { return Err(Io); }
        disk := disk.(durable := disk.durable[markerPath := marker]);
        if io(OpenJournal) { return Err(Io); }
        disk := disk.(durable := disk.durable[identityPath := marker]);
        return Ok(identity.value.id);
      }
      if io(StatIdentity) { return Err(Io); }
      if identityPath in disk.visible { return Err(Integrity); }
      if folder !in disk.visible {
        if !auto || io(MakeDirectory) { return Err(Io); }
        disk := disk.(visible := disk.visible[folder := ""]);
      }
      if io(SyncParent) { return Err(Io); }
      disk := disk.(durable := disk.durable[folder := disk.visible[folder]]);
      if io(OpenJournal) || io(Random) { return Err(Io); }
      var raw := lib.codec.encode(Identity(1, freshId, directory));
      var markerStages, identityStages := (s: Stage) => io(PublishMarker(s)), (s: Stage) => io(PublishIdentity(s));
      var ok := PublishFile(markerPath, raw, markerStages);
      if !ok { return Err(Io); }
      ok := PublishFile(identityPath, raw, identityStages);
      return if ok then Ok(freshId) else Err(Io);
    }
  }

  /** Either of the two identity files. */
  type IdentityCopy = f: File | !f.Folder? witness Marker("")

  datatype Event =
    | OpenEvent(directory: string, primary: string, auto: bool, freshId: string, io: Faults)
    | LoseEvent(file: IdentityCopy)
    | FlushEvent(flushed: set<File>)
    | CrashEvent(kept: set<File>)

  function Restrict(m: map<File, Bytes>, d: Disk, keep: set<File>): map<File, Bytes> {
    map f | f in m && (f in d.durable || f in keep) :: m[f]
  }

  function Step(lib: Lib, d: Disk, e: Event): Disk {
    match e
    case OpenEvent(directory, primary, auto, freshId, io) => Open(lib, d, directory, primary, auto, freshId, io).0
    case LoseEvent(f) => Disk(d.visible - {f}, d.durable - {f})
    case FlushEvent(flushed) => d.(durable := Restrict(d.visible, d, flushed))
    case CrashEvent(kept) => Disk(Restrict(d.visible, d, kept), Restrict(d.visible, d, kept))
  }

  function Run(lib: Lib, d: Disk, events: seq<Event>): Disk
    decreases events
  {
    if events == [] then d else Run(lib, Step(lib, d, events[0]), events[1..])
  }

  ghost predicate DurableIsVisible(d: Disk) {
    forall f | f in d.durable :: f in d.visible && d.visible[f] == d.durable[f]
  }

  /** A file once durable stays, unless it is the one lost. */
  ghost predicate Keeps(d: Disk, d': Disk, lost: set<File>) {
    forall f | f in d.durable && f !in lost :: f in d'.durable && d'.durable[f] == d.durable[f]
  }

  lemma PublishKeeps(d: Disk, f: File, raw: Bytes, io: Stage -> bool)
    requires DurableIsVisible(d)
    ensures var (d', ok) := Publish(d, f, raw, io);
            && DurableIsVisible(d') && Keeps(d, d', {})
            && (ok ==> f in d'.durable && d'.durable[f] == raw)
            && (forall g | g in d.visible :: g in d'.visible && d'.visible[g] == d.visible[g])
  {
  }

  lemma InitializeKeeps(lib: Lib, d: Disk, directory: string, primary: string, auto: bool, freshId: string, io: Faults)
    requires DurableIsVisible(d) && Marker(primary) !in d.visible
    ensures var (d', r) := Initialize(lib, d, directory, primary, auto, freshId, io);
            && DurableIsVisible(d') && Keeps(d, d', {})
            && (r.Ok? ==>
                  var raw := lib.codec.encode(Identity(1, freshId, directory));
                  && r == Ok(freshId) && IdentityFile(directory) !in d.visible
                  && Folder(directory) in d'.durable
                  && Marker(primary) in d'.durable && d'.durable[Marker(primary)] == raw
                  && IdentityFile(directory) in d'.durable && d'.durable[IdentityFile(directory)] == raw)
  {
    hide Publish;
    var folder := Folder(directory);
    var made := if folder in d.visible then d else d.(visible := d.visible[folder := ""]);
    var kept := WithDurable(made, folder);
    var raw := lib.codec.encode(Identity(1, freshId, directory));
    PublishKeeps(kept, Marker(primary), raw, (s: Stage) => io(PublishMarker(s)));
    var (marked, _) := Publish(kept, Marker(primary), raw, (s: Stage) => io(PublishMarker(s)));
    PublishKeeps(marked, IdentityFile(directory), raw, (s: Stage) => io(PublishIdentity(s)));
  }

  lemma OpenKeeps(lib: Lib, d: Disk, e: Event)
    requires DurableIsVisible(d) && e.OpenEvent?
    ensures DurableIsVisible(Step(lib, d, e)) && Keeps(d, Step(lib, d, e), {})
  {
    hide Initialize;
    if Marker(e.primary) !in d.visible {
      InitializeKeeps(lib, d, e.directory, e.primary, e.auto, e.freshId, e.io);
    }
  }

  lemma StepKeeps(lib: Lib, d: Disk, e: Event)
    requires DurableIsVisible(d)
    ensures DurableIsVisible(Step(lib, d, e))
    ensures Keeps(d, Step(lib, d, e), if e.LoseEvent? then {e.file} else {})
  {
    if e.OpenEvent? { OpenKeeps(lib, d, e); }
  }

  /** The directory holding a visible identity file is itself on disk. */
  ghost predicate FoldersDurable(d: Disk) {
    forall directory | IdentityFile(directory) in d.visible :: Folder(directory) in d.durable
  }

  lemma StepKeepsFolders(lib: Lib, d: Disk, e: Event)
    requires DurableIsVisible(d) && FoldersDurable(d)
    ensures FoldersDurable(Step(lib, d, e))
  {
    StepKeeps(lib, d, e);
    if e.OpenEvent? && Marker(e.primary) !in d.visible {
      InitializeFolders(lib, d, e.directory, e.primary, e.auto, e.freshId, e.io);
    }
  }

  lemma InitializeFolders(lib: Lib, d: Disk, directory: string, primary: string, auto: bool, freshId: string, io: Faults)
    requires DurableIsVisible(d) && FoldersDurable(d) && Marker(primary) !in d.visible
    ensures FoldersDurable(Initialize(lib, d, directory, primary, auto, freshId, io).0)
  {
  }

  /** Whatever was opened, lost, written back or cut off by a power loss, the disk stays consistent. */
  lemma {:induction false} RunKeepsConsistent(lib: Lib, d: Disk, events: seq<Event>)
    requires DurableIsVisible(d) && FoldersDurable(d)
    ensures DurableIsVisible(Run(lib, d, events)) && FoldersDurable(Run(lib, d, events))
    decreases events
  {
    hide Step;
    if events != [] {
      StepKeeps(lib, d, events[0]);
      StepKeepsFolders(lib, d, events[0]);
      RunKeepsConsistent(lib, Step(lib, d, events[0]), events[1..]);
    }
  }

  /** The pair of files of one identity is on disk, together with the directory that holds the second. */
  predicate DurablePair(lib: Lib, d: Disk, directory: string, primary: string, id: string) {
    && Folder(directory) in d.durable
    && Marker(primary) in d.durable && IdentityFile(directory) in d.durable
    && d.durable[Marker(primary)] == d.durable[IdentityFile(directory)]
    && lib.codec.decode(d.durable[Marker(primary)]) == Some(Identity(1, id, directory))
  }

  /**
    Every successful open of a consistent disk, first or later, leaves a
    complete durable pair: a half pair is never usable.
  */
  lemma OpenMeansDurablePair(lib: Lib, d: Disk, directory: string, primary: string, auto: bool, freshId: string, io: Faults)
    requires RoundTrips(lib.codec, Identity(1, freshId, directory)) && DurableIsVisible(d) && FoldersDurable(d)
    requires Open(lib, d, directory, primary, auto, freshId, io).1.Ok?
    ensures var (d', r) := Open(lib, d, directory, primary, auto, freshId, io);
            DurablePair(lib, d', directory, primary, r.value)
  {
    hide Initialize;
    if Marker(primary) !in d.visible {
      InitializeKeeps(lib, d, directory, primary, auto, freshId, io);
    }
  }

  /** No stage of the initialization fails. */
  predicate Initializes(io: Faults) {
    && !io(Paths) && !io(ReadMarker) && !io(StatIdentity) && !io(SyncParent) && !io(OpenJournal) && !io(Random)
    && (forall stage: Stage :: !io(PublishMarker(stage)) && !io(PublishIdentity(stage)))
  }

  /**
    Exactly when an open initializes the pair, with a fresh identity: it meets
    neither a marker in the store nor an identity in the directory, the
    directory is there or can be made, and no stage fails.
  */
  lemma FreshIdentityExactly(lib: Lib, d: Disk, directory: string, primary: string, auto: bool, freshId: string, io: Faults)
    ensures (Marker(primary) !in d.visible && Open(lib, d, directory, primary, auto, freshId, io).1.Ok?)
            <==> (&& Marker(primary) !in d.visible && IdentityFile(directory) !in d.visible
                  && (Folder(directory) in d.visible || (auto && !io(MakeDirectory))) && Initializes(io))
    ensures Marker(primary) !in d.visible && Open(lib, d, directory, primary, auto, freshId, io).1.Ok? ==>
              Open(lib, d, directory, primary, auto, freshId, io).1.value == freshId
  {
    var marker, identity := (s: Stage) => io(PublishMarker(s)), (s: Stage) => io(PublishIdentity(s));
    StagesExactly(marker);
    StagesExactly(identity);
    assert forall stage: Stage :: marker(stage) == io(PublishMarker(stage)) && identity(stage) == io(PublishIdentity(stage));
    assert Initializes(io) ==> forall stage: Stage :: !marker(stage) && !identity(stage);
  }

  lemma StagesExactly(io: Stage -> bool)
    ensures (forall stage: Stage :: !io(stage)) <==>
              !JournalSpec.FailsBeforeRename(io) && !io(JournalSpec.Rename) && !io(JournalSpec.SyncDirectory)
  {
    if !JournalSpec.FailsBeforeRename(io) && !io(JournalSpec.Rename) && !io(JournalSpec.SyncDirectory) {
      forall stage: Stage
        ensures !io(stage)
      {
        match stage
        case CheckDirectory => case CreateTemp => case Chmod => case Write => case ShortWrite =>
        case SyncTemp => case CloseTemp => case Rename => case SyncDirectory =>
      }
    }
  }

  /** The identity an open may return. */
  predicate YieldsOnly(lib: Lib, d: Disk, e: Event, id: string)
    requires e.OpenEvent?
  {
    var r := Open(lib, d, e.directory, e.primary, e.auto, e.freshId, e.io).1;
    r.Ok? ==> r.value == id
  }

  lemma MarkerGuards(lib: Lib, d: Disk, e: Event, directory: string, id: string)
    requires DurableIsVisible(d) && e.OpenEvent?
    requires Marker(e.primary) in d.durable && lib.codec.decode(d.durable[Marker(e.primary)]) == Some(Identity(1, id, directory))
    ensures YieldsOnly(lib, d, e, id)
  {
  }

  lemma IdentityGuards(lib: Lib, d: Disk, e: Event, id: string)
    requires DurableIsVisible(d) && e.OpenEvent?
    requires IdentityFile(e.directory) in d.durable && lib.codec.decode(d.durable[IdentityFile(e.directory)]) == Some(Identity(1, id, e.directory))
    ensures YieldsOnly(lib, d, e, id)
  {
  }

  /** Every open in the run that uses this store, or this directory, yields only `id`. */
  ghost predicate AllYield(lib: Lib, d: Disk, events: seq<Event>, uses: Event -> bool, id: string)
    decreases events
  {
    events == [] ||
    (&& (events[0].OpenEvent? && uses(events[0]) ==> YieldsOnly(lib, d, events[0], id))
     && AllYield(lib, Step(lib, d, events[0]), events[1..], uses, id))
  }

  /**
    While the marker is not lost, every later open with that primary store, in
    any run of opens, losses and crashes, yields the same identity or fails.
  */
  lemma {:induction false} StoreKeepsIdentity(lib: Lib, d: Disk, events: seq<Event>, directory: string, primary: string, id: string)
    requires DurableIsVisible(d)
    requires Marker(primary) in d.durable && lib.codec.decode(d.durable[Marker(primary)]) == Some(Identity(1, id, directory))
    requires LoseEvent(Marker(primary)) !in events
    ensures AllYield(lib, d, events, (e: Event) => e.OpenEvent? && e.primary == primary, id)
    decreases events
  {
    hide Step;
    if events != [] {
      StepKeeps(lib, d, events[0]);
      if events[0].OpenEvent? && events[0].primary == primary { MarkerGuards(lib, d, events[0], directory, id); }
      StoreKeepsIdentity(lib, Step(lib, d, events[0]), events[1..], directory, primary, id);
    }
  }

  /** While the identity file is not lost, every later open with that journal directory yields the same identity or fails. */
  lemma {:induction false} DirectoryKeepsIdentity(lib: Lib, d: Disk, events: seq<Event>, directory: string, id: string)
    requires DurableIsVisible(d)
    requires IdentityFile(directory) in d.durable && lib.codec.decode(d.durable[IdentityFile(directory)]) == Some(Identity(1, id, directory))
    requires LoseEvent(IdentityFile(directory)) !in events
    ensures AllYield(lib, d, events, (e: Event) => e.OpenEvent? && e.directory == directory, id)
    decreases events
  {
    hide Step;
    if events != [] {
      StepKeeps(lib, d, events[0]);
      if events[0].OpenEvent? && events[0].directory == directory { IdentityGuards(lib, d, events[0], id); }
      DirectoryKeepsIdentity(lib, Step(lib, d, events[0]), events[1..], directory, id);
    }
  }

  lemma {:induction false} AllYieldNarrows(lib: Lib, d: Disk, events: seq<Event>, uses: Event -> bool, fewer: Event -> bool, id: string)
    requires AllYield(lib, d, events, uses, id)
    requires forall e: Event | fewer(e) :: uses(e)
    ensures AllYield(lib, d, events, fewer, id)
    decreases events
  {
    if events != [] {
      AllYieldNarrows(lib, Step(lib, d, events[0]), events[1..], uses, fewer, id);
    }
  }

  /**
    After one successful open of a store and directory, every later open of that
    same store and directory yields the same identity or fails, through any
    crashes and even if one of the two files, but not both, is lost.
  */
  lemma PairKeepsIdentity(lib: Lib, d: Disk, events: seq<Event>, directory: string, primary: string, id: string)
    requires DurableIsVisible(d) && DurablePair(lib, d, directory, primary, id)
    requires LoseEvent(Marker(primary)) !in events || LoseEvent(IdentityFile(directory)) !in events
    ensures AllYield(lib, d, events, (e: Event) => e.OpenEvent? && e.primary == primary && e.directory == directory, id)
  {
    var both := (e: Event) => e.OpenEvent? && e.primary == primary && e.directory == directory;
    if LoseEvent(Marker(primary)) !in events {
      StoreKeepsIdentity(lib, d, events, directory, primary, id);
      AllYieldNarrows(lib, d, events, (e: Event) => e.OpenEvent? && e.primary == primary, both, id);
    } else {
      DirectoryKeepsIdentity(lib, d, events, directory, id);
      AllYieldNarrows(lib, d, events, (e: Event) => e.OpenEvent? && e.directory == directory, both, id);
    }
  }

  /**
    The whole life of an identity: an open that succeeds after any earlier opens,
    losses, write-backs and power losses gives an identity that every later open
    of that store and directory yields, or fails, as long as at most one of the
    two files is lost; and every later open with that store alone as long as its
    marker is kept, and with that directory alone as long as its file is kept.
  */
  lemma OpenedIdentityStays(lib: Lib, before: seq<Event>, first: Event, after: seq<Event>)
    requires first.OpenEvent? && RoundTrips(lib.codec, Identity(1, first.freshId, first.directory))
    requires var d := Run(lib, NOTHING, before);
             Open(lib, d, first.directory, first.primary, first.auto, first.freshId, first.io).1.Ok?
    ensures var d := Run(lib, NOTHING, before);
            var (d', r) := Open(lib, d, first.directory, first.primary, first.auto, first.freshId, first.io);
            var markerKept, fileKept := LoseEvent(Marker(first.primary)) !in after, LoseEvent(IdentityFile(first.directory)) !in after;
            && DurablePair(lib, d', first.directory, first.primary, r.value)
            && (markerKept || fileKept ==>
                  AllYield(lib, d', after, (e: Event) => e.OpenEvent? && e.primary == first.primary && e.directory == first.directory, r.value))
            && (markerKept ==> AllYield(lib, d', after, (e: Event) => e.OpenEvent? && e.primary == first.primary, r.value))
            && (fileKept ==> AllYield(lib, d', after, (e: Event) => e.OpenEvent? && e.directory == first.directory, r.value))
  {
    hide Open, AllYield;
    var d := Run(lib, NOTHING, before);
    RunKeepsConsistent(lib, NOTHING, before);
    OpenMeansDurablePair(lib, d, first.directory, first.primary, first.auto, first.freshId, first.io);
    var (d', r) := Open(lib, d, first.directory, first.primary, first.auto, first.freshId, first.io);
    OpenKeeps(lib, d, first);
    if LoseEvent(Marker(first.primary)) !in after || LoseEvent(IdentityFile(first.directory)) !in after {
      PairKeepsIdentity(lib, d', after, first.directory, first.primary, r.value);
    }
    if LoseEvent(Marker(first.primary)) !in after {
      StoreKeepsIdentity(lib, d', after, first.directory, first.primary, r.value);
    }
    if LoseEvent(IdentityFile(first.directory)) !in after {
      DirectoryKeepsIdentity(lib, d', after, first.directory, r.value);
    }
  }

  /** The identity of a pair of files that agree and name this directory, as an open would find it. */
  function UsablePair(lib: Lib, d: Disk, directory: string, primary: string): Option<string> {
    if Marker(primary) !in d.visible || IdentityFile(directory) !in d.visible then None
    else if d.visible[Marker(primary)] != d.visible[IdentityFile(directory)] then None
    else
      var identity := lib.codec.decode(d.visible[Marker(primary)]);
      if identity.None? || identity.value.version != 1 || !lib.validId(identity.value.id) || identity.value.directory != directory then None
      else Some(identity.value.id)
  }

  /**
    For every set of failures: a marked store opens if and only if its pair is
    usable and none of its paths, the two reads, the store's sync and the journal
    fails; it then yields the pair's identity.
  */
  lemma ReopenExactly(lib: Lib, d: Disk, directory: string, primary: string, auto: bool, freshId: string, io: Faults)
    requires Marker(primary) in d.visible
    ensures var r, pair := Open(lib, d, directory, primary, auto, freshId, io).1, UsablePair(lib, d, directory, primary);
            && (r.Ok? <==> pair.Some? && forall p | p in {Paths, ReadMarker, ReadIdentity, SyncPrimary, OpenJournal} :: !io(p))
            && (r.Ok? ==> Some(r.value) == pair)
  {
    hide Initialize;
  }

  /**
    For every disk and every open that nothing disturbs: it yields `id` or fails
    if and only if, with a marker in the store, the pair it meets is unusable or
    is `id`'s; and, without one, the directory has an identity file or cannot be
    made, or the fresh identity is `id` itself.
  */
  lemma LaterOpenExactly(lib: Lib, d: Disk, e: Event, id: string)
    requires e.OpenEvent? && forall p: Point :: !e.io(p)
    ensures YieldsOnly(lib, d, e, id) <==>
              if Marker(e.primary) in d.visible
              then UsablePair(lib, d, e.directory, e.primary) in {None, Some(id)}
              else IdentityFile(e.directory) in d.visible || !(Folder(e.directory) in d.visible || e.auto) || e.freshId == id
  {
    hide Initialize;
    if Marker(e.primary) !in d.visible {
      FreshIdentityExactly(lib, d, e.directory, e.primary, e.auto, e.freshId, e.io);
    }
  }

  /**
    With the marker lost, the same store opened with another directory is a new
    installation: it succeeds with a fresh identity.
  */
  lemma LostMarkerRebinds(lib: Lib, d: Disk, primary: string, other: string, freshId: string, io: Faults)
    requires IdentityFile(other) !in d.visible && forall p: Point :: !io(p)
    ensures var lost := Step(lib, d, LoseEvent(Marker(primary)));
            Open(lib, lost, other, primary, true, freshId, io).1 == Ok(freshId)
  {
    FreshIdentityExactly(lib, Step(lib, d, LoseEvent(Marker(primary))), other, primary, true, freshId, io);
  }

  /** With the identity file lost, the same directory opened with another, unmarked store succeeds with a fresh identity. */
  lemma LostIdentityRebinds(lib: Lib, d: Disk, directory: string, other: string, freshId: string, io: Faults)
    requires Marker(other) !in d.visible && forall p: Point :: !io(p)
    ensures var lost := Step(lib, d, LoseEvent(IdentityFile(directory)));
            Open(lib, lost, directory, other, true, freshId, io).1 == Ok(freshId)
  {
    FreshIdentityExactly(lib, Step(lib, d, LoseEvent(IdentityFile(directory))), directory, other, true, freshId, io);
  }
}
