/**
  The journal directory as a pair of maps, and every journal operation as a
  function from a directory to a directory.

  `visible` is what the process reads; `durable` is the part that survives a
  power loss. A directory fsync makes every visible entry durable. A call is
  given the set of I/O points that fail in it, so each function covers every
  pattern of failures. A failed point ends the call with no further effect, so
  a crash in the middle of a call is that call failing at its next point,
  followed by `Crash` at the call boundary.
*/
module JournalSpec {
  import opened Common
  import opened JournalRecords

  const MAX_RECORD := 32768

  datatype Name = Name(key: string, kind: Kind)

  datatype Dir = Dir(visible: map<Name, Bytes>, durable: map<Name, Bytes>)

  const EMPTY := Dir(map[], map[])

  function PathOf(lib: Lib, org: string, request: string, kind: Kind): Name {
    Name(RecordKey(lib, org, request), kind)
  }

  /** The stages of `publishJournalFile`, in order. */
  datatype Stage = CheckDirectory | CreateTemp | Chmod | Write | ShortWrite | SyncTemp | CloseTemp | Rename | SyncDirectory

  /** Every I/O point a journal call can reach. */
  datatype Point =
    | LoadCheck | Read(Kind) | RereadExecution | LoadSync
    | Put(Kind, Stage) | ReadOld(Kind) | Resync(Kind)

  type Faults = Point -> bool

  function Sync(d: Dir): Dir {
    Dir(d.visible, d.visible)
  }

  datatype Published = Published | Exists | PublishFailed

  predicate FailsBeforeRename(io: Stage -> bool) {
    io(CheckDirectory) || io(CreateTemp) || io(Chmod) || io(Write) || io(ShortWrite) || io(SyncTemp) || io(CloseTemp)
  }

  /** Publication never replaces: a name that is taken is left as it is. */
  function Publish(d: Dir, n: Name, raw: Bytes, closed: bool, io: Stage -> bool): (Dir, Published) {
    if closed || FailsBeforeRename(io) || io(Rename) then (d, PublishFailed)
    else if n in d.visible then (d, Exists)
    else
      var renamed := Dir(d.visible[n := raw], d.durable);
      if io(SyncDirectory) then (renamed, PublishFailed) else (Sync(renamed), Published)
  }

  /** `put`: publish, or confirm that the taken name holds the same bytes. */
  function PutBytes(d: Dir, n: Name, raw: Bytes, closed: bool, io: Faults): (Dir, Outcome<Error>) {
    if |raw| == 0 || |raw| > MAX_RECORD then (d, Failed(Integrity))
    else
      var (d', p) := Publish(d, n, raw, closed, (s: Stage) => io(Put(n.kind, s)));
      match p
      case Published => (d', Done)
      case PublishFailed => (d', Failed(Io))
      case Exists =>
        if io(ReadOld(n.kind)) || n !in d'.visible then (d', Failed(Io))
        else if d'.visible[n] != raw then (d', Failed(Conflict))
        else if io(Resync(n.kind)) then (d', Failed(Io))
        else (Sync(d'), Done)
  }

  /** `readJournalFile`, with a missing file reported as `None`. */
  function ReadFile(v: map<Name, Bytes>, n: Name, fault: bool): Result<Option<Bytes>, Error> {
    if fault then Err(Io)
    else if n !in v then Ok(None)
    else if |v[n]| == 0 || |v[n]| > MAX_RECORD then Err(Integrity)
    else Ok(Some(v[n]))
  }

  function ReadRecord<T>(v: map<Name, Bytes>, n: Name, codec: Codec<T>, fault: bool): Result<Option<T>, Error> {
    var raw :- ReadFile(v, n, fault);
    if raw.None? then Ok(None)
    else match codec.decode(raw.value)
      case None => Err(Integrity)
      case Some(x) => Ok(Some(x))
  }

  function LoadAdmission(lib: Lib, v: map<Name, Bytes>, org: string, request: string, io: Faults): Result<Option<Admission>, Error> {
    var found :- ReadRecord(v, PathOf(lib, org, request, AdmissionKind), lib.admission, io(Read(AdmissionKind)));
    if found.None? then Ok(None)
    else if found.value.org != org || found.value.request != request || !ValidAdmission(lib, found.value) then Err(Integrity)
    else Ok(found)
  }

  function LoadReceipt(lib: Lib, v: map<Name, Bytes>, org: string, request: string, admission: Option<Admission>, io: Faults): Result<Option<SavedReceipt>, Error> {
    var found :- ReadRecord(v, PathOf(lib, org, request, ReceiptKind), lib.receipt, io(Read(ReceiptKind)));
    if found.None? then Ok(None)
    else if admission.None? || !ValidReceipt(lib, admission.value, found.value) then Err(Integrity)
    else Ok(found)
  }

  function LoadAcknowledgement(lib: Lib, v: map<Name, Bytes>, org: string, request: string, receipt: Option<SavedReceipt>, io: Faults): Result<Bytes, Error> {
    var found :- ReadRecord(v, PathOf(lib, org, request, AckKind), lib.ack, io(Read(AckKind)));
    if found.None? then Ok([])
    else if receipt.None? then Err(Integrity)
    else
      var ack := found.value;
      if ack.version != 1 || ack.org != org || ack.request != request || ack.receiptHash != lib.sha256(receipt.value.body) then Err(Integrity)
      else if !ValidApplication(lib, ack.application, request) then Err(Integrity)
      else Ok(ack.application)
  }

  function LoadExecution(lib: Lib, v: map<Name, Bytes>, org: string, request: string, s: State, io: Faults): Result<Option<ExecutionBinding>, Error> {
    var n := PathOf(lib, org, request, ExecutionKind);
    var execution :- ReadRecord(v, n, lib.execution, io(Read(ExecutionKind)));
    var known :- ReadRecord(v, PathOf(lib, org, request, KnownKind), lib.known, io(Read(KnownKind)));
    if execution.Some? != known.Some? then Err(Integrity)
    else if execution.None? then Ok(None)
    else if !ValidExecution(lib, s, execution.value) then Err(Integrity)
    else
      var raw :- ReadFile(v, n, io(RereadExecution));
      if raw.None? then Err(Io)
      else if known.value.version != 1 || known.value.org != org || known.value.request != request
        || known.value.authorizationHash != s.admission.value.authorizationHash then Err(Integrity)
      else if known.value.bindingHash != lib.sha256(raw.value) then Err(Integrity)
      else Ok(execution)
  }

  /** The four record loaders in order, before the closing directory sync. */
  function LoadRecords(lib: Lib, v: map<Name, Bytes>, org: string, request: string, io: Faults): Result<State, Error> {
    var admission :- LoadAdmission(lib, v, org, request, io);
    var receipt :- LoadReceipt(lib, v, org, request, admission, io);
    var application :- LoadAcknowledgement(lib, v, org, request, receipt, io);
    var s := State(admission, receipt, application, None);
    var execution :- LoadExecution(lib, v, org, request, s, io);
    Ok(s.(execution := execution))
  }

  /** `loadStateLocked`: nothing is returned before the directory is synced. */
  function Load(lib: Lib, d: Dir, closed: bool, org: string, request: string, io: Faults): (Dir, Result<State, Error>) {
    if !lib.validReference(org) || !lib.validReference(request) then (d, Err(Integrity))
    else if closed then (d, Err(Integrity))
    else if io(LoadCheck) then (d, Err(Io))
    else
      var s := LoadRecords(lib, d.visible, org, request, io);
      if s.Err? then (d, s)
      else if io(LoadSync) then (d, Err(Io))
      else (Sync(d), s)
  }

  function Admit(lib: Lib, d: Dir, closed: bool, a: Admission, io: Faults): (Dir, Outcome<Error>) {
    if !ValidAdmission(lib, a) then (d, Failed(Integrity))
    else
      var (d', s) := Load(lib, d, closed, a.org, a.request, io);
      if s.Err? then (d', Failed(s.error))
      else if s.value.admission.Some? then
        var earlier := s.value.admission.value;
        (d', if lib.admission.encode(earlier) != lib.admission.encode(a.(admittedAt := earlier.admittedAt)) then Failed(Conflict) else Done)
      else PutBytes(d', PathOf(lib, a.org, a.request, AdmissionKind), lib.admission.encode(a), closed, io)
  }

  function SaveReceipt(lib: Lib, d: Dir, closed: bool, r: SavedReceipt, io: Faults): (Dir, Outcome<Error>) {
    var (d', s) := Load(lib, d, closed, r.org, r.request, io);
    if s.Err? then (d', Failed(s.error))
    else if s.value.admission.None? then (d', Failed(Integrity))
    else if !ValidReceipt(lib, s.value.admission.value, r) then (d', Failed(Integrity))
    else PutBytes(d', PathOf(lib, r.org, r.request, ReceiptKind), lib.receipt.encode(r), closed, io)
  }

  function Acknowledge(lib: Lib, d: Dir, closed: bool, org: string, request: string, application: Bytes, io: Faults): (Dir, Outcome<Error>) {
    var (d', s) := Load(lib, d, closed, org, request, io);
    if s.Err? then (d', Failed(s.error))
    else if s.value.receipt.None? then (d', Failed(Integrity))
    else if !ValidApplication(lib, application, request) then (d', Failed(Integrity))
    else
      var ack := DeliveryAck(1, org, request, lib.sha256(s.value.receipt.value.body), application);
      PutBytes(d', PathOf(lib, org, request, AckKind), lib.ack.encode(ack), closed, io)
  }

  function KnownFor(lib: Lib, x: ExecutionBinding): ExecutionKnown {
    ExecutionKnown(1, x.org, x.request, x.authorizationHash, lib.sha256(lib.execution.encode(x)))
  }

  function BindExecution(lib: Lib, d: Dir, closed: bool, x: ExecutionBinding, io: Faults): (Dir, Outcome<Error>) {
    var (d', s) := Load(lib, d, closed, x.org, x.request, io);
    if s.Err? then (d', Failed(s.error))
    else if !ValidExecution(lib, s.value, x) then (d', Failed(Integrity))
    else
      var (d'', known) := PutBytes(d', PathOf(lib, x.org, x.request, KnownKind), lib.known.encode(KnownFor(lib, x)), closed, io);
      if known.Failed? then (d'', known)
      else PutBytes(d'', PathOf(lib, x.org, x.request, ExecutionKind), lib.execution.encode(x), closed, io)
  }

  /** Power loss and restart: durable entries survive with any part of the rest, and what survived is on disk. */
  function Crash(d: Dir, kept: set<Name>): Dir {
    var survived := map n | n in d.visible && (n in d.durable || n in kept) :: d.visible[n];
    Dir(survived, survived)
  }

  /** The kernel may write any visible entry back at any time. */
  function Writeback(d: Dir, flushed: set<Name>): Dir {
    Dir(d.visible, map n | n in d.visible && (n in d.durable || n in flushed) :: d.visible[n])
  }
}
