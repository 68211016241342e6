/**
  The dispatcher as a protocol over the journal: one work item at a time, each
  journal call and each external effect a step, interleaved in any order with
  the sign gate's journal calls, writeback, power losses and restarts.
*/
module DispatcherProtocol {
  import opened Common
  import opened JournalRecords
  import opened JournalSpec
  import opened JournalInvariant
  import opened JournalRuns

  /** One decision body handed to the backend. */
  datatype Sent = Sent(org: string, request: string, body: Bytes)

  datatype Work =
    | Idle
    | Fresh(org: string, request: string, authorizationHash: string)
    | Admitted(admission: Admission)
    | Evaluated(admission: Admission)
    | Delivering(receipt: SavedReceipt)
    | Delivered(receipt: SavedReceipt, application: Bytes)

  datatype Sys = Sys(dir: Dir, work: Work, sent: seq<Sent>, evaluations: nat)

  datatype Move =
    | Lookup(org: string, request: string, authorizationHash: string, io: Faults)
    | Scan(found: Option<SavedReceipt>, synced: bool)
    | AdmitMove(admission: Admission, io: Faults)
    | Evaluate
    | Save(receipt: SavedReceipt, io: Faults)
    | Send(reply: Option<Bytes>)
    | Ack(io: Faults)
    | GiveUp
    | GateLoad(org: string, request: string, io: Faults)
    | GateBind(binding: ExecutionBinding, io: Faults)
    | Flush(flushed: set<Name>)
    | Restart(kept: set<Name>)

  const START := Sys(EMPTY, Idle, [], 0)

  function KeyOf(lib: Lib, r: SavedReceipt): string {
    RecordKey(lib, r.org, r.request)
  }

  /** The receipt is visible and its delivery is not acknowledged. */
  predicate Unacknowledged(lib: Lib, v: map<Name, Bytes>, r: SavedReceipt) {
    ReceiptAt(lib, v, KeyOf(lib, r)) == Some(r) && Name(KeyOf(lib, r), AckKind) !in v
  }

  /** The next state, or `None` where the dispatcher never makes the move. */
  function Next(lib: Lib, s: Sys, m: Move): Option<Sys> {
    match m
    case Lookup(org, request, hash, io) =>
      if s.work != Idle then None
      else
        var (d, r) := Load(lib, s.dir, false, org, request, io);
        var work :=
          if r.Err? then Idle
          else if r.value.admission.Some? && r.value.admission.value.authorizationHash != hash then Idle
          else if r.value.receipt.None? then Fresh(org, request, hash)
          else if r.value.application == [] then Delivering(r.value.receipt.value)
          else Idle;
        Some(s.(dir := d, work := work))
    case Scan(found, synced) =>
      if s.work != Idle || (found.Some? && !(synced && Unacknowledged(lib, s.dir.visible, found.value))) then None
      else Some(s.(dir := if synced then Sync(s.dir) else s.dir, work := if found.Some? then Delivering(found.value) else Idle))
    case AdmitMove(a, io) =>
      if s.work != Fresh(a.org, a.request, a.authorizationHash) then None
      else
        var (d, r) := Admit(lib, s.dir, false, a, io);
        Some(s.(dir := d, work := if r.Done? then Admitted(a) else Idle))
    case Evaluate =>
      if !s.work.Admitted? || s.work.admission.mode != "external" then None
      else Some(s.(work := Evaluated(s.work.admission), evaluations := s.evaluations + 1))
    case Save(r, io) =>
      if !(s.work.Evaluated? || (s.work.Admitted? && s.work.admission.mode != "external"))
        || r.org != s.work.admission.org || r.request != s.work.admission.request then None
      else
        var (d, saved) := SaveReceipt(lib, s.dir, false, r, io);
        Some(s.(dir := d, work := if saved.Done? then Delivering(r) else Idle))
    case Send(reply) =>
      if !s.work.Delivering? then None
      else
        var r := s.work.receipt;
        Some(s.(sent := s.sent + [Sent(r.org, r.request, r.body)],
                work := if reply.Some? then Delivered(r, reply.value) else Idle))
    case Ack(io) =>
      if !s.work.Delivered? then None
      else
        var (d, _) := Acknowledge(lib, s.dir, false, s.work.receipt.org, s.work.receipt.request, s.work.application, io);
        Some(s.(dir := d, work := Idle))
    case GiveUp => Some(s.(work := Idle))
    case GateLoad(org, request, io) => Some(s.(dir := Load(lib, s.dir, false, org, request, io).0))
    case GateBind(x, io) => Some(s.(dir := BindExecution(lib, s.dir, false, x, io).0))
    case Flush(flushed) => Some(s.(dir := Writeback(s.dir, flushed)))
    case Restart(kept) => Some(s.(dir := Crash(s.dir, kept), work := Idle))
  }

  function Play(lib: Lib, s: Sys, moves: seq<Move>): Option<Sys>
    decreases moves
  {
    if moves == [] then Some(s)
    else
      var next := Next(lib, s, moves[0]);
      if next.None? then None else Play(lib, next.value, moves[1..])
  }

  lemma {:induction false} PlayAppend(lib: Lib, s: Sys, moves: seq<Move>, more: seq<Move>)
    requires Play(lib, s, moves).Some?
    ensures Play(lib, s, moves + more) == Play(lib, Play(lib, s, moves).value, more)
    decreases moves
  {
    hide Next;
    if moves == [] {
      assert moves + more == more;
    } else {
      assert (moves + more)[1..] == moves[1..] + more;
      PlayAppend(lib, Next(lib, s, moves[0]).value, moves[1..], more);
    }
  }

  /** The durable receipt of the request carries exactly this body. */
  predicate SentIsDurable(lib: Lib, d: Dir, x: Sent) {
    var r := ReceiptAt(lib, d.durable, RecordKey(lib, x.org, x.request));
    r.Some? && r.value.org == x.org && r.value.request == x.request && r.value.body == x.body
  }

  ghost predicate WorkOk(lib: Lib, d: Dir, w: Work) {
    match w
    case Idle => true
    case Fresh(org, request, _) => PathOf(lib, org, request, ReceiptKind) !in d.visible
    case Admitted(a) => PathOf(lib, a.org, a.request, ReceiptKind) !in d.visible
    case Evaluated(a) => PathOf(lib, a.org, a.request, ReceiptKind) !in d.visible
    case Delivering(r) => ReceiptAt(lib, d.durable, KeyOf(lib, r)) == Some(r)
    case Delivered(r, _) => ReceiptAt(lib, d.durable, KeyOf(lib, r)) == Some(r)
  }

  ghost predicate SysInv(lib: Lib, s: Sys) {
    && Inv(lib, s.dir)
    && WorkOk(lib, s.dir, s.work)
    && forall i | 0 <= i < |s.sent| :: SentIsDurable(lib, s.dir, s.sent[i])
  }

  ghost predicate SameReceipts(d: Dir, d': Dir) {
    forall key: string :: Name(key, ReceiptKind) in d'.visible ==> Name(key, ReceiptKind) in d.visible
  }

  lemma KeptWork(lib: Lib, d: Dir, d': Dir, w: Work)
    requires WorkOk(lib, d, w) && KeepsDurable(d, d') && SameReceipts(d, d')
    ensures WorkOk(lib, d', w)
  {
  }

  lemma KeptSent(lib: Lib, d: Dir, d': Dir, sent: seq<Sent>)
    requires KeepsDurable(d, d') && forall i | 0 <= i < |sent| :: SentIsDurable(lib, d, sent[i])
    ensures forall i | 0 <= i < |sent| :: SentIsDurable(lib, d', sent[i])
  {
  }

  /** A publication of another kind adds no receipt. */
  lemma PutAddsNoReceipt(d: Dir, n: Name, raw: Bytes, closed: bool, io: Faults)
    requires n.kind != ReceiptKind
    ensures SameReceipts(d, PutBytes(d, n, raw, closed, io).0)
  {
  }

  lemma AdmitAddsNoReceipt(lib: Lib, d: Dir, a: Admission, io: Faults)
    ensures SameReceipts(d, Admit(lib, d, false, a, io).0)
  {
    hide PutBytes, LoadRecords;
    var (d', _) := Load(lib, d, false, a.org, a.request, io);
    PutAddsNoReceipt(d', PathOf(lib, a.org, a.request, AdmissionKind), lib.admission.encode(a), false, io);
  }

  lemma BindAddsNoReceipt(lib: Lib, d: Dir, x: ExecutionBinding, io: Faults)
    ensures SameReceipts(d, BindExecution(lib, d, false, x, io).0)
  {
    hide PutBytes, LoadRecords, ValidExecution;
    var (d1, _) := Load(lib, d, false, x.org, x.request, io);
    var k, raw := PathOf(lib, x.org, x.request, KnownKind), lib.known.encode(KnownFor(lib, x));
    PutAddsNoReceipt(d1, k, raw, false, io);
    var (d2, _) := PutBytes(d1, k, raw, false, io);
    PutAddsNoReceipt(d2, PathOf(lib, x.org, x.request, ExecutionKind), lib.execution.encode(x), false, io);
  }

  /** A successful load leaves what it returned durable. */
  lemma LookupOk(lib: Lib, s: Sys, m: Move)
    requires SysInv(lib, s) && m.Lookup? && Next(lib, s, m).Some?
    ensures WorkOk(lib, Next(lib, s, m).value.dir, Next(lib, s, m).value.work)
  {
    hide RecordOk, LoadRecords;
    LoadKeepsInv(lib, s.dir, false, m.org, m.request, m.io);
    var (d, r) := Load(lib, s.dir, false, m.org, m.request, m.io);
    if r.Ok? {
      LoadedRecords(lib, s.dir.visible, m.org, m.request, m.io);
      if r.value.receipt.Some? {
        ReceiptOwner(lib, s.dir, RecordKey(lib, m.org, m.request));
      }
    }
  }

  /** A visible receipt names the request whose key it is stored under. */
  lemma ReceiptOwner(lib: Lib, d: Dir, key: string)
    requires Inv(lib, d) && Name(key, ReceiptKind) in d.visible
    ensures var r := ReceiptAt(lib, d.visible, key); r.Some? && KeyOf(lib, r.value) == key
  {
    assert RecordOk(lib, d.visible, Name(key, ReceiptKind));
    assert Name(key, AdmissionKind) in d.durable;
    assert RecordOk(lib, d.visible, Name(key, AdmissionKind));
  }

  /** The directory of a move that makes one journal call. */
  function JournalEvent(s: Sys, m: Move): Option<Event> {
    match m
    case Lookup(org, request, _, io) => Some(LoadEvent(org, request, io))
    case Scan(_, synced) => if synced then Some(SyncEvent) else None
    case AdmitMove(a, io) => Some(AdmitEvent(a, io))
    case Save(r, io) => Some(SaveReceiptEvent(r, io))
    case Ack(io) => if s.work.Delivered? then Some(AcknowledgeEvent(s.work.receipt.org, s.work.receipt.request, s.work.application, io)) else None
    case GateLoad(org, request, io) => Some(LoadEvent(org, request, io))
    case GateBind(x, io) => Some(BindEvent(x, io))
    case Flush(flushed) => Some(WritebackEvent(flushed))
    case Restart(kept) => Some(CrashEvent(kept))
    case _ => None
  }

  lemma MoveIsEvent(lib: Lib, s: Sys, m: Move)
    requires Next(lib, s, m).Some?
    ensures var e := JournalEvent(s, m);
            Next(lib, s, m).value.dir == if e.Some? then Step(lib, s.dir, e.value) else s.dir
  {
    hide Load, Admit, SaveReceipt, Acknowledge, BindExecution, Crash, Writeback;
  }

  lemma AdmitWorkOk(lib: Lib, s: Sys, a: Admission, io: Faults)
    requires SysInv(lib, s) && Next(lib, s, AdmitMove(a, io)).Some?
    ensures WorkOk(lib, Next(lib, s, AdmitMove(a, io)).value.dir, Next(lib, s, AdmitMove(a, io)).value.work)
  {
    hide Admit, RecordOk, Inv;
    AdmitAddsNoReceipt(lib, s.dir, a, io);
    assert WorkOk(lib, s.dir, s.work);
  }

  lemma SaveWorkOk(lib: Lib, s: Sys, r: SavedReceipt, io: Faults)
    requires Faithful(lib) && SysInv(lib, s) && Next(lib, s, Save(r, io)).Some?
    ensures WorkOk(lib, Next(lib, s, Save(r, io)).value.dir, Next(lib, s, Save(r, io)).value.work)
  {
    hide SaveReceipt, RecordOk, Inv;
    SaveReceiptKeepsInv(lib, s.dir, false, r, io);
  }

  lemma NextWorkOk(lib: Lib, s: Sys, m: Move)
    requires Faithful(lib) && SysInv(lib, s) && Next(lib, s, m).Some?
    requires KeepsDurable(s.dir, Next(lib, s, m).value.dir)
    ensures WorkOk(lib, Next(lib, s, m).value.dir, Next(lib, s, m).value.work)
  {
    match m
    case Lookup(_, _, _, _) => LookupOk(lib, s, m);
    case AdmitMove(a, io) => AdmitWorkOk(lib, s, a, io);
    case Save(r, io) => SaveWorkOk(lib, s, r, io);
    case GateLoad(_, _, _) => KeptWorkOk(lib, s, m);
    case GateBind(_, _) => KeptWorkOk(lib, s, m);
    case Flush(_) => KeptWorkOk(lib, s, m);
    case _ =>
  }

  /** A move outside the dispatcher adds no receipt and loses none. */
  lemma KeptWorkOk(lib: Lib, s: Sys, m: Move)
    requires SysInv(lib, s) && Next(lib, s, m).Some? && (m.GateLoad? || m.GateBind? || m.Flush?)
    requires KeepsDurable(s.dir, Next(lib, s, m).value.dir)
    ensures WorkOk(lib, Next(lib, s, m).value.dir, Next(lib, s, m).value.work)
  {
    hide LoadRecords, BindExecution, RecordOk;
    if m.GateBind? { BindAddsNoReceipt(lib, s.dir, m.binding, m.io); }
    KeptWork(lib, s.dir, Next(lib, s, m).value.dir, s.work);
  }

  lemma NextSentOk(lib: Lib, s: Sys, m: Move)
    requires SysInv(lib, s) && Next(lib, s, m).Some?
    requires KeepsDurable(s.dir, Next(lib, s, m).value.dir)
    ensures var s' := Next(lib, s, m).value; forall i | 0 <= i < |s'.sent| :: SentIsDurable(lib, s'.dir, s'.sent[i])
  {
    hide RecordOk, Load, Admit, SaveReceipt, Acknowledge, BindExecution, Crash, Writeback;
    KeptSent(lib, s.dir, Next(lib, s, m).value.dir, s.sent);
  }

  lemma NextKeepsInv(lib: Lib, s: Sys, m: Move)
    requires Faithful(lib) && SysInv(lib, s) && Next(lib, s, m).Some?
    ensures SysInv(lib, Next(lib, s, m).value)
  {
    hide RecordOk, Next, Step;
    MoveIsEvent(lib, s, m);
    var e := JournalEvent(s, m);
    if e.Some? {
      StepKeepsInv(lib, s.dir, e.value);
      StepKeepsDurable(lib, s.dir, e.value);
    }
    NextWorkOk(lib, s, m);
    NextSentOk(lib, s, m);
  }

  lemma {:induction false} PlayKeepsInv(lib: Lib, s: Sys, moves: seq<Move>)
    requires Faithful(lib) && SysInv(lib, s) && Play(lib, s, moves).Some?
    ensures SysInv(lib, Play(lib, s, moves).value)
    decreases moves
  {
    if moves != [] {
      NextKeepsInv(lib, s, moves[0]);
      PlayKeepsInv(lib, Next(lib, s, moves[0]).value, moves[1..]);
    }
  }

  /**
    Across all steps, failed deliveries, crashes and restarts, every decision
    body ever sent for a request equals the body of its durable receipt; so all
    bodies sent for one request are identical.
  */
  lemma SentBodiesAreTheDurableReceipt(lib: Lib, moves: seq<Move>, i: nat, j: nat)
    requires Faithful(lib) && Play(lib, START, moves).Some?
    requires i < |Play(lib, START, moves).value.sent| && j < |Play(lib, START, moves).value.sent|
    ensures var s := Play(lib, START, moves).value;
            && SentIsDurable(lib, s.dir, s.sent[i])
            && (s.sent[i].org == s.sent[j].org && s.sent[i].request == s.sent[j].request ==> s.sent[i].body == s.sent[j].body)
  {
    PlayKeepsInv(lib, START, moves);
    var s := Play(lib, START, moves).value;
    assert SentIsDurable(lib, s.dir, s.sent[i]) && SentIsDurable(lib, s.dir, s.sent[j]);
  }

  /** The organization is never asked about a request whose receipt is visible. */
  lemma NeverReevaluated(lib: Lib, moves: seq<Move>)
    requires Faithful(lib) && Play(lib, START, moves).Some?
    requires Next(lib, Play(lib, START, moves).value, Evaluate).Some?
    ensures var s := Play(lib, START, moves).value;
            PathOf(lib, s.work.admission.org, s.work.admission.request, ReceiptKind) !in s.dir.visible
  {
    PlayKeepsInv(lib, START, moves);
  }
}
