/**
  Whole runs of the journal: any sequence of calls with any I/O failures,
  interleaved with writeback, power losses and restarts.
*/
module JournalRuns {
  import opened Common
  import opened JournalRecords
  import opened JournalSpec
  import opened JournalInvariant

  datatype Event =
    | LoadEvent(org: string, request: string, io: Faults)
    | AdmitEvent(admission: Admission, io: Faults)
    | SaveReceiptEvent(receipt: SavedReceipt, io: Faults)
    | AcknowledgeEvent(org: string, request: string, application: Bytes, io: Faults)
    | BindEvent(binding: ExecutionBinding, io: Faults)
    | SyncEvent
    | WritebackEvent(flushed: set<Name>)
    | CrashEvent(kept: set<Name>)

  /** The directory after one event; a closed journal only fails, which the failure points already cover. */
  function Step(lib: Lib, d: Dir, e: Event): Dir {
    match e
    case LoadEvent(org, request, io) => Load(lib, d, false, org, request, io).0
    case AdmitEvent(a, io) => Admit(lib, d, false, a, io).0
    case SaveReceiptEvent(r, io) => SaveReceipt(lib, d, false, r, io).0
    case AcknowledgeEvent(org, request, application, io) => Acknowledge(lib, d, false, org, request, application, io).0
    case BindEvent(x, io) => BindExecution(lib, d, false, x, io).0
    case SyncEvent => Sync(d)
    case WritebackEvent(flushed) => Writeback(d, flushed)
    case CrashEvent(kept) => Crash(d, kept)
  }

  function Run(lib: Lib, d: Dir, events: seq<Event>): Dir
    decreases events
  {
    if events == [] then d else Run(lib, Step(lib, d, events[0]), events[1..])
  }

  predicate Binds(lib: Lib, d: Dir, e: Event) {
    e.BindEvent? && BindExecution(lib, d, false, e.binding, e.io).1.Done?
  }

  /** The bindings whose `BindExecution` succeeded, in order. */
  function BoundDuring(lib: Lib, d: Dir, events: seq<Event>): seq<ExecutionBinding>
    decreases events
  {
    if events == [] then []
    else
      var rest := BoundDuring(lib, Step(lib, d, events[0]), events[1..]);
      if Binds(lib, d, events[0]) then [events[0].binding] + rest else rest
  }

  lemma StepKeepsInv(lib: Lib, d: Dir, e: Event)
    requires Faithful(lib) && Inv(lib, d)
    ensures Inv(lib, Step(lib, d, e))
  {
    match e
    case LoadEvent(org, request, io) => LoadKeepsInv(lib, d, false, org, request, io);
    case AdmitEvent(a, io) => AdmitKeepsInv(lib, d, false, a, io);
    case SaveReceiptEvent(r, io) => SaveReceiptKeepsInv(lib, d, false, r, io);
    case AcknowledgeEvent(org, request, application, io) => AcknowledgeKeepsInv(lib, d, false, org, request, application, io);
    case BindEvent(x, io) => BindKeepsInv(lib, d, false, x, io);
    case SyncEvent =>
    case WritebackEvent(flushed) => WritebackKeepsInv(lib, d, flushed);
    case CrashEvent(kept) => CrashKeepsInv(lib, d, kept);
  }

  lemma {:induction false} RunKeepsInv(lib: Lib, d: Dir, events: seq<Event>)
    requires Faithful(lib) && Inv(lib, d)
    ensures Inv(lib, Run(lib, d, events))
    decreases events
  {
    if events != [] {
      StepKeepsInv(lib, d, events[0]);
      RunKeepsInv(lib, Step(lib, d, events[0]), events[1..]);
    }
  }

  /**
    From an empty journal, after any run: the records of every key are a prefix
    of admission, receipt, ack, execution-known, execution, both in view and on
    disk, and the disk is at most one record behind.
  */
  lemma EveryRunKeepsPrefixes(lib: Lib, events: seq<Event>, key: string)
    requires Faithful(lib)
    ensures var d := Run(lib, EMPTY, events);
            && IsPrefix(d.visible, key) && IsPrefix(d.durable, key)
            && PrefixLength(d.durable, key) <= PrefixLength(d.visible, key) <= PrefixLength(d.durable, key) + 1
  {
    RunKeepsInv(lib, EMPTY, events);
    RecordsArePrefixes(lib, Run(lib, EMPTY, events), key);
  }

  /** Every later directory still holds, durably, what an earlier one held durably. */
  ghost predicate KeepsDurable(d: Dir, d': Dir) {
    forall n | n in d.durable :: n in d'.durable && d'.durable[n] == d.durable[n]
  }

  lemma PutKeepsDurable(d: Dir, n: Name, raw: Bytes, closed: bool, io: Faults)
    requires DurableIsVisible(d)
    ensures var (d', r) := PutBytes(d, n, raw, closed, io);
            && KeepsDurable(d, d') && DurableIsVisible(d')
            && (r.Done? ==> n in d'.durable && d'.durable[n] == raw)
  {
  }

  lemma BindKeepsDurable(lib: Lib, d: Dir, x: ExecutionBinding, io: Faults)
    requires DurableIsVisible(d)
    ensures var (d', r) := BindExecution(lib, d, false, x, io);
            && KeepsDurable(d, d') && DurableIsVisible(d')
            && (r.Done? ==> DurablyBound(lib, d', x) && WritableBinding(lib, x))
  {
    hide PutBytes, LoadRecords, ValidExecution, WritableBinding, ValidAdmission;
    var (d1, s) := Load(lib, d, false, x.org, x.request, io);
    if s.Ok? && ValidExecution(lib, s.value, x) {
      LoadedRecords(lib, d.visible, x.org, x.request, io);
      AdmissionGiven(lib, s.value, x);
      AcceptedIsWritable(lib, s.value, x);
      var known := lib.known.encode(KnownFor(lib, x));
      PutKeepsDurable(d1, PathOf(lib, x.org, x.request, KnownKind), known, false, io);
      var (d2, _) := PutBytes(d1, PathOf(lib, x.org, x.request, KnownKind), known, false, io);
      PutKeepsDurable(d2, PathOf(lib, x.org, x.request, ExecutionKind), lib.execution.encode(x), false, io);
    }
  }

  lemma AdmissionGiven(lib: Lib, s: State, x: ExecutionBinding)
    requires ValidExecution(lib, s, x)
    ensures s.admission.Some?
  {
  }

  /** Both execution files of the binding are on disk. */
  predicate DurablyBound(lib: Lib, d: Dir, x: ExecutionBinding) {
    var k, e := PathOf(lib, x.org, x.request, KnownKind), PathOf(lib, x.org, x.request, ExecutionKind);
    && k in d.durable && d.durable[k] == lib.known.encode(KnownFor(lib, x))
    && e in d.durable && d.durable[e] == lib.execution.encode(x)
  }

  /** No event, failed or not, and no crash loses a durable record. */
  lemma StepKeepsDurable(lib: Lib, d: Dir, e: Event)
    requires DurableIsVisible(d)
    ensures KeepsDurable(d, Step(lib, d, e)) && DurableIsVisible(Step(lib, d, e))
    ensures Binds(lib, d, e) ==> DurablyBound(lib, Step(lib, d, e), e.binding) && WritableBinding(lib, e.binding)
  {
    hide PutBytes, LoadRecords, DurablyBound, WritableBinding;
    match e
    case LoadEvent(org, request, io) =>
    case AdmitEvent(a, io) =>
      var (d', _) := Load(lib, d, false, a.org, a.request, io);
      PutKeepsDurable(d', PathOf(lib, a.org, a.request, AdmissionKind), lib.admission.encode(a), false, io);
    case SaveReceiptEvent(r, io) =>
      var (d', _) := Load(lib, d, false, r.org, r.request, io);
      PutKeepsDurable(d', PathOf(lib, r.org, r.request, ReceiptKind), lib.receipt.encode(r), false, io);
    case AcknowledgeEvent(org, request, application, io) =>
      var (d', s) := Load(lib, d, false, org, request, io);
      if s.Ok? && s.value.receipt.Some? {
        var ack := DeliveryAck(1, org, request, lib.sha256(s.value.receipt.value.body), application);
        PutKeepsDurable(d', PathOf(lib, org, request, AckKind), lib.ack.encode(ack), false, io);
      }
    case BindEvent(x, io) => BindKeepsDurable(lib, d, x, io);
    case SyncEvent =>
    case WritebackEvent(flushed) =>
    case CrashEvent(kept) =>
  }

  lemma {:induction false} RunKeepsDurable(lib: Lib, d: Dir, events: seq<Event>)
    requires DurableIsVisible(d)
    ensures KeepsDurable(d, Run(lib, d, events))
    decreases events
  {
    if events != [] {
      StepKeepsDurable(lib, d, events[0]);
      RunKeepsDurable(lib, Step(lib, d, events[0]), events[1..]);
    }
  }

  /** Whatever was bound is still on disk, in both files, at the end of the run. */
  lemma {:induction false} BoundStaysDurable(lib: Lib, d: Dir, events: seq<Event>, i: nat)
    requires DurableIsVisible(d)
    requires i < |BoundDuring(lib, d, events)|
    ensures DurablyBound(lib, Run(lib, d, events), BoundDuring(lib, d, events)[i])
    ensures WritableBinding(lib, BoundDuring(lib, d, events)[i])
    decreases events
  {
    hide Step, Binds;
    var next := Step(lib, d, events[0]);
    StepKeepsDurable(lib, d, events[0]);
    if Binds(lib, d, events[0]) && i == 0 {
      RunKeepsDurable(lib, next, events[1..]);
    } else {
      BoundStaysDurable(lib, next, events[1..], if Binds(lib, d, events[0]) then i - 1 else i);
    }
  }

  /**
    Over every run with any I/O failures, crashes and restarts, all successful
    bindings of one (organization, request) are the same binding. Nothing is
    assumed of the hash: the second file is compared byte for byte.
  */
  lemma SingleBinding(lib: Lib, d: Dir, events: seq<Event>, i: nat, j: nat)
    requires Faithful(lib) && DurableIsVisible(d)
    requires i < |BoundDuring(lib, d, events)| && j < |BoundDuring(lib, d, events)|
    requires var x, y := BoundDuring(lib, d, events)[i], BoundDuring(lib, d, events)[j];
             x.org == y.org && x.request == y.request
    ensures BoundDuring(lib, d, events)[i] == BoundDuring(lib, d, events)[j]
  {
    BoundStaysDurable(lib, d, events, i);
    BoundStaysDurable(lib, d, events, j);
    var x, y := BoundDuring(lib, d, events)[i], BoundDuring(lib, d, events)[j];
    assert RoundTrips(lib.execution, x) && RoundTrips(lib.execution, y);
    assert Some(x) == lib.execution.decode(lib.execution.encode(x)) == lib.execution.decode(lib.execution.encode(y)) == Some(y);
  }
}
