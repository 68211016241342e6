/**
  What the answer of each journal call means: what a success leaves on disk under
  any failures, and exactly when a call succeeds if no I/O point fails.
*/
module JournalAnswers {
  import opened Common
  import opened JournalRecords
  import opened JournalSpec
  import opened JournalInvariant
  import opened JournalRuns

  ghost predicate NoFaults(io: Faults) {
    forall p: Point :: !io(p)
  }

  predicate Fits(raw: Bytes) {
    0 < |raw| <= MAX_RECORD
  }

  /** The bytes may be published under the name: it is free, or holds them already. */
  predicate Takes(v: map<Name, Bytes>, n: Name, raw: Bytes) {
    n in v ==> v[n] == raw
  }

  /** The request can be loaded: its records do not stop at execution-known and are its own. */
  predicate Loadable(lib: Lib, v: map<Name, Bytes>, org: string, request: string) {
    var key := RecordKey(lib, org, request);
    var a := AdmissionAt(lib, v, key);
    && lib.validReference(org) && lib.validReference(request) && PrefixLength(v, key) != 4
    && (PrefixLength(v, key) == 0 || (a.Some? && a.value.org == org && a.value.request == request))
  }

  lemma LoadExactly(lib: Lib, d: Dir, org: string, request: string, io: Faults)
    requires Inv(lib, d) && NoFaults(io)
    ensures var (d', s) := Load(lib, d, false, org, request, io);
            var key := RecordKey(lib, org, request);
            && (s.Ok? <==> Loadable(lib, d.visible, org, request))
            && (s.Ok? ==> d' == Sync(d) && s.value == EvidenceAt(lib, d.visible, key).(execution := ExecutionAt(lib, d.visible, key)))
            && (s.Err? ==> d' == d && s.error == Integrity)
            && (s.Ok? && s.value.admission.Some? ==> ValidAdmission(lib, s.value.admission.value))
  {
    hide RecordOk, LoadRecords, ValidAdmission;
    if lib.validReference(org) && lib.validReference(request) {
      LoadRejectsExactly(lib, d, org, request, io);
      if Load(lib, d, false, org, request, io).1.Ok? {
        LoadedRecords(lib, d.visible, org, request, io);
      } else {
        NoFaultNoIo(lib, d.visible, org, request, io);
      }
    }
  }

  /** Without I/O failure only unacceptable evidence is reported. */
  lemma NoFaultNoIo(lib: Lib, v: map<Name, Bytes>, org: string, request: string, io: Faults)
    requires NoFaults(io)
    ensures LoadRecords(lib, v, org, request, io).Err? ==> LoadRecords(lib, v, org, request, io).error == Integrity
  {
    hide ValidAdmission, ValidReceipt, ValidExecution, ValidApplication;
  }

  /**
    A file is published exactly when the journal is open, no stage fails and the
    name is free; a taken name is reported and left alone; a failure at the last
    stage, and no other, leaves the file visible but not durable.
  */
  lemma PublishExactly(d: Dir, n: Name, raw: Bytes, closed: bool, io: Stage -> bool)
    ensures var (d', r) := Publish(d, n, raw, closed, io);
            var reached := !closed && forall s: Stage | s != SyncDirectory :: !io(s);
            && (r == Published <==> reached && n !in d.visible && !io(SyncDirectory))
            && (r == Exists <==> reached && n in d.visible)
            && d'.visible == (if reached && n !in d.visible then d.visible[n := raw] else d.visible)
            && d'.durable == if r == Published then d'.visible else d.durable
  {
  }

  lemma PutExactly(d: Dir, n: Name, raw: Bytes, io: Faults)
    requires NoFaults(io)
    ensures var (d', r) := PutBytes(d, n, raw, false, io);
            && (r == Done <==> Fits(raw) && Takes(d.visible, n, raw))
            && (r == Failed(Conflict) <==> Fits(raw) && !Takes(d.visible, n, raw))
            && (r == Failed(Integrity) <==> !Fits(raw))
            && d' == if r.Done? then Sync(Dir(d.visible[n := raw], d.durable)) else d
  {
    if n in d.visible && d.visible[n] == raw { assert d.visible[n := raw] == d.visible; }
  }

  // ---- Admission ----

  /** The same admission, up to its time. */
  predicate SameTerms(stored: Admission, a: Admission) {
    stored.(admittedAt := a.admittedAt) == a
  }

  lemma EncodingTellsTerms(lib: Lib, stored: Admission, a: Admission)
    requires Faithful(lib) && ValidAdmission(lib, stored) && ValidAdmission(lib, a)
    ensures lib.admission.encode(stored) == lib.admission.encode(a.(admittedAt := stored.admittedAt)) <==> SameTerms(stored, a)
  {
    var pinned := a.(admittedAt := stored.admittedAt);
    assert ValidAdmission(lib, pinned);
    assert RoundTrips(lib.admission, stored) && RoundTrips(lib.admission, pinned);
  }

  /**
    A successful admission, under any failures, leaves a durable admission of the
    request with just these terms: authorization, mode and endpoint.
  */
  lemma AdmittedTerms(lib: Lib, d: Dir, closed: bool, a: Admission, io: Faults)
    requires Faithful(lib) && Inv(lib, d) && Admit(lib, d, closed, a, io).1.Done?
    ensures var stored := AdmissionAt(lib, Admit(lib, d, closed, a, io).0.durable, RecordKey(lib, a.org, a.request));
            && stored.Some? && SameTerms(stored.value, a)
            && a.version == 1 && lib.validReference(a.org) && lib.validReference(a.request)
            && lib.validAuthorizationHash(a.authorizationHash) && lib.validTimestamp(stored.value.admittedAt)
            && (if a.mode == "external" then a.endpoint.Some? && lib.validEndpoint(a.endpoint.value)
                else a.mode == "auto_approve" && a.endpoint.None?)
  {
    hide LoadRecords, RecordOk;
    LoadKeepsInv(lib, d, closed, a.org, a.request, io);
    var (d', s) := Load(lib, d, closed, a.org, a.request, io);
    LoadedRecords(lib, d.visible, a.org, a.request, io);
    if s.value.admission.Some? {
      EncodingTellsTerms(lib, s.value.admission.value, a);
    } else {
      assert RoundTrips(lib.admission, a);
    }
  }

  /** Without I/O failure a valid admission succeeds exactly when none is stored or the stored one has the same terms. */
  lemma AdmitExactly(lib: Lib, d: Dir, a: Admission, io: Faults)
    requires Faithful(lib) && Inv(lib, d) && NoFaults(io)
    ensures var r, stored := Admit(lib, d, false, a, io).1, AdmissionAt(lib, d.visible, RecordKey(lib, a.org, a.request));
            var ready := ValidAdmission(lib, a) && Loadable(lib, d.visible, a.org, a.request);
            && (r == Done <==> ready && if stored.Some? then SameTerms(stored.value, a) else Fits(lib.admission.encode(a)))
            && (r == Failed(Conflict) <==> ready && stored.Some? && !SameTerms(stored.value, a))
  {
    hide LoadRecords, RecordOk, Loadable, ValidAdmission;
    LoadExactly(lib, d, a.org, a.request, io);
    if ValidAdmission(lib, a) && Loadable(lib, d.visible, a.org, a.request) {
      var (d', s) := Load(lib, d, false, a.org, a.request, io);
      LoadedRecords(lib, d.visible, a.org, a.request, io);
      if s.value.admission.Some? {
        EncodingTellsTerms(lib, s.value.admission.value, a);
      } else {
        PutExactly(d', PathOf(lib, a.org, a.request, AdmissionKind), lib.admission.encode(a), io);
      }
    }
  }

  // ---- Receipt ----

  /** Without I/O failure a receipt is saved exactly when it verifies for the stored admission and its name is free or holds it. */
  lemma SaveReceiptExactly(lib: Lib, d: Dir, r: SavedReceipt, io: Faults)
    requires Inv(lib, d) && NoFaults(io)
    ensures var saved, stored := SaveReceipt(lib, d, false, r, io).1, AdmissionAt(lib, d.visible, RecordKey(lib, r.org, r.request));
            var raw, n := lib.receipt.encode(r), PathOf(lib, r.org, r.request, ReceiptKind);
            var ready := && Loadable(lib, d.visible, r.org, r.request) && stored.Some? && r.version == 1
                         && r.authorizationHash == stored.value.authorizationHash && lib.verifyReceipt(stored.value, r) == Some(stored.value.mode);
            && (saved == Done <==> ready && Fits(raw) && Takes(d.visible, n, raw))
            && (saved == Failed(Conflict) <==> ready && Fits(raw) && !Takes(d.visible, n, raw))
  {
    hide LoadRecords, RecordOk;
    LoadExactly(lib, d, r.org, r.request, io);
    if Loadable(lib, d.visible, r.org, r.request) {
      LoadedRecords(lib, d.visible, r.org, r.request, io);
      var (d', s) := Load(lib, d, false, r.org, r.request, io);
      PutExactly(d', PathOf(lib, r.org, r.request, ReceiptKind), lib.receipt.encode(r), io);
    }
  }

  // ---- Acknowledgement ----

  /** The acknowledgement of a stored receipt. */
  function AckOf(lib: Lib, r: SavedReceipt, org: string, request: string, application: Bytes): DeliveryAck {
    DeliveryAck(1, org, request, lib.sha256(r.body), application)
  }

  /** A successful acknowledgement, under any failures, leaves on disk the answer itself, bound to the durable receipt by hash. */
  lemma AcknowledgedAnswer(lib: Lib, d: Dir, closed: bool, org: string, request: string, application: Bytes, io: Faults)
    requires Faithful(lib) && Inv(lib, d) && Acknowledge(lib, d, closed, org, request, application, io).1.Done?
    ensures var d', key := Acknowledge(lib, d, closed, org, request, application, io).0, RecordKey(lib, org, request);
            && application != [] && lib.parseApplication(application).Some? && lib.parseApplication(application).value.request == request
            && ReceiptAt(lib, d'.durable, key).Some?
            && AckAt(lib, d'.durable, key) == Some(AckOf(lib, ReceiptAt(lib, d'.durable, key).value, org, request, application))
  {
    hide LoadRecords, RecordOk;
    LoadKeepsInv(lib, d, closed, org, request, io);
    var (d', s) := Load(lib, d, closed, org, request, io);
    LoadedRecords(lib, d.visible, org, request, io);
    var ack := AckOf(lib, s.value.receipt.value, org, request, application);
    assert IsHash(lib, ack.receiptHash);
    assert RoundTrips(lib.ack, ack);
    ReceiptStays(lib, d', PathOf(lib, org, request, AckKind), lib.ack.encode(ack), closed, io);
  }

  lemma ReceiptStays(lib: Lib, d: Dir, n: Name, raw: Bytes, closed: bool, io: Faults)
    requires d.durable == d.visible && n.kind != ReceiptKind && PutBytes(d, n, raw, closed, io).1.Done?
    ensures var d' := PutBytes(d, n, raw, closed, io).0;
            ReceiptAt(lib, d'.durable, n.key) == ReceiptAt(lib, d.visible, n.key) && n in d'.durable && d'.durable[n] == raw
  {
  }

  lemma AcknowledgeExactly(lib: Lib, d: Dir, org: string, request: string, application: Bytes, io: Faults)
    requires Inv(lib, d) && NoFaults(io)
    ensures var r, receipt := Acknowledge(lib, d, false, org, request, application, io).1, ReceiptAt(lib, d.visible, RecordKey(lib, org, request));
            var answered := application != [] && lib.parseApplication(application).Some? && lib.parseApplication(application).value.request == request;
            r == Done <==>
              && Loadable(lib, d.visible, org, request) && receipt.Some? && answered
              && var raw := lib.ack.encode(AckOf(lib, receipt.value, org, request, application));
                 Fits(raw) && Takes(d.visible, PathOf(lib, org, request, AckKind), raw)
  {
    hide LoadRecords, RecordOk, Loadable;
    LoadExactly(lib, d, org, request, io);
    if Loadable(lib, d.visible, org, request) && ReceiptAt(lib, d.visible, RecordKey(lib, org, request)).Some? {
      var (d', s) := Load(lib, d, false, org, request, io);
      var raw := lib.ack.encode(AckOf(lib, s.value.receipt.value, org, request, application));
      PutExactly(d', PathOf(lib, org, request, AckKind), raw, io);
    }
  }

  // ---- Execution ----

  /** The stored evidence lets a request be executed: approved by a receipt, and applied by the backend. */
  predicate MayExecute(lib: Lib, v: map<Name, Bytes>, key: string) {
    var r, ack := ReceiptAt(lib, v, key), AckAt(lib, v, key);
    && r.Some? && lib.parseReceipt(r.value.body).Some? && lib.parseReceipt(r.value.body).value.decision == "APPROVED"
    && ack.Some? && ack.value.application != [] && lib.parseApplication(ack.value.application).Some?
    && lib.parseApplication(ack.value.application).value.disposition == "APPLIED"
  }

  /** The binding is one this request's admission allows. */
  predicate FitsAdmission(lib: Lib, v: map<Name, Bytes>, x: ExecutionBinding) {
    var a := AdmissionAt(lib, v, RecordKey(lib, x.org, x.request));
    && a.Some? && x.version == 1 && x.authorizationHash == a.value.authorizationHash
    && lib.validReference(x.outgoingId) && ValidPayloadHash(x.payloadType, x.hashAlgorithm) && lib.validExecutionDigest(x.executionDigest)
  }

  /** Both execution files can be published, or hold this binding already. */
  predicate Bindable(lib: Lib, v: map<Name, Bytes>, x: ExecutionBinding) {
    var known, raw := lib.known.encode(KnownFor(lib, x)), lib.execution.encode(x);
    && Fits(known) && Fits(raw) && Takes(v, PathOf(lib, x.org, x.request, KnownKind), known)
    && Takes(v, PathOf(lib, x.org, x.request, ExecutionKind), raw)
  }

  lemma ValidExecutionExactly(lib: Lib, v: map<Name, Bytes>, x: ExecutionBinding)
    requires var a := AdmissionAt(lib, v, RecordKey(lib, x.org, x.request)); a.Some? ==> a.value.org == x.org && a.value.request == x.request
    ensures var key := RecordKey(lib, x.org, x.request);
            ValidExecution(lib, EvidenceAt(lib, v, key).(execution := ExecutionAt(lib, v, key)), x)
            <==> MayExecute(lib, v, key) && FitsAdmission(lib, v, x)
  {
  }

  /** Without I/O failure a binding succeeds exactly when the stored evidence allows it and no other binding is stored. */
  lemma BindExactly(lib: Lib, d: Dir, x: ExecutionBinding, io: Faults)
    requires Inv(lib, d) && NoFaults(io)
    ensures BindExecution(lib, d, false, x, io).1 == Done <==>
              && Loadable(lib, d.visible, x.org, x.request) && MayExecute(lib, d.visible, RecordKey(lib, x.org, x.request))
              && FitsAdmission(lib, d.visible, x) && Bindable(lib, d.visible, x)
  {
    hide LoadRecords, RecordOk, ValidExecution, MayExecute;
    LoadExactly(lib, d, x.org, x.request, io);
    if Loadable(lib, d.visible, x.org, x.request) {
      LoadedRecords(lib, d.visible, x.org, x.request, io);
      ValidExecutionExactly(lib, d.visible, x);
      var (d', s) := Load(lib, d, false, x.org, x.request, io);
      var known := lib.known.encode(KnownFor(lib, x));
      PutExactly(d', PathOf(lib, x.org, x.request, KnownKind), known, io);
      var d'' := PutBytes(d', PathOf(lib, x.org, x.request, KnownKind), known, false, io).0;
      PutExactly(d'', PathOf(lib, x.org, x.request, ExecutionKind), lib.execution.encode(x), io);
    }
  }

  // ---- The evidence of every run ----

  /**
    From an empty journal, after any run: the records under a key are of one
    request and one authorization. A receipt verifies for the admission, an
    acknowledgement names the receipt's body by hash and answers for the request,
    and an execution follows an approval that was applied, its bytes being those
    that execution-known names.
  */
  lemma EvidenceChain(lib: Lib, events: seq<Event>, key: string)
    requires Faithful(lib)
    ensures var v := Run(lib, EMPTY, events).visible;
            var a, r, ack, known, x := AdmissionAt(lib, v, key), ReceiptAt(lib, v, key), AckAt(lib, v, key), KnownAt(lib, v, key), ExecutionAt(lib, v, key);
            && (Name(key, AdmissionKind) in v ==> a.Some? && RecordKey(lib, a.value.org, a.value.request) == key && ValidAdmission(lib, a.value))
            && (Name(key, ReceiptKind) in v ==>
                  && a.Some? && r.Some? && r.value.org == a.value.org && r.value.request == a.value.request
                  && r.value.authorizationHash == a.value.authorizationHash && lib.verifyReceipt(a.value, r.value) == Some(a.value.mode))
            && (Name(key, AckKind) in v ==>
                  && a.Some? && r.Some? && ack.Some? && ack.value.receiptHash == lib.sha256(r.value.body)
                  && lib.parseApplication(ack.value.application).Some?
                  && lib.parseApplication(ack.value.application).value.request == a.value.request)
            && (Name(key, ExecutionKind) in v ==>
                  && a.Some? && known.Some? && x.Some? && known.value.bindingHash == lib.sha256(v[Name(key, ExecutionKind)])
                  && x.value.org == a.value.org && x.value.request == a.value.request
                  && x.value.authorizationHash == a.value.authorizationHash == known.value.authorizationHash
                  && MayExecute(lib, v, key))
  {
    hide Run, ValidAdmission;
    RunKeepsInv(lib, EMPTY, events);
    var d := Run(lib, EMPTY, events);
    RecordsAt(lib, d, key);
  }

  lemma RecordsAt(lib: Lib, d: Dir, key: string)
    requires Inv(lib, d)
    ensures forall kind: Kind | Name(key, kind) in d.visible :: RecordOk(lib, d.visible, Name(key, kind))
    ensures forall kind: Kind, earlier: Kind | Name(key, kind) in d.visible && Rank(earlier) <= Rank(kind) ::
              Name(key, earlier) in d.visible && RecordOk(lib, d.visible, Name(key, earlier))
  {
    hide RecordOk;
    forall kind: Kind | Name(key, kind) in d.visible
      ensures forall earlier: Kind | Rank(earlier) <= Rank(kind) :: Name(key, earlier) in d.visible
    {
      PredecessorsPresent(d, Name(key, kind));
    }
  }
}
