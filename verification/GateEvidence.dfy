/**
  What the sign gate's agreement rests on: the evidence on disk, the prepared
  transaction, and exactly when it agrees.
*/
module GateEvidence {
  import opened Common
  import opened JournalRecords
  import opened JournalSpec
  import opened JournalInvariant
  import opened JournalRuns
  import opened JournalAnswers
  import opened SignGate
  import Base64

  /** The intent is a version 2 intent with approval evidence for itself and a prepared transaction. */
  predicate WellFormed(i: Intent) {
    i.version == 2 && i.approval.Some? && i.hasPrepared && i.approval.value.outgoingId == i.intentId
  }

  /** The stored admission is of the echoed authorization, and the stored receipt is the echoed one and approves. */
  predicate ApprovalStored(lib: Lib, v: map<Name, Bytes>, key: string, a: ApprovedExecution) {
    var admission, receipt, echoed := AdmissionAt(lib, v, key), ReceiptAt(lib, v, key), lib.parseReceipt(a.decisionReceipt);
    && admission.Some? && admission.value.authorizationHash == a.authorizationHash
    && receipt.Some? && echoed.Some?
    && var stored := lib.parseReceipt(receipt.value.body);
       && stored.Some? && stored.value.envelope == echoed.value.envelope && stored.value.signature == echoed.value.signature
       && stored.value.decision == "APPROVED"
  }

  /** The backend has applied the decision, and the journal holds its answer. */
  predicate ApplicationStored(lib: Lib, v: map<Name, Bytes>, key: string) {
    var ack := AckAt(lib, v, key);
    && ack.Some? && ack.value.application != [] && lib.parseApplication(ack.value.application).Some?
    && lib.parseApplication(ack.value.application).value.disposition == "APPLIED"
  }

  /** The prepared transaction verifies, for the organization, wallet, key and derivation of the payload. */
  predicate PreparedMatches(gate: GateLib, i: Intent) {
    var auth := gate.verifyPrepared(i);
    && auth.Some? && auth.value.org == i.payload.org && auth.value.walletId == i.payload.walletId
    && auth.value.keyId == i.payload.keyId && auth.value.derivationContextHash == i.payload.derivationContextHash
    && gate.jcs(i.payload.derivationContext) == Some(auth.value.derivationContext)
  }

  function KeyOf(lib: Lib, i: Intent): string
    requires i.approval.Some?
  {
    RecordKey(lib, i.payload.org, i.approval.value.request)
  }

  /** All the gate wants to find on disk. */
  predicate EvidenceStored(lib: Lib, v: map<Name, Bytes>, i: Intent) {
    && WellFormed(i) && ApprovalStored(lib, v, KeyOf(lib, i), i.approval.value) && ApplicationStored(lib, v, KeyOf(lib, i))
  }

  /** What a decision in favour rests on, and the order in which the checks fail. */
  lemma DecideExactly(lib: Lib, v: map<Name, Bytes>, gate: GateLib, i: Intent)
    requires WellFormed(i)
    requires var key := KeyOf(lib, i);
             Name(key, AckKind) in v <==> AckAt(lib, v, key).Some? && AckAt(lib, v, key).value.application != []
    ensures var key, a := KeyOf(lib, i), i.approval.value;
            var s := EvidenceAt(lib, v, key).(execution := ExecutionAt(lib, v, key));
            var r := Decide(lib, gate, s, i, a);
            && (r.Ok? <==> && EvidenceStored(lib, v, i) && PreparedMatches(gate, i)
                           && (s.execution.Some? ==> s.execution.value == BindingFor(i, a)))
            && (r.Ok? ==> r.value == BindingFor(i, a))
            && (r == Err(ApplicationPending) <==> ApprovalStored(lib, v, key, a) && Name(key, AckKind) !in v)
            && (r == Err(Prepared) <==> EvidenceStored(lib, v, i) && !PreparedMatches(gate, i))
            && (r == Err(Conflict) <==> && EvidenceStored(lib, v, i) && PreparedMatches(gate, i)
                                        && s.execution.Some? && s.execution.value != BindingFor(i, a))
  {
    hide BindingFor;
  }

  lemma AckPresent(lib: Lib, v: map<Name, Bytes>, org: string, request: string, io: Faults)
    requires LoadRecords(lib, v, org, request, io).Ok?
    ensures var key, s := RecordKey(lib, org, request), LoadRecords(lib, v, org, request, io).value;
            && s == EvidenceAt(lib, v, key).(execution := ExecutionAt(lib, v, key))
            && (Name(key, AckKind) in v <==> AckAt(lib, v, key).Some? && AckAt(lib, v, key).value.application != [])
  {
    hide LoadRecords;
    LoadedRecords(lib, v, org, request, io);
  }

  lemma EvidenceStays(lib: Lib, d: Dir, d': Dir, i: Intent)
    requires KeepsDurable(d, d') && EvidenceStored(lib, d.durable, i)
    ensures EvidenceStored(lib, d'.durable, i)
  {
    var key := KeyOf(lib, i);
    assert Name(key, AdmissionKind) in d.durable && Name(key, ReceiptKind) in d.durable && Name(key, AckKind) in d.durable;
  }

  /**
    An authorization that succeeds, under any failures and whatever others do in
    between, rests on evidence that is on disk and on a prepared transaction that
    verified for the payload's organization, wallet, key and derivation.
  */
  lemma AuthorizedOnEvidence(lib: Lib, d: Dir, c: Call)
    requires DurableIsVisible(d) && Authorize(lib, d, c).1.Done?
    ensures !c.cancelled && WellFormed(c.intent) && EvidenceStored(lib, d.visible, c.intent) && PreparedMatches(c.gate, c.intent)
    ensures EvidenceStored(lib, Authorize(lib, d, c).0.durable, c.intent)
  {
    hide LoadRecords, BindExecution, DurablyBound, Decide, EvidenceStored, PreparedMatches;
    var a := Precheck(c.intent).value;
    var (d1, s) := Load(lib, d, false, c.intent.payload.org, a.request, c.loadFaults);
    AckPresent(lib, d.visible, c.intent.payload.org, a.request, c.loadFaults);
    DecideExactly(lib, d.visible, c.gate, c.intent);
    RunKeepsDurable(lib, d1, c.between);
    EventsKeepVisible(lib, d1, c.between);
    BindKeepsDurable(lib, Run(lib, d1, c.between), BindingFor(c.intent, a), c.bindFaults);
    EvidenceStays(lib, d1, Authorize(lib, d, c).0, c.intent);
  }

  /** What is bound is this intent: its outgoing ID, authorization, digest, payload type and hash algorithm. */
  lemma AuthorizedBinding(lib: Lib, d: Dir, c: Call)
    requires Faithful(lib) && DurableIsVisible(d) && Authorize(lib, d, c).1.Done?
    ensures c.intent.approval.Some?
    ensures var i, a := c.intent, c.intent.approval.value;
            ExecutionAt(lib, Authorize(lib, d, c).0.durable, KeyOf(lib, i))
            == Some(ExecutionBinding(1, i.payload.org, a.request, i.intentId, a.authorizationHash,
                                     Base64.StdEncode(i.payload.digest), i.payload.payloadType, i.payload.hashAlgorithm))
  {
    hide Authorize;
    AuthorizeKeepsDurable(lib, d, c);
    var x := BindingFor(c.intent, c.intent.approval.value);
    assert RoundTrips(lib.execution, x);
  }

  /** An intent that is not well formed is refused before anything is read. */
  lemma MalformedIsRefused(lib: Lib, d: Dir, c: Call)
    requires !WellFormed(c.intent)
    ensures Authorize(lib, d, c) == (d, Failed(Prepared))
  {
  }

  /**
    With no I/O failure, nobody in between and the context alive, the gate agrees
    if and only if the request loads, the evidence is stored, the prepared
    transaction matches and no other binding is stored; a missing answer of the
    backend, and nothing else, leaves it pending.
  */
  lemma AuthorizeExactly(lib: Lib, d: Dir, c: Call)
    requires Inv(lib, d) && NoFaults(c.loadFaults) && NoFaults(c.bindFaults) && c.between == [] && !c.cancelled && WellFormed(c.intent)
    ensures var a, v, r := c.intent.approval.value, d.visible, Authorize(lib, d, c).1;
            var key, x, loads := KeyOf(lib, c.intent), BindingFor(c.intent, a), Loadable(lib, v, c.intent.payload.org, a.request);
            && (r == Done <==> && loads && EvidenceStored(lib, v, c.intent) && PreparedMatches(c.gate, c.intent)
                               && FitsAdmission(lib, v, x) && Bindable(lib, v, x)
                               && (ExecutionAt(lib, v, key).Some? ==> ExecutionAt(lib, v, key).value == x))
            && (r == Failed(ApplicationPending) <==> loads && ApprovalStored(lib, v, key, a) && Name(key, AckKind) !in v)
  {
    hide Load, BindExecution, Decide, EvidenceStored, PreparedMatches, ApprovalStored, Loadable, Bindable, FitsAdmission, Inv;
    var a := c.intent.approval.value;
    var key, x := KeyOf(lib, c.intent), BindingFor(c.intent, a);
    LoadExactly(lib, d, c.intent.payload.org, a.request, c.loadFaults);
    var (d1, s) := Load(lib, d, false, c.intent.payload.org, a.request, c.loadFaults);
    if s.Ok? {
      AckAfterLoad(lib, d, c.intent.payload.org, a.request, c.loadFaults);
      DecideExactly(lib, d.visible, c.gate, c.intent);
      SyncKeepsInv(lib, d);
      BindExactly(lib, d1, x, c.bindFaults);
      if EvidenceStored(lib, d.visible, c.intent) { EvidenceLetsExecute(lib, d.visible, c.intent); }
      BindNeverPends(lib, d1, x, c.bindFaults);
    }
  }

  lemma AckAfterLoad(lib: Lib, d: Dir, org: string, request: string, io: Faults)
    requires Load(lib, d, false, org, request, io).1.Ok?
    ensures var key := RecordKey(lib, org, request);
            Name(key, AckKind) in d.visible <==> AckAt(lib, d.visible, key).Some? && AckAt(lib, d.visible, key).value.application != []
  {
    hide LoadRecords;
    AckPresent(lib, d.visible, org, request, io);
  }

  lemma SyncKeepsInv(lib: Lib, d: Dir)
    requires Inv(lib, d)
    ensures Inv(lib, Sync(d))
  {
    hide RecordOk;
  }

  lemma EvidenceLetsExecute(lib: Lib, v: map<Name, Bytes>, i: Intent)
    requires EvidenceStored(lib, v, i)
    ensures MayExecute(lib, v, KeyOf(lib, i))
  {
  }

  lemma BindNeverPends(lib: Lib, d: Dir, x: ExecutionBinding, io: Faults)
    ensures BindExecution(lib, d, false, x, io).1 != Failed(ApplicationPending)
  {
    hide ValidExecution, LoadAdmission, LoadReceipt, LoadAcknowledgement, LoadExecution;
    LoadNeverPends(lib, d.visible, x.org, x.request, io);
  }

  lemma LoadNeverPends(lib: Lib, v: map<Name, Bytes>, org: string, request: string, io: Faults)
    ensures LoadRecords(lib, v, org, request, io) != Err(ApplicationPending)
  {
    hide ValidAdmission, ValidReceipt, ValidExecution, ValidApplication;
  }

  /** Some authorization of the run was of this intent, with a prepared transaction that matched. */
  ghost predicate MatchedInRun(actions: seq<Action>, i: Intent) {
    exists k :: 0 <= k < |actions| && actions[k].Gate? && actions[k].call.intent == i && PreparedMatches(actions[k].call.gate, i)
  }

  /**
    Over every run of authorizations and other callers, with any failures, crashes
    and restarts: whatever was authorized has its evidence on disk at the end, and
    its prepared transaction matched.
  */
  lemma {:induction false} EveryAuthorizationHasEvidence(lib: Lib, d: Dir, actions: seq<Action>, i: nat)
    requires DurableIsVisible(d) && i < |Authorized(lib, d, actions)|
    ensures EvidenceStored(lib, RunActions(lib, d, actions).durable, Authorized(lib, d, actions)[i])
    ensures MatchedInRun(actions, Authorized(lib, d, actions)[i])
    decreases actions
  {
    hide Act, Authorizes, EvidenceStored, PreparedMatches;
    var next, rest := Act(lib, d, actions[0]), actions[1..];
    ActKeepsDurable(lib, d, actions[0]);
    if Authorizes(lib, d, actions[0]) && i == 0 {
      AuthorizingOnEvidence(lib, d, actions[0]);
      ActionsKeepDurable(lib, next, rest);
      EvidenceStays(lib, next, RunActions(lib, next, rest), actions[0].call.intent);
    } else {
      var j := if Authorizes(lib, d, actions[0]) then i - 1 else i;
      EveryAuthorizationHasEvidence(lib, next, rest, j);
      var x := Authorized(lib, next, rest)[j];
      var k :| 0 <= k < |rest| && rest[k].Gate? && rest[k].call.intent == x && PreparedMatches(rest[k].call.gate, x);
      assert actions[k + 1] == rest[k];
    }
  }

  lemma AuthorizingOnEvidence(lib: Lib, d: Dir, action: Action)
    requires DurableIsVisible(d) && Authorizes(lib, d, action)
    ensures action.Gate? && EvidenceStored(lib, Act(lib, d, action).durable, action.call.intent) && PreparedMatches(action.call.gate, action.call.intent)
  {
    hide Authorize, EvidenceStored, PreparedMatches;
    AuthorizedOnEvidence(lib, d, action.call);
  }
}
