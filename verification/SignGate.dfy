/** The pre-Core authorization gate over the journal. */
module SignGate {
  import opened Common
  import opened JournalRecords
  import opened JournalSpec
  import opened JournalInvariant
  import opened JournalRuns
  import Base64
  import J = Journal

  /** The approval evidence echoed by the backend in a claimed intent. */
  datatype ApprovedExecution = ApprovedExecution(
    request: string, outgoingId: string, authorizationHash: string, decisionReceipt: Bytes)

  datatype Payload = Payload(
    org: string, walletId: string, keyId: string, derivationContextHash: string, derivationContext: Bytes,
    digest: seq<byte>, payloadType: string, hashAlgorithm: string)

  datatype Intent = Intent(
    version: int, intentId: string, approval: Option<ApprovedExecution>, hasPrepared: bool, payload: Payload)

  /** The authorization fields the gate compares, from transaction bytes that verified. */
  datatype Authorization = Authorization(
    org: string, walletId: string, keyId: string, derivationContextHash: string, derivationContext: Bytes)

  /** Prepared-transaction verification at the current time, and JSON canonicalization. */
  datatype GateLib = GateLib(verifyPrepared: Intent -> Option<Authorization>, jcs: Bytes -> Option<Bytes>)

  predicate SameReceipt(lib: Lib, left: Bytes, right: Bytes) {
    var a, b := lib.parseReceipt(left), lib.parseReceipt(right);
    a.Some? && b.Some? && a.value.envelope == b.value.envelope && a.value.signature == b.value.signature
  }

  function BindingFor(i: Intent, a: ApprovedExecution): ExecutionBinding {
    ExecutionBinding(1, i.payload.org, a.request, a.outgoingId, a.authorizationHash,
                     Base64.StdEncode(i.payload.digest), i.payload.payloadType, i.payload.hashAlgorithm)
  }

  /** The checks before the journal is read. */
  function Precheck(i: Intent): Result<ApprovedExecution, Error> {
    if i.version != 2 || i.approval.None? || !i.hasPrepared || i.approval.value.outgoingId != i.intentId then Err(Prepared)
    else Ok(i.approval.value)
  }

  /** The checks over the loaded state, ending in the binding to record. */
  function Decide(lib: Lib, gate: GateLib, s: State, i: Intent, a: ApprovedExecution): Result<ExecutionBinding, Error> {
    if s.admission.None? || s.receipt.None? || s.admission.value.authorizationHash != a.authorizationHash then Err(Integrity)
    else if !SameReceipt(lib, s.receipt.value.body, a.decisionReceipt) then Err(Integrity)
    else
      var receipt := lib.parseReceipt(s.receipt.value.body);
      if receipt.None? || receipt.value.decision != "APPROVED" then Err(Integrity)
      else if s.application == [] then Err(ApplicationPending)
      else
        var application := ParseApplication(lib, s.application);
        if application.None? || application.value.disposition != "APPLIED" then Err(Integrity)
        else
          var auth := gate.verifyPrepared(i);
          if auth.None?
            || auth.value.org != i.payload.org || auth.value.walletId != i.payload.walletId
            || auth.value.keyId != i.payload.keyId || auth.value.derivationContextHash != i.payload.derivationContextHash
            || gate.jcs(i.payload.derivationContext) != Some(auth.value.derivationContext) then Err(Prepared)
          else
            var binding := BindingFor(i, a);
            if s.execution.Some? && s.execution.value != binding then Err(Conflict) else Ok(binding)
  }

  /**
    One `Authorize` call. The journal mutex is held for the load and for the
    binding separately; `between` is whatever other callers do in the gap.
  */
  datatype Call = Call(intent: Intent, gate: GateLib, cancelled: bool, loadFaults: Faults, between: seq<Event>, bindFaults: Faults)

  function Authorize(lib: Lib, d: Dir, c: Call): (Dir, Outcome<Error>) {
    var a := Precheck(c.intent);
    if a.Err? then (d, Failed(a.error))
    else
      var (d1, s) := Load(lib, d, false, c.intent.payload.org, a.value.request, c.loadFaults);
      if s.Err? then (d1, Failed(s.error))
      else
        var binding := Decide(lib, c.gate, s.value, c.intent, a.value);
        if binding.Err? then (d1, Failed(binding.error))
        else if c.cancelled then (d1, Failed(Cancelled))
        else BindExecution(lib, Run(lib, d1, c.between), false, binding.value, c.bindFaults)
  }

  /** The gate on an open journal object, with no other caller in between. */
  method AuthorizeIntent(journal: J.Journal, gate: GateLib, i: Intent, cancelled: bool, loadFaults: Faults, bindFaults: Faults)
    returns (r: Outcome<Error>)
    requires !journal.closed
    modifies journal
    ensures (journal.dir, r) == Authorize(journal.lib, old(journal.dir), Call(i, gate, cancelled, loadFaults, [], bindFaults))
  {
    hide Decide, Load, BindExecution;
    var a := Precheck(i);
    if a.Err? {
      return Failed(a.error);
    }
    var s := journal.LoadState(i.payload.org, a.value.request, loadFaults);
    if s.Err? {
      return Failed(s.error);
    }
    var binding := Decide(journal.lib, gate, s.value, i, a.value);
    if binding.Err? {
      return Failed(binding.error);
    }
    if cancelled {
      return Failed(Cancelled);
    }
    r := journal.Bind(binding.value, bindFaults);
  }

  /** A run of the process: journal events by other callers, and authorizations. */
  datatype Action = Other(event: Event) | Gate(call: Call)

  function Act(lib: Lib, d: Dir, action: Action): Dir {
    match action
    case Other(e) => Step(lib, d, e)
    case Gate(c) => Authorize(lib, d, c).0
  }

  function RunActions(lib: Lib, d: Dir, actions: seq<Action>): Dir
    decreases actions
  {
    if actions == [] then d else RunActions(lib, Act(lib, d, actions[0]), actions[1..])
  }

  predicate Authorizes(lib: Lib, d: Dir, action: Action) {
    action.Gate? && Authorize(lib, d, action.call).1.Done?
  }

  /** The intents whose authorization succeeded, in order. */
  function Authorized(lib: Lib, d: Dir, actions: seq<Action>): seq<Intent>
    decreases actions
  {
    if actions == [] then []
    else
      var rest := Authorized(lib, Act(lib, d, actions[0]), actions[1..]);
      if Authorizes(lib, d, actions[0]) then [actions[0].call.intent] + rest else rest
  }

  /** Both execution files of the intent are on disk. */
  predicate DurablyAuthorized(lib: Lib, d: Dir, i: Intent) {
    && i.approval.Some?
    && i.approval.value.outgoingId == i.intentId
    && DurablyBound(lib, d, BindingFor(i, i.approval.value)) && WritableBinding(lib, BindingFor(i, i.approval.value))
  }

  lemma {:induction false} EventsKeepVisible(lib: Lib, d: Dir, events: seq<Event>)
    requires DurableIsVisible(d)
    ensures DurableIsVisible(Run(lib, d, events))
    decreases events
  {
    if events != [] {
      StepKeepsDurable(lib, d, events[0]);
      EventsKeepVisible(lib, Step(lib, d, events[0]), events[1..]);
    }
  }

  lemma AuthorizeKeepsDurable(lib: Lib, d: Dir, c: Call)
    requires DurableIsVisible(d)
    ensures var (d', r) := Authorize(lib, d, c);
            && KeepsDurable(d, d') && DurableIsVisible(d')
            && (r.Done? ==> DurablyAuthorized(lib, d', c.intent))
  {
    hide LoadRecords, BindExecution, DurablyBound;
    var a := Precheck(c.intent);
    if a.Ok? {
      var (d1, s) := Load(lib, d, false, c.intent.payload.org, a.value.request, c.loadFaults);
      if s.Ok? {
        RunKeepsDurable(lib, d1, c.between);
        EventsKeepVisible(lib, d1, c.between);
        BindKeepsDurable(lib, Run(lib, d1, c.between), BindingFor(c.intent, a.value), c.bindFaults);
      }
    }
  }

  lemma ActKeepsDurable(lib: Lib, d: Dir, action: Action)
    requires DurableIsVisible(d)
    ensures KeepsDurable(d, Act(lib, d, action)) && DurableIsVisible(Act(lib, d, action))
    ensures Authorizes(lib, d, action) ==> DurablyAuthorized(lib, Act(lib, d, action), action.call.intent)
  {
    hide Step, Authorize, DurablyAuthorized;
    match action
    case Other(e) => StepKeepsDurable(lib, d, e);
    case Gate(c) => AuthorizeKeepsDurable(lib, d, c);
  }

  lemma {:induction false} ActionsKeepDurable(lib: Lib, d: Dir, actions: seq<Action>)
    requires DurableIsVisible(d)
    ensures KeepsDurable(d, RunActions(lib, d, actions))
    decreases actions
  {
    if actions != [] {
      ActKeepsDurable(lib, d, actions[0]);
      ActionsKeepDurable(lib, Act(lib, d, actions[0]), actions[1..]);
    }
  }

  /** Each success leaves both execution files durable, through every later failure, crash and restart. */
  lemma {:induction false} AuthorizedStaysDurable(lib: Lib, d: Dir, actions: seq<Action>, i: nat)
    requires DurableIsVisible(d)
    requires i < |Authorized(lib, d, actions)|
    ensures DurablyAuthorized(lib, RunActions(lib, d, actions), Authorized(lib, d, actions)[i])
    decreases actions
  {
    hide Act, Authorizes;
    var next := Act(lib, d, actions[0]);
    ActKeepsDurable(lib, d, actions[0]);
    if Authorizes(lib, d, actions[0]) && i == 0 {
      ActionsKeepDurable(lib, next, actions[1..]);
    } else {
      AuthorizedStaysDurable(lib, next, actions[1..], if Authorizes(lib, d, actions[0]) then i - 1 else i);
    }
  }

  /**
    Over every run, all intents authorized for one (organization, request) carry
    the same outgoing ID, digest, payload type and hash algorithm.
  */
  lemma SingleAuthorization(lib: Lib, d: Dir, actions: seq<Action>, i: nat, j: nat)
    requires Faithful(lib) && DurableIsVisible(d)
    requires i < |Authorized(lib, d, actions)| && j < |Authorized(lib, d, actions)|
    requires var x, y := Authorized(lib, d, actions)[i], Authorized(lib, d, actions)[j];
             x.payload.org == y.payload.org && x.approval.Some? && y.approval.Some? && x.approval.value.request == y.approval.value.request
    ensures var x, y := Authorized(lib, d, actions)[i], Authorized(lib, d, actions)[j];
            && x.intentId == y.intentId && x.approval.value.outgoingId == y.approval.value.outgoingId
            && x.payload.digest == y.payload.digest
            && x.payload.payloadType == y.payload.payloadType && x.payload.hashAlgorithm == y.payload.hashAlgorithm
  {
    AuthorizedStaysDurable(lib, d, actions, i);
    AuthorizedStaysDurable(lib, d, actions, j);
    var x, y := Authorized(lib, d, actions)[i], Authorized(lib, d, actions)[j];
    var b, c := BindingFor(x, x.approval.value), BindingFor(y, y.approval.value);
    assert RoundTrips(lib.execution, b) && RoundTrips(lib.execution, c);
    assert Some(b) == lib.execution.decode(lib.execution.encode(b)) == lib.execution.decode(lib.execution.encode(c)) == Some(c);
    Base64.StdEncodeInjective(x.payload.digest, y.payload.digest);
  }
}
