/** Intents, claims, errors and the log of one admitted session. */
module SessionTypes {
  import opened Common
  import opened Lifecycle
  import Transport = TransportDispatch

  /** What `errors.Is` can find in an error. */
  datatype Tag =
    | AlreadyClaimed | NotFound | OutcomeUnknown | DeadlineExceeded | Canceled | ClaimRejected | ClaimCleanup
    | InvalidLifecycle | InvalidIntent | AlreadyExpired | Prepared | ApprovalPending | TerminalConflict
    | ShareNotFound | InvalidShare | ShareMetadata | MissingKey | ProtocolFault | OtherError

  /** An error is the set of sentinels it wraps. */
  type Error = set<Tag>

  datatype Intent = Intent(
    typeText: string, intentId: string, sessionId: string, org: string, keyId: string, payload: string,
    expiresAt: Time, session: Session, listedAsClaimed: bool)

  datatype Claim = Claim(
    typeText: string, intentId: string, sessionId: string, org: string, keyId: string, payload: string,
    deadline: Time, session: Session)

  function ClaimedIntent(c: Claim): Intent {
    Intent(c.typeText, c.intentId, c.sessionId, c.org, c.keyId, c.payload, c.deadline, c.session, false)
  }

  /** Text classification and payload validation. */
  datatype Lib = Lib(classify: string -> Kind, upper: string -> Kind, foldsToSign: string -> bool, validIntent: Intent -> bool)

  datatype ClaimAnswer = ClaimAnswer(claim: Claim, error: Option<Error>)

  datatype PollAnswer = PollAnswer(session: Session, error: Option<Error>)

  datatype Code =
    | CodeInvalidIntent | CodeAlreadyExpired | CodeSessionTimeout | CodeWorkerShutdown | CodeShareNotFound
    | CodeInvalidShare | CodeShareMetadata | CodeMissingKey | CodeProtocol | CodeInternal

  datatype SignResult = CompletedResult | FailedResult(code: Code)

  /** Everything the session does that another party, or the lease, can see. */
  datatype Effect =
    | Claimed(answer: ClaimAnswer)
    | ClaimExpired
    | Polled(poll: PollAnswer, wall: Time)
    | GateAnswered(gate: Option<Error>)
    | TransportStopped
    | ContextEnded
    | CoreStarted
    | CoreReturned(core: Option<Error>)
    | DkgReturned(dkg: Option<Error>)
    | Posted(intentId: string, result: SignResult, posted: Option<Error>)
    | Observed(observed: PollAnswer)
    | Published(publishedId: string, failed: bool, ok: bool)
    | Released(stopping: bool)

  /** `BuildResult`: no error completes the session; otherwise the first matching class gives the code. */
  function BuildResult(error: Option<Error>, ctx: Option<Tag>): SignResult {
    if error.None? then CompletedResult
    else
      var e := error.value;
      FailedResult(
        if DeadlineExceeded in e then CodeSessionTimeout
        else if Canceled in e then CodeWorkerShutdown
        else if InvalidIntent in e || Prepared in e then CodeInvalidIntent
        else if AlreadyExpired in e then CodeAlreadyExpired
        else if ShareNotFound in e then CodeShareNotFound
        else if InvalidShare in e then CodeInvalidShare
        else if ShareMetadata in e then CodeShareMetadata
        else if MissingKey in e then CodeMissingKey
        else if ProtocolFault in e then CodeProtocol
        else if ctx == Some(DeadlineExceeded) then CodeSessionTimeout
        else if ctx == Some(Canceled) then CodeWorkerShutdown
        else CodeInternal)
  }

  function TransportError(e: Transport.Error): Error {
    match e
    case ContextError(_) => {Canceled}
    case LifecycleError(_) => {InvalidLifecycle}
    case _ => {OtherError}
  }

  /** `validateClaimIdentity`. */
  predicate IdentityMatches(lib: Lib, intent: Intent, claim: Claim, kind: Kind) {
    && ValidSession(claim.session, lib.upper(claim.typeText), claim.sessionId, claim.deadline)
    && claim.deadline != ZERO_TIME && (intent.expiresAt != ZERO_TIME ==> intent.expiresAt == claim.deadline)
    && (intent.sessionId != "" ==> intent.sessionId == claim.sessionId)
    && (kind == Sign ==>
          && intent.intentId == claim.intentId
          && (intent.org != "" ==> intent.org == claim.org)
          && (intent.keyId != "" ==> intent.keyId == claim.keyId))
  }

  /** A rejected claim whose binding the worker verified. */
  predicate RejectionVerified(lib: Lib, intent: Intent, a: ClaimAnswer) {
    a.error.Some? && ClaimRejected in a.error.value
    && a.claim.typeText == "SIGN" && lib.foldsToSign(intent.typeText) && IdentityMatches(lib, intent, a.claim, Sign)
  }

  /** The error as the claim loop judges it: an unverified rejection is an unknown outcome. */
  function Judged(lib: Lib, intent: Intent, a: ClaimAnswer): Option<Error> {
    if a.error.Some? && ClaimRejected in a.error.value && !RejectionVerified(lib, intent, a) then Some({OutcomeUnknown})
    else a.error
  }

  /** The backend may or may not have assigned the intent. */
  predicate Ambiguous(lib: Lib, intent: Intent, a: ClaimAnswer) {
    var e := Judged(lib, intent, a);
    e.Some? && ClaimRejected !in e.value && AlreadyClaimed !in e.value && NotFound !in e.value
    && (OutcomeUnknown in e.value || DeadlineExceeded in e.value)
  }

  /** The backend refuses, other than by not knowing the intent. */
  predicate Refusal(lib: Lib, intent: Intent, a: ClaimAnswer) {
    var e := Judged(lib, intent, a);
    e.Some? && ClaimRejected !in e.value
    && (AlreadyClaimed in e.value || (NotFound !in e.value && OutcomeUnknown !in e.value && DeadlineExceeded !in e.value))
  }

  /** The remaining SIGN execution time at wall time `wall`. */
  function SignBudget(expiresAt: Time, wall: Time): int {
    Earlier(300 * SECOND, expiresAt - 2 * SECOND - wall)
  }

  /** An observation that lets a SIGN execution start. */
  predicate ReadyToSign(intent: Intent, s: Session, wall: Time) {
    && ValidSession(s, Sign, intent.sessionId, intent.expiresAt) && s.status == Running
    && (intent.session.startedAt.Some? ==>
          s.startedAt == intent.session.startedAt && s.executionExpiresAt == intent.session.executionExpiresAt)
    && s.executionExpiresAt.Some? && SignBudget(s.executionExpiresAt.value, wall) > 0 && s.deadline > wall
  }

  /** An observation that resolves the delivery of a SIGN result. */
  predicate ShowsTerminal(intent: Intent, o: PollAnswer) {
    && o.error.None? && ValidSession(o.session, Sign, intent.sessionId, intent.expiresAt)
    && (intent.session.startedAt.Some? ==>
          && o.session.startedAt == intent.session.startedAt
          && o.session.executionExpiresAt.Some? && o.session.executionExpiresAt == intent.session.executionExpiresAt)
    && o.session.status in {Status.Completed, Status.Failed, Status.TimedOut}
  }

  predicate PostAccepted(error: Option<Error>) {
    error.None? || TerminalConflict in error.value
  }

  // ---- Claim answers ----

  /** The rejection of a SIGN claim that names the very intent that was claimed. */
  predicate VerifiedRejection(lib: Lib, intent: Intent, a: ClaimAnswer) {
    && a.error.Some? && ClaimRejected in a.error.value && a.claim.typeText == "SIGN" && lib.foldsToSign(intent.typeText)
    && a.claim.intentId == intent.intentId && a.claim.deadline != ZERO_TIME
    && intent.expiresAt in {ZERO_TIME, a.claim.deadline} && intent.sessionId in {"", a.claim.sessionId}
    && intent.org in {"", a.claim.org} && intent.keyId in {"", a.claim.keyId}
    && ValidSession(a.claim.session, lib.upper("SIGN"), a.claim.sessionId, a.claim.deadline)
  }

  /** The answer does not tell whether the intent was assigned: a rejection that was not verified, an unknown outcome or a timeout. */
  predicate LeavesOpen(lib: Lib, intent: Intent, a: ClaimAnswer) {
    && a.error.Some?
    && var e := a.error.value;
       if ClaimRejected in e then !VerifiedRejection(lib, intent, a)
       else e !! {AlreadyClaimed, NotFound} && !(e !! {OutcomeUnknown, DeadlineExceeded})
  }

  /** Somebody else has the intent, or the claim fails for good. */
  predicate TurnsDown(a: ClaimAnswer) {
    && a.error.Some? && ClaimRejected !in a.error.value
    && (AlreadyClaimed in a.error.value || a.error.value !! {NotFound, OutcomeUnknown, DeadlineExceeded})
  }

  /** The backend does not know the intent. */
  predicate Unknown(a: ClaimAnswer) {
    a.error.Some? && ClaimRejected !in a.error.value && AlreadyClaimed !in a.error.value && NotFound in a.error.value
  }

  /** Every answer to a claim is exactly one of five: accepted, rejected for this intent, open, turned down, or unknown. */
  lemma AnswersArePartitioned(lib: Lib, intent: Intent, a: ClaimAnswer)
    ensures RejectionVerified(lib, intent, a) <==> VerifiedRejection(lib, intent, a)
    ensures Ambiguous(lib, intent, a) <==> LeavesOpen(lib, intent, a)
    ensures Refusal(lib, intent, a) <==> TurnsDown(a)
    ensures a.error.None? || VerifiedRejection(lib, intent, a) || LeavesOpen(lib, intent, a) || TurnsDown(a) || Unknown(a)
    ensures a.error.Some? && VerifiedRejection(lib, intent, a) ==> !LeavesOpen(lib, intent, a) && !TurnsDown(a) && !Unknown(a)
    ensures LeavesOpen(lib, intent, a) ==> !TurnsDown(a) && !Unknown(a)
    ensures TurnsDown(a) ==> !Unknown(a)
  {
    hide ValidSession;
  }

  // ---- Result codes ----

  /** The error classes, the first that matches deciding. */
  const CLASSES: seq<(Tag, Code)> := [
    (DeadlineExceeded, CodeSessionTimeout), (Canceled, CodeWorkerShutdown), (InvalidIntent, CodeInvalidIntent), (Prepared, CodeInvalidIntent),
    (AlreadyExpired, CodeAlreadyExpired), (ShareNotFound, CodeShareNotFound), (InvalidShare, CodeInvalidShare),
    (ShareMetadata, CodeShareMetadata), (MissingKey, CodeMissingKey), (ProtocolFault, CodeProtocol)]

  /** Class `k` is the first that the error belongs to. */
  ghost predicate FirstClass(e: Error, k: nat) {
    k < |CLASSES| && CLASSES[k].0 in e && forall j | 0 <= j < k :: CLASSES[j].0 !in e
  }

  /** A result completes exactly without error; otherwise its code is that of the first matching class, or the context's. */
  lemma ResultCodes(error: Option<Error>, ctx: Option<Tag>, k: nat)
    ensures BuildResult(error, ctx) == CompletedResult <==> error.None?
    ensures error.Some? && FirstClass(error.value, k) ==> BuildResult(error, ctx) == FailedResult(CLASSES[k].1)
    ensures error.Some? && (forall j: nat :: !FirstClass(error.value, j)) ==>
              BuildResult(error, ctx) == FailedResult(
                if ctx == Some(DeadlineExceeded) then CodeSessionTimeout else if ctx == Some(Canceled) then CodeWorkerShutdown else CodeInternal)
  {
    assert CLASSES[0].0 == DeadlineExceeded && CLASSES[1].0 == Canceled && CLASSES[2].0 == InvalidIntent && CLASSES[3].0 == Prepared;
    assert CLASSES[4].0 == AlreadyExpired && CLASSES[5].0 == ShareNotFound && CLASSES[6].0 == InvalidShare;
    assert CLASSES[7].0 == ShareMetadata && CLASSES[8].0 == MissingKey && CLASSES[9].0 == ProtocolFault;
    if error.Some? && forall j: nat :: !FirstClass(error.value, j) {
      NoClass(error.value, |CLASSES|);
      assert forall j | 0 <= j < |CLASSES| :: CLASSES[j].0 !in error.value;
    }
  }

  lemma {:induction false} NoClass(e: Error, n: nat)
    requires n <= |CLASSES| && forall j: nat :: !FirstClass(e, j)
    ensures forall j | 0 <= j < n :: CLASSES[j].0 !in e
  {
    if n > 0 {
      NoClass(e, n - 1);
      assert !FirstClass(e, n - 1);
    }
  }
}
