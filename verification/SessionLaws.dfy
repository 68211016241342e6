/** What the log of every session satisfies. */
module SessionLaws {
  import opened Common
  import opened Lifecycle
  import opened SessionTypes
  import opened SessionWorker

  /** The stretches of one session's log, in order. */
  datatype Stretches = Stretches(
    attempts: seq<Effect>, ending: Option<Effect>, polls: seq<Effect>, answers: seq<Effect>,
    effects: seq<Effect>, sent: seq<Effect>)

  const NOTHING := Stretches([], None, [], [], [], [])

  function Whole(r: Stretches): seq<Effect> {
    r.attempts + Maybe(r.ending) + r.polls + r.answers + r.effects + r.sent
  }

  /** The claimed intent once its session runs. */
  function RunningIntent(claim: Claim, s: Session): Intent {
    ClaimedIntent(claim).(session := s)
  }

  /** A claim that entitles this session to execute. */
  predicate Entitles(lib: Lib, admitted: Intent, kind: Kind, e: Effect) {
    && e.Claimed? && e.answer.error.None? && lib.classify(e.answer.claim.typeText) == kind
    && IdentityMatches(lib, admitted, e.answer.claim, kind) && lib.validIntent(ClaimedIntent(e.answer.claim))
  }

  /** An attempt was ambiguous and the claim then ended in a refusal or at the deadline. */
  predicate Owes(lib: Lib, admitted: Intent, r: Stretches) {
    && r.attempts != [] && r.ending.Some?
    && (r.ending.value == ClaimExpired || (r.ending.value.Claimed? && Refusal(lib, admitted, r.ending.value.answer)))
  }

  predicate ExecutionEffect(e: Effect) {
    e.TransportStopped? || e.ContextEnded? || e.CoreStarted? || e.CoreReturned? || e.DkgReturned?
  }

  predicate DeliveryEffect(e: Effect) {
    e.Posted? || e.Observed? || e.Published?
  }

  predicate OnlyFailure(e: Effect) {
    (e.Posted? ==> e.result.FailedResult?) && (e.Published? ==> e.failed)
  }

  /** The kinds of effects each stretch holds. */
  predicate Sorted(lib: Lib, admitted: Intent, r: Stretches) {
    && Attempts(lib, admitted, r.attempts)
    && (r.ending.Some? ==> r.ending.value == ClaimExpired
                           || (r.ending.value.Claimed? && !Ambiguous(lib, admitted, r.ending.value.answer)))
    && Polls(r.polls) && GateAnswers(r.answers)
    && (forall i | 0 <= i < |r.effects| :: ExecutionEffect(r.effects[i]) && (r.effects[i] == CoreStarted ==> i == 0))
    && (forall i | 0 <= i < |r.sent| :: DeliveryEffect(r.sent[i]))
  }

  predicate CoreRan(r: Stretches) {
    r.effects != [] && r.effects[0] == CoreStarted
  }

  /** Core only runs behind an entitling claim, an observation that is ready and a gate that agreed. */
  predicate Earned(lib: Lib, admitted: Intent, r: Stretches) {
    CoreRan(r) ==>
      && r.ending.Some? && r.ending.value.Claimed? && Entitles(lib, admitted, Sign, r.ending.value)
      && r.polls != [] && Polls(r.polls) && r.polls[|r.polls| - 1].poll.error.None?
      && ReadyToSign(ClaimedIntent(r.ending.value.answer.claim), r.polls[|r.polls| - 1].poll.session, r.polls[|r.polls| - 1].wall)
      && r.answers != [] && r.answers[|r.answers| - 1] == GateAnswered(None)
  }

  /** A gate that agreed ends its stretch, and Core follows unless the context ended or the transport stopped first. */
  predicate Runs(r: Stretches) {
    forall i | 0 <= i < |r.answers| && r.answers[i] == GateAnswered(None) ::
      i == |r.answers| - 1 && r.effects != [] && r.effects[0] in {CoreStarted, TransportStopped, ContextEnded}
  }

  /** Settles the admitted intent, or the claimed one with the session it had or was observed with. */
  ghost predicate Settles(admitted: Intent, claim: Claim, e: Effect) {
    Resolves(admitted, e) || exists s :: Resolves(RunningIntent(claim, s), e)
  }

  /** What is reported carries the ID of the admitted intent, or of the claim that ended the loop. */
  predicate NamedBy(admitted: Intent, ending: Option<Effect>, e: Effect) {
    var ids := {admitted.intentId} + if ending.Some? && ending.value.Claimed? then {ending.value.answer.claim.intentId} else {};
    (e.Posted? ==> e.intentId in ids) && (e.Published? ==> e.publishedId in ids)
  }

  predicate Named(admitted: Intent, ending: Option<Effect>, sent: seq<Effect>) {
    forall i | 0 <= i < |sent| :: NamedBy(admitted, ending, sent[i])
  }

  predicate ClaimAccepted(r: Stretches) {
    r.ending.Some? && r.ending.value.Claimed? && r.ending.value.answer.error.None?
  }

  /** The stretches of a session whose process stopped by the end or not. */
  ghost predicate Shape(lib: Lib, admitted: Intent, r: Stretches, stopping: bool) {
    && Sorted(lib, admitted, r) && Earned(lib, admitted, r) && Runs(r) && Named(admitted, r.ending, r.sent)
    && (!stopping && lib.classify(admitted.typeText) != AnyKind ==> Whole(r) != [])
    && (!stopping && ClaimAccepted(r) ==>
          r.sent != [] && Settles(admitted, r.ending.value.answer.claim, r.sent[|r.sent| - 1]))
    && (forall i | 0 <= i < |r.sent| && r.sent[i].Posted? && r.sent[i].result == CompletedResult :: CoreReturned(None) in r.effects)
    && (!stopping && CoreRan(r) ==>
          r.sent != [] && Resolves(RunningIntent(r.ending.value.answer.claim, r.polls[|r.polls| - 1].poll.session), r.sent[|r.sent| - 1]))
    && (!stopping && Owes(lib, admitted, r) ==>
          r.sent != [] && Resolves(admitted, r.sent[|r.sent| - 1]) && OnlyFailure(r.sent[|r.sent| - 1]))
  }

  // ---- The laws, over the log alone ----

  predicate ReleasedLast(log: seq<Effect>) {
    && log != [] && log[|log| - 1].Released?
    && forall i | 0 <= i < |log| - 1 :: !log[i].Released?
  }

  predicate CoreAtMostOnce(log: seq<Effect>) {
    forall i, j | 0 <= i < |log| && 0 <= j < |log| && log[i] == CoreStarted && log[j] == CoreStarted :: i == j
  }

  predicate NoCoreAfterStop(log: seq<Effect>) {
    forall i, j | 0 <= i < j < |log| && log[i] == TransportStopped :: log[j] != CoreStarted
  }

  /** Effects `a`, `b` and `c` are the claim, the observation and the gate's answer that Core at `i` rests on. */
  predicate RestsOn(lib: Lib, admitted: Intent, log: seq<Effect>, a: int, b: int, c: int, i: int) {
    && 0 <= a < b < c < i < |log|
    && log[a].Claimed? && Entitles(lib, admitted, Sign, log[a])
    && log[b].Polled? && log[b].poll.error.None?
    && ReadyToSign(ClaimedIntent(log[a].answer.claim), log[b].poll.session, log[b].wall)
    && log[c] == GateAnswered(None)
  }

  /** The result of an execution is settled after it: accepted, or the backend shows a terminal session. */
  ghost predicate SettledAfter(intent: Intent, log: seq<Effect>, i: nat) {
    exists k :: i < k < |log| && Resolves(intent, log[k])
  }

  ghost predicate CoreLaw(lib: Lib, admitted: Intent, log: seq<Effect>)
    requires ReleasedLast(log)
  {
    forall i | 0 <= i < |log| && log[i] == CoreStarted ::
      exists a, b, c ::
        && RestsOn(lib, admitted, log, a, b, c, i)
        && (log[|log| - 1].stopping || SettledAfter(RunningIntent(log[a].answer.claim, log[b].poll.session), log, i))
  }

  predicate CompletionLaw(log: seq<Effect>) {
    forall i | 0 <= i < |log| && log[i].Posted? && log[i].result == CompletedResult :: CoreReturned(None) in log[..i]
  }

  /** A failure of the admitted intent settled after effect `j`. */
  ghost predicate FailureSettledAfter(admitted: Intent, log: seq<Effect>, j: nat) {
    exists k :: j < k < |log| && Resolves(admitted, log[k]) && OnlyFailure(log[k])
  }

  ghost predicate ClaimLaw(lib: Lib, admitted: Intent, log: seq<Effect>)
    requires ReleasedLast(log)
  {
    forall i, j | 0 <= i < j < |log| && log[i].Claimed? && Ambiguous(lib, admitted, log[i].answer)
                  && (log[j] == ClaimExpired || (log[j].Claimed? && Refusal(lib, admitted, log[j].answer))) ::
      log[|log| - 1].stopping || FailureSettledAfter(admitted, log, j)
  }

  /** An accepted claim is settled before the lease goes, unless the process stops. */
  ghost predicate AcceptedLaw(admitted: Intent, log: seq<Effect>)
    requires ReleasedLast(log)
  {
    forall i | 0 <= i < |log| && log[i].Claimed? && log[i].answer.error.None? && !log[|log| - 1].stopping ::
      exists k :: i < k < |log| && Settles(admitted, log[i].answer.claim, log[k])
  }

  /** When the gate has agreed, Core is next, unless the context ended or the transport stopped. */
  predicate AuthorizedRuns(log: seq<Effect>) {
    forall i | 0 <= i < |log| && log[i] == GateAnswered(None) ::
      i + 1 < |log| && log[i + 1] in {CoreStarted, TransportStopped, ContextEnded}
  }

  /** A supported intent is not let go unattended while the process runs. */
  predicate Attended(lib: Lib, admitted: Intent, log: seq<Effect>)
    requires ReleasedLast(log)
  {
    lib.classify(admitted.typeText) != AnyKind ==> log[|log| - 1].stopping || |log| >= 2
  }

  /** Nothing is reported under another ID than the admitted intent's or a claimed one's. */
  predicate NamesLaw(admitted: Intent, log: seq<Effect>) {
    forall i | 0 <= i < |log| && (log[i].Posted? || log[i].Published?) ::
      var id := if log[i].Posted? then log[i].intentId else log[i].publishedId;
      id == admitted.intentId || exists j :: 0 <= j < i && log[j].Claimed? && log[j].answer.claim.intentId == id
  }

  ghost predicate Lawful(lib: Lib, admitted: Intent, log: seq<Effect>) {
    && ReleasedLast(log) && CoreAtMostOnce(log) && NoCoreAfterStop(log)
    && CoreLaw(lib, admitted, log) && CompletionLaw(log) && ClaimLaw(lib, admitted, log)
    && AcceptedLaw(admitted, log) && AuthorizedRuns(log) && Attended(lib, admitted, log) && NamesLaw(admitted, log)
  }

  // ---- From stretches to laws ----

  function Log(r: Stretches, stopping: bool): seq<Effect> {
    Whole(r) + [Released(stopping)]
  }

  /** Where the stretches lie in the log. */
  lemma Places(r: Stretches, stopping: bool, i: nat)
    requires i < |Log(r, stopping)|
    ensures var a, e := |r.attempts|, |Maybe(r.ending)|;
            var p := a + e + |r.polls|;
            var g := p + |r.answers|;
            var x := g + |r.effects|;
            var d := x + |r.sent|;
            && |Log(r, stopping)| == d + 1
            && (i < a ==> Log(r, stopping)[i] == r.attempts[i])
            && (a <= i < a + e ==> i == a && r.ending.Some? && Log(r, stopping)[i] == r.ending.value)
            && (a + e <= i < p ==> Log(r, stopping)[i] == r.polls[i - a - e])
            && (p <= i < g ==> Log(r, stopping)[i] == r.answers[i - p])
            && (g <= i < x ==> Log(r, stopping)[i] == r.effects[i - g])
            && (x <= i < d ==> Log(r, stopping)[i] == r.sent[i - x])
            && (i == d ==> Log(r, stopping)[i] == Released(stopping))
  {
  }

  /** The kind of an effect tells its stretch. */
  lemma KindTellsPlace(lib: Lib, admitted: Intent, r: Stretches, stopping: bool, i: nat)
    requires Sorted(lib, admitted, r) && i < |Log(r, stopping)|
    ensures var log, g := Log(r, stopping), |r.attempts| + |Maybe(r.ending)| + |r.polls| + |r.answers|;
            && |log| == g + |r.effects| + |r.sent| + 1
            && (log[i].Released? <==> i == |log| - 1)
            && (ExecutionEffect(log[i]) <==> g <= i < g + |r.effects|)
            && (log[i] == CoreStarted <==> i == g && CoreRan(r))
            && (log[i].Posted? ==> g + |r.effects| <= i < |log| - 1 && log[i] == r.sent[i - g - |r.effects|])
            && (log[i].Claimed? || log[i] == ClaimExpired ==> i <= |r.attempts| && (i == |r.attempts| ==> r.ending == Some(log[i])))
            && (i < |r.attempts| ==> log[i].Claimed? && Ambiguous(lib, admitted, log[i].answer))
  {
    hide Log, Ambiguous;
    Places(r, stopping, i);
    if i < |r.attempts| {
      assert r.attempts[i].Claimed?;
    }
  }

  lemma PlainLaws(lib: Lib, admitted: Intent, r: Stretches, stopping: bool)
    requires Sorted(lib, admitted, r)
    ensures var log := Log(r, stopping); ReleasedLast(log) && log[|log| - 1] == Released(stopping) && CoreAtMostOnce(log) && NoCoreAfterStop(log)
  {
    hide Log, Sorted, CoreRan, Ambiguous;
    var log := Log(r, stopping);
    assert log != [] by { LogNonEmpty(r, stopping); }
    Places(r, stopping, |log| - 1);
    forall i | 0 <= i < |log|
      ensures log[i].Released? <==> i == |log| - 1
      ensures var g := |r.attempts| + |Maybe(r.ending)| + |r.polls| + |r.answers|;
              (ExecutionEffect(log[i]) ==> g <= i) && (log[i] == CoreStarted ==> i == g)
    {
      KindTellsPlace(lib, admitted, r, stopping, i);
    }
  }

  lemma LogNonEmpty(r: Stretches, stopping: bool)
    ensures Log(r, stopping) != []
  {
  }

  lemma CompletionHolds(lib: Lib, admitted: Intent, r: Stretches, stopping: bool)
    requires Shape(lib, admitted, r, stopping)
    ensures CompletionLaw(Log(r, stopping))
  {
    hide Log, Sorted, CoreRan, Ambiguous, Earned, Owes, Resolves, Runs, Settles;
    var log := Log(r, stopping);
    forall i | 0 <= i < |log| && log[i].Posted? && log[i].result == CompletedResult
      ensures CoreReturned(None) in log[..i]
    {
      KindTellsPlace(lib, admitted, r, stopping, i);
      var g := |r.attempts| + |Maybe(r.ending)| + |r.polls| + |r.answers|;
      var k :| 0 <= k < |r.effects| && r.effects[k] == CoreReturned(None);
      Places(r, stopping, g + k);
      assert log[..i][g + k] == CoreReturned(None);
    }
  }

  lemma CoreHolds(lib: Lib, admitted: Intent, r: Stretches, stopping: bool)
    requires Shape(lib, admitted, r, stopping)
    ensures ReleasedLast(Log(r, stopping)) && CoreLaw(lib, admitted, Log(r, stopping))
  {
    hide Log, Sorted, Ambiguous, Owes, Resolves, Entitles, ReadyToSign, Runs, Settles;
    var log := Log(r, stopping);
    PlainLaws(lib, admitted, r, stopping);
    forall i | 0 <= i < |log| && log[i] == CoreStarted
      ensures exists a, b, c ::
                && RestsOn(lib, admitted, log, a, b, c, i)
                && (stopping || SettledAfter(RunningIntent(log[a].answer.claim, log[b].poll.session), log, i))
    {
      KindTellsPlace(lib, admitted, r, stopping, i);
      var a := |r.attempts|;
      var b, c := a + |r.polls|, a + |r.polls| + |r.answers|;
      Places(r, stopping, a);
      Places(r, stopping, b);
      Places(r, stopping, c);
      assert RestsOn(lib, admitted, log, a, b, c, i);
      if !stopping {
        var k := |log| - 2;
        Places(r, stopping, k);
        assert i < k && Resolves(RunningIntent(log[a].answer.claim, log[b].poll.session), log[k]);
      }
    }
  }

  lemma ClaimHolds(lib: Lib, admitted: Intent, r: Stretches, stopping: bool)
    requires Shape(lib, admitted, r, stopping)
    ensures ReleasedLast(Log(r, stopping)) && ClaimLaw(lib, admitted, Log(r, stopping))
  {
    hide Log, Ambiguous, Refusal, Resolves, Earned, CoreRan, Runs, Settles;
    var log := Log(r, stopping);
    PlainLaws(lib, admitted, r, stopping);
    forall i, j | 0 <= i < j < |log| && log[i].Claimed? && Ambiguous(lib, admitted, log[i].answer)
                  && (log[j] == ClaimExpired || (log[j].Claimed? && Refusal(lib, admitted, log[j].answer)))
      ensures stopping || FailureSettledAfter(admitted, log, j)
    {
      KindTellsPlace(lib, admitted, r, stopping, i);
      KindTellsPlace(lib, admitted, r, stopping, j);
      if j < |r.attempts| {
        NotBoth(lib, admitted, log[j].answer);
      }
      assert Owes(lib, admitted, r);
      if !stopping {
        var k := |log| - 2;
        Places(r, stopping, k);
        assert j < k && Resolves(admitted, log[k]) && OnlyFailure(log[k]);
      }
    }
  }

  lemma AcceptedHolds(lib: Lib, admitted: Intent, r: Stretches, stopping: bool)
    requires Shape(lib, admitted, r, stopping)
    ensures ReleasedLast(Log(r, stopping)) && AcceptedLaw(admitted, Log(r, stopping)) && Attended(lib, admitted, Log(r, stopping))
  {
    hide Log, Settles, Earned, CoreRan, Runs, Owes, Resolves, Refusal;
    var log := Log(r, stopping);
    PlainLaws(lib, admitted, r, stopping);
    assert |log| == |Whole(r)| + 1 by { Places(r, stopping, |log| - 1); }
    forall i | 0 <= i < |log| && log[i].Claimed? && log[i].answer.error.None? && !stopping
      ensures exists k :: i < k < |log| && Settles(admitted, log[i].answer.claim, log[k])
    {
      KindTellsPlace(lib, admitted, r, stopping, i);
      assert i == |r.attempts| by { if i < |r.attempts| { AcceptedIsNotAmbiguous(lib, admitted, log[i].answer); } }
      var k := |log| - 2;
      Places(r, stopping, k);
      assert i < k && Settles(admitted, log[i].answer.claim, log[k]);
    }
  }

  lemma AcceptedIsNotAmbiguous(lib: Lib, admitted: Intent, a: ClaimAnswer)
    requires a.error.None?
    ensures !Ambiguous(lib, admitted, a)
  {
  }

  lemma AuthorizedRunsHolds(lib: Lib, admitted: Intent, r: Stretches, stopping: bool)
    requires Sorted(lib, admitted, r) && Runs(r)
    ensures AuthorizedRuns(Log(r, stopping))
  {
    hide Log, Ambiguous, CoreRan;
    var log := Log(r, stopping);
    forall i | 0 <= i < |log| && log[i] == GateAnswered(None)
      ensures i + 1 < |log| && log[i + 1] in {CoreStarted, TransportStopped, ContextEnded}
    {
      var p := |r.attempts| + |Maybe(r.ending)| + |r.polls|;
      Places(r, stopping, i);
      assert p <= i < p + |r.answers|;
      Places(r, stopping, i + 1);
    }
  }

  lemma NamesHold(lib: Lib, admitted: Intent, r: Stretches, stopping: bool)
    requires Sorted(lib, admitted, r) && Named(admitted, r.ending, r.sent)
    ensures NamesLaw(admitted, Log(r, stopping))
  {
    hide Log, Ambiguous, CoreRan;
    var log := Log(r, stopping);
    forall i | 0 <= i < |log| && (log[i].Posted? || log[i].Published?)
      ensures var id := if log[i].Posted? then log[i].intentId else log[i].publishedId;
              id == admitted.intentId || exists j :: 0 <= j < i && log[j].Claimed? && log[j].answer.claim.intentId == id
    {
      Places(r, stopping, i);
      var x := |r.attempts| + |Maybe(r.ending)| + |r.polls| + |r.answers| + |r.effects|;
      assert x <= i < x + |r.sent| && NamedBy(admitted, r.ending, r.sent[i - x]);
      if r.ending.Some? && r.ending.value.Claimed? {
        Places(r, stopping, |r.attempts|);
        assert log[|r.attempts|] == r.ending.value;
      }
    }
  }

  lemma NotBoth(lib: Lib, admitted: Intent, a: ClaimAnswer)
    ensures !(Ambiguous(lib, admitted, a) && Refusal(lib, admitted, a))
  {
    hide RejectionVerified;
  }

  lemma ShapeIsLawful(lib: Lib, admitted: Intent, r: Stretches, stopping: bool)
    requires Shape(lib, admitted, r, stopping)
    ensures Lawful(lib, admitted, Log(r, stopping))
  {
    hide Log, Sorted, Earned, Owes, Resolves, Ambiguous, CoreLaw, ClaimLaw, CompletionLaw, AcceptedLaw, AuthorizedRuns, Attended, Settles, Named, NamesLaw;
    PlainLaws(lib, admitted, r, stopping);
    CoreHolds(lib, admitted, r, stopping);
    CompletionHolds(lib, admitted, r, stopping);
    ClaimHolds(lib, admitted, r, stopping);
    AcceptedHolds(lib, admitted, r, stopping);
    AuthorizedRunsHolds(lib, admitted, r, stopping);
    NamesHold(lib, admitted, r, stopping);
  }

  /**
    In every lawful log Core rests on a claim of the admitted intent: its ID, and
    its session, organization, key and deadline where the listing gave them; on a
    running session of that claim with its deadline ahead and more than two seconds
    of execution left; and on the gate's agreement, in this order.
  */
  lemma CoreRestsOnTheAdmitted(lib: Lib, admitted: Intent, log: seq<Effect>, i: nat) returns (a: nat, b: nat, c: nat)
    requires Lawful(lib, admitted, log) && i < |log| && log[i] == CoreStarted
    ensures a < b < c < i && log[a].Claimed? && log[b].Polled? && log[c] == GateAnswered(None)
    ensures var claim := log[a].answer.claim;
            && log[a].answer.error.None? && lib.classify(claim.typeText) == Sign
            && lib.validIntent(Intent(claim.typeText, claim.intentId, claim.sessionId, claim.org, claim.keyId, claim.payload, claim.deadline, claim.session, false))
            && ValidSession(claim.session, lib.upper(claim.typeText), claim.sessionId, claim.deadline)
            && claim.intentId == admitted.intentId && claim.deadline != ZERO_TIME
            && (admitted.sessionId != "" ==> claim.sessionId == admitted.sessionId)
            && (admitted.org != "" ==> claim.org == admitted.org)
            && (admitted.keyId != "" ==> claim.keyId == admitted.keyId)
            && (admitted.expiresAt != ZERO_TIME ==> claim.deadline == admitted.expiresAt)
    ensures var claim, s, now := log[a].answer.claim, log[b].poll.session, log[b].wall;
            && log[b].poll.error.None? && s.status == Running && s.deadline == claim.deadline && now < s.deadline
            && (claim.sessionId != "" ==> s.sessionId == claim.sessionId)
            && (claim.session.startedAt.Some? ==>
                  s.startedAt == claim.session.startedAt && s.executionExpiresAt == claim.session.executionExpiresAt)
            && s.startedAt.Some? && s.executionExpiresAt == Some(Earlier(s.startedAt.value + 300 * SECOND, s.deadline))
            && now + 2 * SECOND < s.executionExpiresAt.value
  {
    hide ClaimLaw, CompletionLaw, AcceptedLaw, AuthorizedRuns, Attended, CoreAtMostOnce, NoCoreAfterStop, SettledAfter;
    a, b, c :| RestsOn(lib, admitted, log, a, b, c, i);
  }

  /**
    What settles an intent: its result was accepted or found to conflict, the
    backend shows its session ended, with the times it had, or its DKG result was
    published.
  */
  lemma ResolvesExactly(intent: Intent, e: Effect)
    ensures Resolves(intent, e) <==>
              match e
              case Posted(id, _, error) => id == intent.intentId && (error.None? || TerminalConflict in error.value)
              case Published(_, _, ok) => ok
              case Observed(o) =>
                && o.error.None? && ValidSession(o.session, Sign, intent.sessionId, intent.expiresAt)
                && o.session.status != Pending && o.session.status != Running
                && (intent.session.startedAt.Some? ==>
                      && o.session.startedAt == intent.session.startedAt
                      && o.session.executionExpiresAt == intent.session.executionExpiresAt && o.session.executionExpiresAt.Some?)
              case _ => false
  {
    ValidExactly(if e.Observed? then e.observed.session else intent.session, Sign, intent.sessionId, intent.expiresAt);
  }
}
