/** `runSessionWithClock`: the whole of one admitted session. */
module SessionRun {
  import opened Common
  import opened Lifecycle
  import opened SessionTypes
  import opened SessionWorker
  import opened SessionLaws
  import Transport = TransportDispatch

  /** What the scheduler hands every session. */
  datatype Deps = Deps(lib: Lib, hasGate: bool, hasDkgRunner: bool, hasPublisher: bool)

  predicate Failures(log: seq<Effect>) {
    forall i | 0 <= i < |log| :: DeliveryEffect(log[i]) && OnlyFailure(log[i])
  }

  /** Every result posted is this one. */
  predicate PostedAre(sent: seq<Effect>, result: SignResult) {
    forall i | 0 <= i < |sent| && sent[i].Posted? :: sent[i].result == result
  }

  /** A DKG is published and a SIGN posted, under this ID. */
  predicate ReportsFor(kind: Kind, id: string, sent: seq<Effect>) {
    forall i | 0 <= i < |sent| ::
      if kind == Dkg then sent[i].Published? && sent[i].publishedId == id
      else sent[i].Observed? || (sent[i].Posted? && sent[i].intentId == id)
  }

  lemma ReportsAreNamed(kind: Kind, admitted: Intent, ending: Option<Effect>, id: string, sent: seq<Effect>)
    requires ReportsFor(kind, id, sent)
    requires id == admitted.intentId || (ending.Some? && ending.value.Claimed? && ending.value.answer.claim.intentId == id)
    ensures Named(admitted, ending, sent)
  {
  }

  /** A failed DKG can be published. */
  predicate CanPublish(d: Deps, kind: Kind) {
    kind == Dkg ==> d.hasPublisher
  }

  /** Publishes the failure of a claimed intent of either kind. */
  method Fail(d: Deps, w: World, kind: Kind, intent: Intent, code: Code) returns (ghost sent: seq<Effect>)
    modifies w
    ensures w.log == old(w.log) + sent && w.WentOn() && Failures(sent) && PostedAre(sent, FailedResult(code))
    ensures ReportsFor(kind, intent.intentId, sent)
    ensures w.stopping || (sent != [] && Resolves(intent, sent[|sent| - 1]))
    ensures w.Undisturbed() && CanPublish(d, kind) ==> w.stopping == old(w.stopping)
  {
    hide Resolves;
    if kind == Dkg {
      sent := PublishDkg(w, intent, true, d.hasPublisher);
    } else {
      sent := DeliverSignResult(w, intent, FailedResult(code));
    }
  }

  /** A session that never ran Core and posted only failures, with nothing owed left unsettled. */
  lemma ShapeWithoutCore(lib: Lib, admitted: Intent, r: Stretches, stopping: bool)
    requires Sorted(lib, admitted, r) && r.effects == [] && Failures(r.sent) && (stopping || Whole(r) != []) && Named(admitted, r.ending, r.sent)
    requires forall i | 0 <= i < |r.answers| :: r.answers[i] != GateAnswered(None)
    requires stopping || !ClaimAccepted(r) || (r.sent != [] && Settles(admitted, r.ending.value.answer.claim, r.sent[|r.sent| - 1]))
    requires stopping || !Owes(lib, admitted, r) || (r.sent != [] && Resolves(admitted, r.sent[|r.sent| - 1]))
    ensures Shape(lib, admitted, r, stopping)
  {
    hide Resolves, Owes, NamedBy;
  }

  lemma SettledAs(admitted: Intent, claim: Claim, s: Session, sent: seq<Effect>)
    requires sent != [] && Resolves(RunningIntent(claim, s), sent[|sent| - 1])
    ensures Settles(admitted, claim, sent[|sent| - 1])
  {
  }

  lemma EntitledOwesNothing(lib: Lib, admitted: Intent, kind: Kind, r: Stretches)
    requires r.ending.Some? && Entitles(lib, admitted, kind, r.ending.value)
    ensures !Owes(lib, admitted, r)
  {
  }

  /** The start of a session's log: its claim entitles it. */
  predicate ClaimStretch(lib: Lib, admitted: Intent, kind: Kind, claim: Claim, r: Stretches) {
    && r.polls == [] && r.answers == [] && r.effects == [] && r.sent == []
    && Sorted(lib, admitted, r)
    && r.ending.Some? && r.ending.value.Claimed? && r.ending.value.answer.claim == claim
    && Entitles(lib, admitted, kind, r.ending.value)
  }

  /** Fails a claimed intent before any execution: the failure is settled, or the process is stopping. */
  method GiveUp(d: Deps, w: World, admitted: Intent, kind: Kind, claim: Claim, s: Session, code: Code, ghost before: Stretches)
    returns (ghost r: Stretches)
    requires before.sent == [] && before.effects == [] && Sorted(d.lib, admitted, before) && w.log == Whole(before)
    requires forall i | 0 <= i < |before.answers| :: before.answers[i] != GateAnswered(None)
    requires before.ending.Some? && before.ending.value.Claimed? && before.ending.value.answer.claim == claim
    requires !Owes(d.lib, admitted, before)
    modifies w
    ensures w.log == Whole(r) && Shape(d.lib, admitted, r, w.stopping)
    ensures w.WentOn() && (w.Undisturbed() && CanPublish(d, kind) ==> w.stopping == old(w.stopping))
    ensures r == before.(sent := r.sent) && PostedAre(r.sent, FailedResult(code)) && ReportsFor(kind, claim.intentId, r.sent)
  {
    hide Resolves, Shape, Settles, Attempts, Refusal, Ambiguous, PostedAre, ReportsFor, Named;
    var sent := Fail(d, w, kind, RunningIntent(claim, s), code);
    r := before.(sent := sent);
    ReportsAreNamed(kind, admitted, r.ending, claim.intentId, sent);
    if !w.stopping { SettledAs(admitted, claim, s, sent); }
    ShapeWithoutCore(d.lib, admitted, r, w.stopping);
  }

  function LastOf(log: seq<Effect>): Effect
    requires log != []
  {
    log[|log| - 1]
  }

  /** What an undisturbed session waited for: readiness, and then the gate, each until it was settled. */
  predicate Waited(d: Deps, kind: Kind, claim: Claim, polls: seq<Effect>, answers: seq<Effect>) {
    && Settled(polls, ClaimedIntent(claim), kind)
    && if !Ready(ClaimedIntent(claim), kind, LastOf(polls)) || kind != Sign || !d.hasGate then answers == []
       else
         && answers != [] && LastOf(answers).GateAnswered? && !PendingAnswer(LastOf(answers))
         && forall i | 0 <= i < |answers| - 1 :: PendingAnswer(answers[i])
  }

  /** The session is let run: it is ready, and a SIGN has the gate's agreement. */
  predicate Cleared(kind: Kind, claim: Claim, polls: seq<Effect>, answers: seq<Effect>) {
    && polls != [] && Ready(ClaimedIntent(claim), kind, LastOf(polls))
    && (kind == Sign ==> answers != [] && LastOf(answers) == GateAnswered(None))
  }

  /** A refusal of the gate is what is reported. */
  predicate Refused(answers: seq<Effect>, sent: seq<Effect>) {
    answers != [] && LastOf(answers).GateAnswered? && LastOf(answers).gate.Some? ==> PostedAre(sent, BuildResult(LastOf(answers).gate, None))
  }

  /** Readiness and authorization. `running` is the intent to run, if it came to that. */
  method Prepare(d: Deps, w: World, admitted: Intent, kind: Kind, claim: Claim, ghost before: Stretches)
    returns (running: Option<Intent>, ghost r: Stretches)
    requires kind != AnyKind && ClaimStretch(d.lib, admitted, kind, claim, before) && w.log == Whole(before)
    modifies w
    ensures w.log == Whole(r) && w.WentOn() && (w.Undisturbed() && CanPublish(d, kind) ==> w.stopping == old(w.stopping))
    ensures r == before.(polls := r.polls, answers := r.answers, sent := r.sent)
    ensures w.Undisturbed() ==> r.polls != [] && Waited(d, kind, claim, r.polls, r.answers) && (running.Some? <==> Cleared(kind, claim, r.polls, r.answers))
    ensures w.Undisturbed() ==> Refused(r.answers, r.sent)
    ensures ReportsFor(kind, claim.intentId, r.sent)
    ensures running.None? ==> Shape(d.lib, admitted, r, w.stopping)
    ensures running.Some? ==>
      && (forall i | 0 <= i < |r.answers| && r.answers[i] == GateAnswered(None) :: i == |r.answers| - 1)
      && (kind == Dkg ==> r.answers == []) && running.value == RunningIntent(claim, running.value.session)
      && r == before.(polls := r.polls, answers := r.answers) && Sorted(d.lib, admitted, r)
      && (kind == Sign ==>
            && r.polls != [] && r.polls[|r.polls| - 1].Polled? && r.polls[|r.polls| - 1].poll.error.None?
            && running.value == RunningIntent(claim, r.polls[|r.polls| - 1].poll.session)
            && ReadyToSign(ClaimedIntent(claim), r.polls[|r.polls| - 1].poll.session, r.polls[|r.polls| - 1].wall)
            && r.answers != [] && r.answers[|r.answers| - 1] == GateAnswered(None))
  {
    hide Entitles, ReadyToSign, Resolves, Shape, Owes, Settles, Attempts, Waiting, PostedAre;
    r, running := before, None;
    var intent := ClaimedIntent(claim);
    var ready, error, polls := WaitForReadiness(w, intent, kind);
    r := r.(polls := polls);
    if error.Some? {
      var ctx := w.ContextError();
      EntitledOwesNothing(d.lib, admitted, kind, r);
      r := GiveUp(d, w, admitted, kind, claim, claim.session, BuildResult(error, ctx).code, r);
      return;
    }
    var armed := intent.(session := ready.value);
    if kind == Sign {
      var refused, answers := AuthorizeSign(w, d.hasGate);
      r := r.(answers := answers);
      if refused.Some? {
        var ctx := w.ContextError();
        EntitledOwesNothing(d.lib, admitted, kind, r);
        r := GiveUp(d, w, admitted, kind, claim, ready.value, BuildResult(refused, ctx).code, r);
        return;
      }
    }
    running := Some(armed);
  }

  /** The effects of an execution: Core first, if it ran, and a success only when Core succeeded. */
  predicate Executed(kind: Kind, effects: seq<Effect>, error: Option<Error>) {
    && (forall i | 0 <= i < |effects| :: ExecutionEffect(effects[i]) && (effects[i] == CoreStarted ==> i == 0 && kind == Sign))
    && (kind == Sign ==> effects != [] && effects[0] in {CoreStarted, TransportStopped, ContextEnded})
    && (kind == Sign && error.None? ==> CoreReturned(None) in effects)
  }

  /** The execution over a fresh transport, joined and closed. */
  method RunProtocol(d: Deps, w: World, kind: Kind) returns (error: Option<Error>, ghost effects: seq<Effect>)
    requires kind != AnyKind
    modifies w
    ensures w.log == old(w.log) + effects && w.WentOn() && Executed(kind, effects, error)
    ensures w.Undisturbed() ==> w.stopping == old(w.stopping)
    ensures w.Undisturbed() && kind == Sign && TransportStopped !in effects ==> effects == [CoreStarted, CoreReturned(error)]
    ensures kind == Dkg ==> if d.hasDkgRunner then effects == [DkgReturned(error)] else effects == [] && error.Some?
  {
    hide Transport.Run, Transport.RunsCore, Transport.StopWith, Transport.TryReserve;
    var tr := new Transport.HttpTransport();
    tr.Begin();
    effects := [];
    if kind == Dkg {
      error := Some({OtherError});
      if d.hasDkgRunner {
        var t := w.Ask();
        w.Record(DkgReturned(t.core));
        effects := [DkgReturned(t.core)];
        error := t.core;
      }
      tr.StopNow(None);
    } else {
      error, effects := RunSign(w, tr);
    }
  }

  /** The SIGN execution up to its closed transport, whose error prevails. */
  method RunSign(w: World, tr: Transport.HttpTransport) returns (error: Option<Error>, ghost effects: seq<Effect>)
    requires tr.Valid() && tr.ops == [Transport.Start]
    modifies w, tr
    ensures w.log == old(w.log) + effects && w.WentOn() && Executed(Sign, effects, error)
    ensures w.Undisturbed() ==> w.stopping == old(w.stopping)
    ensures w.Undisturbed() && TransportStopped !in effects ==> effects == [CoreStarted, CoreReturned(error)]
    ensures tr.done && (tr.err.Some? ==> error == Some(TransportError(tr.err.value)))
  {
    hide Transport.Run, Transport.RunsCore, Transport.StopWith, Transport.TryReserve;
    error, effects := RunSignProtocol(w, tr);
    assert Executed(Sign, effects, error);
    var t := w.Ask();
    if t.transportStops.Some? {
      tr.StopNow(t.transportStops.value);
      w.Record(TransportStopped);
      effects := effects + [TransportStopped];
    }
    tr.StopNow(None);
    if tr.err.Some? {
      error := Some(TransportError(tr.err.value));
    }
  }

  /** What an undisturbed execution did: it ran once, and what it returned is what is reported. */
  predicate Ran(d: Deps, kind: Kind, effects: seq<Effect>, sent: seq<Effect>) {
    && (kind == Sign && TransportStopped !in effects ==>
          |effects| == 2 && effects[0] == CoreStarted && effects[1].CoreReturned? && PostedAre(sent, BuildResult(effects[1].core, None)))
    && (kind == Dkg && d.hasDkgRunner ==>
          && |effects| == 1 && effects[0].DkgReturned?
          && forall i | 0 <= i < |sent| :: sent[i].Published? && (sent[i].failed <==> effects[0].dkg.Some?))
  }

  /** What is sent after an execution: a success only of a SIGN without error. */
  predicate Reported(kind: Kind, error: Option<Error>, sent: seq<Effect>) {
    forall i | 0 <= i < |sent| ::
      DeliveryEffect(sent[i]) && (sent[i].Posted? && sent[i].result == CompletedResult ==> kind == Sign && error.None?)
  }

  /** An execution that was cleared, with its result settled, gives the session its shape. */
  lemma ExecutionHasShape(lib: Lib, admitted: Intent, kind: Kind, claim: Claim, running: Intent, error: Option<Error>, r: Stretches, stopping: bool)
    requires ReportsFor(kind, claim.intentId, r.sent)
    requires Sorted(lib, admitted, r.(effects := [], sent := [])) && Executed(kind, r.effects, error) && Reported(kind, error, r.sent)
    requires r.ending.Some? && r.ending.value.Claimed? && r.ending.value.answer.claim == claim && Entitles(lib, admitted, kind, r.ending.value)
    requires running == RunningIntent(claim, running.session) && kind != AnyKind
    requires (forall i | 0 <= i < |r.answers| && r.answers[i] == GateAnswered(None) :: i == |r.answers| - 1) && (kind == Dkg ==> r.answers == [])
    requires kind == Sign ==>
      && r.polls != [] && r.polls[|r.polls| - 1].Polled? && r.polls[|r.polls| - 1].poll.error.None?
      && running == RunningIntent(claim, r.polls[|r.polls| - 1].poll.session)
      && ReadyToSign(ClaimedIntent(claim), r.polls[|r.polls| - 1].poll.session, r.polls[|r.polls| - 1].wall)
      && r.answers != [] && r.answers[|r.answers| - 1] == GateAnswered(None)
    requires stopping || (r.sent != [] && Resolves(running, r.sent[|r.sent| - 1]))
    ensures Shape(lib, admitted, r, stopping)
  {
    hide Entitles, ReadyToSign, Resolves, Owes, Attempts, Named, ReportsFor;
    EntitledOwesNothing(lib, admitted, kind, r);
    ReportsAreNamed(kind, admitted, r.ending, claim.intentId, r.sent);
    if !stopping { SettledAs(admitted, claim, running.session, r.sent); }
  }

  /** Reports what an execution returned. */
  method Report(d: Deps, w: World, kind: Kind, running: Intent, error: Option<Error>) returns (ghost sent: seq<Effect>)
    requires kind != AnyKind
    modifies w
    ensures w.log == old(w.log) + sent && w.WentOn() && Reported(kind, error, sent) && ReportsFor(kind, running.intentId, sent)
    ensures w.stopping || (sent != [] && Resolves(running, sent[|sent| - 1]))
    ensures w.Undisturbed() && CanPublish(d, kind) ==> w.stopping == old(w.stopping)
    ensures w.Undisturbed() && kind == Sign ==> PostedAre(sent, BuildResult(error, None))
    ensures kind == Dkg ==> forall i | 0 <= i < |sent| :: sent[i].Published? && (sent[i].failed <==> error.Some?)
  {
    hide Resolves, BuildResult;
    if kind == Dkg {
      sent := PublishDkg(w, running, error.Some?, d.hasPublisher);
    } else {
      var ctx := w.ContextError();
      sent := DeliverSignResult(w, running, BuildResult(error, ctx));
      CompletedExactly(error, ctx);
    }
  }

  /** Everything after a claim that entitles the session. */
  method Execute(d: Deps, w: World, admitted: Intent, kind: Kind, claim: Claim, ghost before: Stretches) returns (ghost r: Stretches)
    requires kind != AnyKind && ClaimStretch(d.lib, admitted, kind, claim, before) && w.log == Whole(before)
    requires w.last.now < claim.deadline
    modifies w
    ensures w.log == Whole(r) && Shape(d.lib, admitted, r, w.stopping)
    ensures w.WentOn() && (w.Undisturbed() && CanPublish(d, kind) ==> w.stopping == old(w.stopping))
    ensures r.attempts == before.attempts && r.ending == before.ending && ReportsFor(kind, claim.intentId, r.sent)
    ensures w.Undisturbed() ==>
      && r.polls != [] && Waited(d, kind, claim, r.polls, r.answers) && Refused(r.answers, r.sent)
      && (Cleared(kind, claim, r.polls, r.answers) ==> Ran(d, kind, r.effects, r.sent))
  {
    hide Entitles, ReadyToSign, Resolves, Shape, Sorted, Waited, Cleared, Executed, BuildResult, Reported, ReportsFor;
    var running;
    running, r := Prepare(d, w, admitted, kind, claim, before);
    if running.None? {
      return;
    }
    var error, effects := RunProtocol(d, w, kind);
    r := r.(effects := effects);
    var sent := Report(d, w, kind, running.value, error);
    r := r.(sent := sent);
    ExecutionHasShape(d.lib, admitted, kind, claim, running.value, error, r, w.stopping);
  }

  lemma CompletedExactly(error: Option<Error>, ctx: Option<Tag>)
    ensures BuildResult(error, ctx) == CompletedResult <==> error.None?
  {
  }

  /**
    What an undisturbed session did about the claim it ended with: an entitling
    one with time left is waited for and run; any other accepted one is reported
    invalid, or expired.
  */
  predicate Handled(d: Deps, admitted: Intent, kind: Kind, r: Stretches, latest: Time) {
    && r.ending.Some? && r.ending.value.Claimed?
    && var a := r.ending.value.answer;
       && (a.error.None? && !Entitles(d.lib, admitted, kind, r.ending.value) ==>
             r.polls == [] && r.answers == [] && r.effects == [] && PostedAre(r.sent, FailedResult(CodeInvalidIntent)))
       && (a.error.None? && Entitles(d.lib, admitted, kind, r.ending.value) ==>
             if r.polls == [] then latest >= a.claim.deadline && PostedAre(r.sent, FailedResult(CodeAlreadyExpired))
             else
               && Waited(d, kind, a.claim, r.polls, r.answers) && Refused(r.answers, r.sent)
               && (Cleared(kind, a.claim, r.polls, r.answers) ==> Ran(d, kind, r.effects, r.sent)))
  }

  /** A SIGN is posted and never published; a DKG is published, and never posted but for a rejected claim. */
  predicate RightKind(kind: Kind, r: Stretches) {
    forall i | 0 <= i < |r.sent| ::
      if kind == Sign then !r.sent[i].Published?
      else r.sent[i].Published? || (&& r.ending.Some? && r.ending.value.Claimed? && r.ending.value.answer.error.Some?
                                    && ClaimRejected in r.ending.value.answer.error.value)
  }

  lemma ReportsOfRightKind(kind: Kind, id: string, r: Stretches)
    requires kind != AnyKind && ReportsFor(kind, id, r.sent)
    ensures RightKind(kind, r)
  {
  }

  /** A SIGN session waits for the process to stop when its claim turns out to be of another kind. */
  predicate OtherKind(d: Deps, kind: Kind, r: Stretches) {
    kind == Sign && ClaimAccepted(r) && d.lib.classify(r.ending.value.answer.claim.typeText) != Sign
  }

  /** After a claim that was not accepted: what may stand is reported failed, unless the process stops. */
  method AfterRefusal(d: Deps, w: World, admitted: Intent, kind: Kind, claim: Claim, error: Option<Error>, ghost before: Stretches)
    returns (ghost r: Stretches)
    requires kind != AnyKind && before == NOTHING.(attempts := before.attempts, ending := before.ending)
    requires w.log == Whole(before) && Attempts(d.lib, admitted, before.attempts) && error.Some?
    requires ClaimOutcome(d.lib, admitted, before.attempts, before.ending, claim, error, w.stopping)
    modifies w
    ensures w.log == Whole(r) && Shape(d.lib, admitted, r, w.stopping)
    ensures w.WentOn() && r == before.(sent := r.sent) && RightKind(kind, r)
    ensures w.Undisturbed() && CanPublish(d, kind) ==> w.stopping == old(w.stopping)
    ensures ReportsFor(if ClaimRejected in error.value then Sign else kind, if ClaimRejected in error.value then claim.intentId else admitted.intentId, r.sent)
    ensures ClaimRejected in error.value ==> PostedAre(r.sent, FailedResult(CodeInvalidIntent))
    ensures ClaimRejected !in error.value ==>
      PostedAre(r.sent, FailedResult(if DeadlineExceeded in error.value then CodeAlreadyExpired else CodeInternal))
    ensures ClaimRejected !in error.value && DeadlineExceeded !in error.value && ClaimCleanup !in error.value ==> r.sent == []
    ensures ClaimRejected !in error.value && old(w.stopping) ==> r.sent == []
  {
    hide Ambiguous, Refusal, RejectionVerified, Resolves, Shape, Attempts;
    r := before;
    if ClaimRejected in error.value {
      var sent := DeliverSignResult(w, ClaimedIntent(claim), FailedResult(CodeInvalidIntent));
      r := r.(sent := sent);
      RejectedOwesNothing(d.lib, admitted, claim, error, before, w.stopping);
      ReportsAreNamed(Sign, admitted, r.ending, claim.intentId, sent);
    } else if (DeadlineExceeded in error.value || ClaimCleanup in error.value) && !w.stopping {
      var sent := Fail(d, w, kind, admitted, if DeadlineExceeded in error.value then CodeAlreadyExpired else CodeInternal);
      r := r.(sent := sent);
      ReportsAreNamed(kind, admitted, r.ending, admitted.intentId, sent);
    } else if !w.stopping {
      OwedIsMarked(d.lib, admitted, claim, error, before, w.stopping);
    }
    ShapeWithoutCore(d.lib, admitted, r, w.stopping);
  }

  /** Everything after the claim loop has returned. */
  method AfterClaim(d: Deps, w: World, admitted: Intent, kind: Kind, claim: Claim, error: Option<Error>, ghost before: Stretches)
    returns (ghost r: Stretches)
    requires kind != AnyKind && before == NOTHING.(attempts := before.attempts, ending := before.ending)
    requires w.log == Whole(before) && Attempts(d.lib, admitted, before.attempts)
    requires ClaimOutcome(d.lib, admitted, before.attempts, before.ending, claim, error, w.stopping)
    modifies w
    ensures w.log == Whole(r) && Shape(d.lib, admitted, r, w.stopping)
    ensures w.WentOn() && r.attempts == before.attempts && r.ending == before.ending && RightKind(kind, r)
    ensures w.Undisturbed() && CanPublish(d, kind) && !OtherKind(d, kind, r) ==> w.stopping == old(w.stopping)
    ensures w.Undisturbed() && before.ending.Some? && before.ending.value.Claimed? ==> Handled(d, admitted, kind, r, w.latest)
  {
    hide Ambiguous, Refusal, RejectionVerified, IdentityMatches, Resolves, Shape, Waited, Cleared, Ran, Refused, Attempts, PostedAre, ReportsFor, Named, RightKind;
    if error.Some? {
      r := AfterRefusal(d, w, admitted, kind, claim, error, before);
      return;
    }
    r := before;
    SuccessOwesNothing(d.lib, admitted, claim, before, w.stopping);
    var intent := ClaimedIntent(claim);
    if d.lib.classify(claim.typeText) != kind {
      if kind == Dkg {
        var sent := PublishDkg(w, intent, true, d.hasPublisher);
        r := r.(sent := sent);
        if !w.stopping { SettledAs(admitted, claim, claim.session, sent); }
        ReportsAreNamed(kind, admitted, r.ending, claim.intentId, sent);
        NothingPosted(sent);
      } else {
        w.AwaitStop();
        ReportsNothing(kind, claim.intentId);
        ReportsAreNamed(kind, admitted, r.ending, claim.intentId, []);
        NothingPosted([]);
      }
      ReportsOfRightKind(kind, claim.intentId, r);
      ShapeWithoutCore(d.lib, admitted, r, w.stopping);
      return;
    }
    if !IdentityMatches(d.lib, admitted, claim, kind) {
      var sent := Fail(d, w, kind, if kind == Dkg then intent else admitted, CodeInvalidIntent);
      r := r.(sent := sent);
      ReportsAreNamed(kind, admitted, r.ending, if kind == Dkg then claim.intentId else admitted.intentId, sent);
      ReportsOfRightKind(kind, if kind == Dkg then claim.intentId else admitted.intentId, r);
      if !w.stopping && kind == Dkg { SettledAs(admitted, claim, claim.session, sent); }
      ShapeWithoutCore(d.lib, admitted, r, w.stopping);
      return;
    }
    if !d.lib.validIntent(intent) {
      r := GiveUp(d, w, admitted, kind, claim, claim.session, CodeInvalidIntent, r);
      ReportsOfRightKind(kind, claim.intentId, r);
      return;
    }
    var t := w.Ask();
    if claim.deadline <= t.now {
      r := GiveUp(d, w, admitted, kind, claim, claim.session, CodeAlreadyExpired, r);
      ReportsOfRightKind(kind, claim.intentId, r);
      return;
    }
    r := Execute(d, w, admitted, kind, claim, before);
    ReportsOfRightKind(kind, claim.intentId, r);
  }

  lemma ReportsNothing(kind: Kind, id: string)
    ensures ReportsFor(kind, id, [])
  {
  }

  lemma NothingPosted(sent: seq<Effect>)
    requires forall i | 0 <= i < |sent| :: !sent[i].Posted?
    ensures forall result :: PostedAre(sent, result)
  {
  }

  lemma RejectedOwesNothing(lib: Lib, admitted: Intent, claim: Claim, error: Option<Error>, r: Stretches, stopping: bool)
    requires ClaimOutcome(lib, admitted, r.attempts, r.ending, claim, error, stopping)
    requires error.Some? && ClaimRejected in error.value
    ensures !Owes(lib, admitted, r)
  {
  }

  /** Whatever is owed carries the deadline or the cleanup mark. */
  lemma OwedIsMarked(lib: Lib, admitted: Intent, claim: Claim, error: Option<Error>, r: Stretches, stopping: bool)
    requires ClaimOutcome(lib, admitted, r.attempts, r.ending, claim, error, stopping)
    requires error.Some? && DeadlineExceeded !in error.value && ClaimCleanup !in error.value
    ensures !Owes(lib, admitted, r)
  {
  }

  lemma SuccessOwesNothing(lib: Lib, admitted: Intent, claim: Claim, r: Stretches, stopping: bool)
    requires ClaimOutcome(lib, admitted, r.attempts, r.ending, claim, None, stopping)
    ensures !Owes(lib, admitted, r)
  {
  }

  /**
    A whole session. Whatever the answers, the log obeys every law: the lease is
    released once and last; Core runs at most once, never after a transport
    stop, and only behind an entitling claim, a ready observation and the gate;
    after Core, and after an ambiguous claim that ended in a refusal or at the
    deadline, the lease waits until the result is settled or the process stops;
    and only a Core that succeeded is ever reported completed.
  */
  method RunSession(d: Deps, w: World, admitted: Intent) returns (ghost r: Stretches)
    requires w.log == []
    modifies w
    ensures Lawful(d.lib, admitted, w.log) && w.log == Log(r, w.stopping) && Sorted(d.lib, admitted, r)
    ensures w.log[|w.log| - 1] == Released(w.stopping) && RightKind(d.lib.classify(admitted.typeText), r)
    ensures var kind := d.lib.classify(admitted.typeText);
            w.Undisturbed() && CanPublish(d, kind) && !OtherKind(d, kind, r) ==> w.stopping == old(w.stopping)
    ensures var kind := d.lib.classify(admitted.typeText);
            && (kind == AnyKind ==> w.log == [Released(w.stopping)])
            && (kind == Sign && admitted.listedAsClaimed ==> w.log == r.sent + [Released(w.stopping)] && PostedAre(r.sent, FailedResult(CodeWorkerShutdown)))
            && (w.Undisturbed() && kind != AnyKind && !(kind == Sign && admitted.listedAsClaimed) ==> Handled(d, admitted, kind, r, w.latest))
  {
    hide Owes, Lawful, Attempts, ClaimOutcome, Earned, Runs, Settles, Resolves, Handled;
    r := NOTHING;
    var kind := d.lib.classify(admitted.typeText);
    if kind == AnyKind {
      NothingHasShape(d.lib, admitted, [], w.stopping);
    } else if kind == Sign && admitted.listedAsClaimed {
      var sent := DeliverSignResult(w, admitted, FailedResult(CodeWorkerShutdown));
      r := r.(sent := sent);
      ReportsAreNamed(Sign, admitted, None, admitted.intentId, sent);
      NothingHasShape(d.lib, admitted, sent, w.stopping);
    } else {
      var claim, error, attempts, ending := ClaimWithRecovery(d.lib, w, admitted);
      r := r.(attempts := attempts, ending := ending);
      assert w.log == Whole(r);
      r := AfterClaim(d, w, admitted, kind, claim, error, r);
    }
    w.Record(Released(w.stopping));
    ShapeIsLawful(d.lib, admitted, r, w.stopping);
    assert w.log == Log(r, w.stopping);
  }

  lemma NothingHasShape(lib: Lib, admitted: Intent, sent: seq<Effect>, stopping: bool)
    requires Named(admitted, None, sent) && Failures(sent) && (stopping || lib.classify(admitted.typeText) == AnyKind || sent != [])
    ensures Shape(lib, admitted, NOTHING.(sent := sent), stopping)
  {
  }
}
