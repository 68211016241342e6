/** One admitted session, from its first claim to the release of its lease, against any script of answers. */
module SessionWorker {
  import opened Common
  import opened Lifecycle
  import opened SessionTypes
  import Transport = TransportDispatch

  datatype Branch = SawFinished | SawTransportDone | SawSessionDone

  /**
    One answer of the world to whichever call comes next. `stop` says that the
    process context has ended by then.
  */
  datatype Tick = Tick(
    stop: bool, ctx: Option<Tag>, claim: ClaimAnswer, poll: PollAnswer, now: Time, gate: Option<Error>,
    waitOver: bool, marshals: bool, post: Option<Error>, published: bool,
    transportStops: Option<Option<Transport.Error>>, core: Option<Error>, branch: Branch)

  /** When the script is over the process is stopping and nothing succeeds any more. */
  const NO_SESSION := Session("", Pending, None, 0, None)
  const OVER := Tick(true, Some(Canceled), ClaimAnswer(Claim("", "", "", "", "", "", 0, NO_SESSION), Some({Canceled})),
                     PollAnswer(NO_SESSION, Some({Canceled})), 0, Some({Canceled}), false, true, Some({Canceled}), false,
                     None, Some({Canceled}), SawSessionDone)

  /** An answer that leaves the session to itself: nothing stops, nothing times out, and what is local succeeds. */
  predicate Calm(t: Tick) {
    !t.stop && t.ctx.None? && t.marshals && t.waitOver && t.published && t.branch != SawSessionDone
  }

  class World {
    var script: seq<Tick>
    var stopping: bool
    var log: seq<Effect>
    ghost var calm: bool
    ghost var latest: Time
    ghost var last: Tick

    /** So far every answer was calm, and the world has more to say. */
    ghost predicate Undisturbed()
      reads this
    {
      script != [] && calm
    }

    /** Time went on, and what was disturbed stays so. */
    twostate predicate WentOn()
      reads this
    {
      old(latest) <= latest && (calm ==> old(calm)) && (old(stopping) ==> stopping) && |script| <= |old(script)|
    }

    method Ask() returns (t: Tick)
      modifies this`script, this`stopping, this`calm, this`latest, this`last
      ensures old(script) != [] ==> script == old(script)[1..] && t == old(script)[0]
      ensures old(script) == [] ==> script == [] && t == OVER
      ensures stopping == (old(stopping) || t.stop) && calm == (old(calm) && Calm(t)) && last == t
      ensures latest == if t.now > old(latest) then t.now else old(latest)
    {
      if script == [] {
        t := OVER;
      } else {
        t := script[0];
        script := script[1..];
      }
      stopping := stopping || t.stop;
      calm := calm && Calm(t);
      if t.now > latest { latest := t.now; }
      last := t;
    }

    /** The error of a context derived from the process context: cancelled only when the process is stopping. */
    method ContextError() returns (e: Option<Tag>)
      modifies this`script, this`stopping, this`calm, this`latest, this`last
      ensures WentOn()
      ensures Undisturbed() ==> e == None && stopping == old(stopping)
      ensures e == if last.ctx == Some(DeadlineExceeded) || (last.ctx == Some(Canceled) && stopping) then last.ctx else None
    {
      var t := Ask();
      if t.ctx == Some(DeadlineExceeded) || (t.ctx == Some(Canceled) && stopping) {
        e := t.ctx;
      } else {
        e := None;
      }
    }

    /** The pause before another attempt: over in time, or the reason why not. */
    method Pause(waitOver: bool) returns (e: Option<Tag>)
      modifies this`script, this`stopping, this`calm, this`latest, this`last
      ensures WentOn() && (e.None? ==> script != [] && waitOver)
      ensures Undisturbed() && waitOver ==> e == None && stopping == old(stopping)
      ensures e == None || e == Some(DeadlineExceeded) || (e == Some(Canceled) && stopping)
    {
      e := ContextError();
      if e.None? && (!waitOver || script == []) {
        stopping := true;
        e := Some(Canceled);
      }
    }

    /** Blocks until the process context ends. */
    method AwaitStop()
      modifies this`stopping
      ensures stopping
    {
      stopping := true;
    }

    method Record(e: Effect)
      modifies this`log
      ensures log == old(log) + [e]
    {
      log := log + [e];
    }
  }

  // ---- What stretches of the log may hold ----

  /** Delivery of one SIGN result. */
  predicate Deliveries(intent: Intent, result: SignResult, log: seq<Effect>) {
    forall i | 0 <= i < |log| :: (log[i].Posted? && log[i].intentId == intent.intentId && log[i].result == result) || log[i].Observed?
  }

  predicate Resolves(intent: Intent, e: Effect) {
    || (e.Posted? && e.intentId == intent.intentId && PostAccepted(e.posted))
    || (e.Observed? && ShowsTerminal(intent, e.observed))
    || (e.Published? && e.ok)
  }

  /** Posts until the result is settled; gives up only when the process is stopping. */
  method PostUntilSettled(w: World, intent: Intent, result: SignResult) returns (ghost sent: seq<Effect>)
    modifies w
    ensures w.log == old(w.log) + sent && Deliveries(intent, result, sent)
    ensures w.stopping || (sent != [] && Resolves(intent, sent[|sent| - 1]))
    ensures forall i | 0 <= i < |sent| - 1 :: !Resolves(intent, sent[i])
    ensures w.WentOn() && (w.Undisturbed() ==> w.stopping == old(w.stopping))
  {
    hide ShowsTerminal, PostAccepted, Calm;
    sent := [];
    while true
      invariant w.log == old(w.log) + sent && Deliveries(intent, result, sent)
      invariant forall i | 0 <= i < |sent| :: !Resolves(intent, sent[i])
      invariant w.WentOn() && (w.Undisturbed() ==> w.stopping == old(w.stopping))
      decreases |w.script|
    {
      var t := w.Ask();
      CalmGoesOn(t);
      w.Record(Posted(intent.intentId, result, t.post));
      sent := sent + [Posted(intent.intentId, result, t.post)];
      if PostAccepted(t.post) {
        return;
      }
      w.Record(Observed(t.poll));
      sent := sent + [Observed(t.poll)];
      if ShowsTerminal(intent, t.poll) {
        return;
      }
      if !t.waitOver || w.script == [] {
        w.AwaitStop();
        return;
      }
    }
  }

  lemma CalmGoesOn(t: Tick)
    ensures Calm(t) ==> t.waitOver && t.marshals && !t.stop
  {
  }

  /** `deliverSignResult`: a result that cannot be encoded waits for the process to stop. */
  method DeliverSignResult(w: World, intent: Intent, result: SignResult) returns (ghost sent: seq<Effect>)
    modifies w
    ensures w.log == old(w.log) + sent && Deliveries(intent, result, sent)
    ensures w.stopping || (sent != [] && Resolves(intent, sent[|sent| - 1]))
    ensures forall i | 0 <= i < |sent| - 1 :: !Resolves(intent, sent[i])
    ensures old(w.script) != [] && !old(w.script)[0].marshals ==> sent == []
    ensures w.WentOn() && (w.Undisturbed() ==> w.stopping == old(w.stopping))
  {
    hide Resolves, Calm;
    sent := [];
    var first := w.Ask();
    CalmGoesOn(first);
    if !first.marshals {
      w.AwaitStop();
      return;
    }
    sent := PostUntilSettled(w, intent, result);
  }

  /** `publishClaimedDKGFailure` and `publishDKGResult`: without a published job the lease waits for the process to stop. */
  method PublishDkg(w: World, intent: Intent, failed: bool, hasPublisher: bool) returns (ghost sent: seq<Effect>)
    modifies w
    ensures w.log == old(w.log) + sent
    ensures |sent| <= 1 && forall i | 0 <= i < |sent| :: sent[i].Published? && sent[i].publishedId == intent.intentId && sent[i].failed == failed
    ensures w.stopping || (sent != [] && Resolves(intent, sent[|sent| - 1]))
    ensures w.WentOn() && (w.Undisturbed() && hasPublisher ==> w.stopping == old(w.stopping))
    ensures sent == [] <==> !hasPublisher || (old(w.script) != [] && !old(w.script)[0].marshals)
  {
    sent := [];
    var t := w.Ask();
    if !hasPublisher || !t.marshals {
      w.AwaitStop();
      return;
    }
    w.Record(Published(intent.intentId, failed, t.published));
    sent := [Published(intent.intentId, failed, t.published)];
    if !t.published {
      w.AwaitStop();
    }
  }

  /** All attempts before the last were ambiguous. */
  predicate Attempts(lib: Lib, intent: Intent, log: seq<Effect>) {
    forall i | 0 <= i < |log| :: log[i].Claimed? && Ambiguous(lib, intent, log[i].answer)
  }

  lemma NoAttempts(lib: Lib, intent: Intent)
    ensures Attempts(lib, intent, [])
  {
  }

  lemma AttemptsGrow(lib: Lib, intent: Intent, log: seq<Effect>, a: ClaimAnswer)
    requires Attempts(lib, intent, log) && Ambiguous(lib, intent, a)
    ensures Attempts(lib, intent, log + [Claimed(a)])
  {
    hide Ambiguous;
  }

  /** How a claim loop can end, with the attempts before. */
  predicate ClaimOutcome(lib: Lib, intent: Intent, attempts: seq<Effect>, ending: Option<Effect>, claim: Claim, error: Option<Error>, stopping: bool) {
    match ending
    case None => error == Some({Canceled}) && stopping
    case Some(ClaimExpired) => error == Some({DeadlineExceeded})
    case Some(Claimed(a)) =>
      && !Ambiguous(lib, intent, a) && claim == a.claim
      && error == (if a.error.Some? && attempts != [] && Refusal(lib, intent, a) then Some({ClaimCleanup} + a.error.value) else a.error)
      && (error.Some? && ClaimRejected in error.value ==> RejectionVerified(lib, intent, a))
    case Some(_) => false
  }

  function Maybe(e: Option<Effect>): seq<Effect> {
    if e.Some? then [e.value] else []
  }

  /** What one answer to a claim means: whether it ends the loop, and with which error. */
  method JudgeClaim(lib: Lib, intent: Intent, a: ClaimAnswer, uncertain: bool) returns (final: bool, error: Option<Error>)
    ensures final <==> !Ambiguous(lib, intent, a)
    ensures final ==> error == if a.error.Some? && uncertain && Refusal(lib, intent, a) then Some({ClaimCleanup} + a.error.value) else a.error
    ensures final && error.Some? && ClaimRejected in error.value ==> RejectionVerified(lib, intent, a)
  {
    hide IdentityMatches;
    final, error := true, a.error;
    if error.Some? && ClaimRejected in error.value {
      if RejectionVerified(lib, intent, a) {
        return;
      }
      error := Some({OutcomeUnknown});
    }
    if error.None? || AlreadyClaimed in error.value || NotFound in error.value {
      if uncertain && error.Some? && AlreadyClaimed in error.value {
        error := Some({ClaimCleanup} + error.value);
      }
      return;
    }
    if OutcomeUnknown !in error.value && DeadlineExceeded !in error.value {
      if uncertain {
        error := Some({ClaimCleanup} + error.value);
      }
      return;
    }
    final := false;
  }

  /** `claimWithRecovery`. */
  method ClaimWithRecovery(lib: Lib, w: World, intent: Intent)
    returns (claim: Claim, error: Option<Error>, ghost attempts: seq<Effect>, ghost ending: Option<Effect>)
    modifies w
    ensures w.log == old(w.log) + attempts + Maybe(ending)
    ensures Attempts(lib, intent, attempts) && ClaimOutcome(lib, intent, attempts, ending, claim, error, w.stopping)
    ensures w.WentOn()
    ensures w.Undisturbed() ==> w.stopping == old(w.stopping) && ending.Some? && ending.value.Claimed?
  {
    hide Ambiguous, Refusal, RejectionVerified, Calm, Attempts;
    attempts, ending := [], None;
    NoAttempts(lib, intent);
    claim := OVER.claim.claim;
    var uncertain := false;
    while true
      invariant w.log == old(w.log) + attempts && Attempts(lib, intent, attempts)
      invariant uncertain <==> attempts != []
      invariant w.WentOn()
      invariant w.Undisturbed() ==> w.stopping == old(w.stopping)
      decreases |w.script|
    {
      var ctx := w.ContextError();
      if ctx.Some? {
        error := Some({ctx.value});
        if ctx.value == DeadlineExceeded {
          w.Record(ClaimExpired);
          ending := Some(ClaimExpired);
        }
        return;
      }
      var t := w.Ask();
      CalmGoesOn(t);
      w.Record(Claimed(t.claim));
      claim := t.claim.claim;
      var final;
      final, error := JudgeClaim(lib, intent, t.claim, uncertain);
      if final {
        ending := Some(Claimed(t.claim));
        return;
      }
      uncertain := true;
      AttemptsGrow(lib, intent, attempts, t.claim);
      attempts := attempts + [Claimed(t.claim)];
      ctx := w.Pause(t.waitOver);
      if ctx.Some? {
        error := Some({ctx.value});
        if ctx.value == DeadlineExceeded {
          w.Record(ClaimExpired);
          ending := Some(ClaimExpired);
        }
        return;
      }
    }
  }

  predicate Polls(log: seq<Effect>) {
    forall i | 0 <= i < |log| :: log[i].Polled?
  }

  /** An observation that settles nothing yet: the backend could not be asked, or the session is still pending. */
  predicate Waiting(intent: Intent, kind: Kind, e: Effect) {
    && e.Polled?
    && if e.poll.error.Some? then InvalidLifecycle !in e.poll.error.value
       else ValidSession(e.poll.session, kind, intent.sessionId, intent.expiresAt) && e.poll.session.status == Pending
  }

  /** An observation that lets the execution start. */
  predicate Ready(intent: Intent, kind: Kind, e: Effect) {
    && e.Polled? && e.poll.error.None?
    && if kind == Sign then ReadyToSign(intent, e.poll.session, e.wall)
       else
         var s := e.poll.session;
         && ValidSession(s, kind, intent.sessionId, intent.expiresAt) && s.status == Running
         && (intent.session.startedAt.Some? ==>
               s.startedAt == intent.session.startedAt && s.executionExpiresAt == intent.session.executionExpiresAt)
  }

  /** Everything but the last only asked for patience, and the last did not. */
  predicate Settled(polls: seq<Effect>, intent: Intent, kind: Kind) {
    && polls != [] && !Waiting(intent, kind, polls[|polls| - 1])
    && forall i | 0 <= i < |polls| - 1 :: Waiting(intent, kind, polls[i])
  }

  /** `waitForSessionReadiness`: on success the last observation let the execution start. */
  method WaitForReadiness(w: World, intent: Intent, kind: Kind)
    returns (ready: Option<Session>, error: Option<Error>, ghost polls: seq<Effect>)
    requires kind != AnyKind
    modifies w
    ensures w.log == old(w.log) + polls && Polls(polls)
    ensures ready.Some? <==> error.None?
    ensures ready.Some? && kind == Sign ==>
      && polls != [] && polls[|polls| - 1].poll == PollAnswer(ready.value, None)
      && ReadyToSign(intent, ready.value, polls[|polls| - 1].wall)
    ensures w.WentOn()
    ensures w.Undisturbed() ==>
      && w.stopping == old(w.stopping) && Settled(polls, intent, kind)
      && (ready.Some? <==> Ready(intent, kind, polls[|polls| - 1])) && (ready.Some? ==> ready.value == polls[|polls| - 1].poll.session)
  {
    hide ValidSession;
    ready, error, polls := None, None, [];
    while true
      invariant w.log == old(w.log) + polls && Polls(polls)
      invariant w.WentOn()
      invariant ready.None? && forall i | 0 <= i < |polls| :: Waiting(intent, kind, polls[i])
      invariant w.Undisturbed() ==> w.stopping == old(w.stopping)
      decreases |w.script|
    {
      var ctx := w.ContextError();
      if ctx.Some? {
        error := Some({ctx.value});
        return;
      }
      var t := w.Ask();
      w.Record(Polled(t.poll, t.now));
      polls := polls + [Polled(t.poll, t.now)];
      var s := t.poll.session;
      if t.poll.error.Some? {
        if InvalidLifecycle in t.poll.error.value {
          error := t.poll.error;
          return;
        }
      } else {
        if !ValidSession(s, kind, intent.sessionId, intent.expiresAt) {
          error := Some({InvalidLifecycle});
          return;
        }
        if s.status == Running {
          if intent.session.startedAt.Some?
            && (s.startedAt != intent.session.startedAt || s.executionExpiresAt != intent.session.executionExpiresAt) {
            error := Some({InvalidLifecycle});
            return;
          }
          if kind == Dkg {
            ready := Some(s);
            return;
          }
          assert s.executionExpiresAt.Some? by { RunningSignExpires(s, intent.sessionId, intent.expiresAt); }
          if SignBudget(s.executionExpiresAt.value, t.now) <= 0 || s.deadline <= t.now {
            error := Some({AlreadyExpired});
            return;
          }
          ctx := w.ContextError();
          if ctx.Some? {
            error := Some({ctx.value});
            return;
          }
          ready := Some(s);
          return;
        } else if s.status != Pending {
          error := Some({InvalidLifecycle});
          return;
        }
      }
      ctx := w.ContextError();
      if ctx.Some? || w.script == [] {
        error := Some({if ctx == Some(DeadlineExceeded) then DeadlineExceeded else Canceled});
        return;
      }
    }
  }

  lemma RunningSignExpires(s: Session, sessionId: string, deadline: Time)
    requires ValidSession(s, Sign, sessionId, deadline) && s.status == Running
    ensures s.executionExpiresAt.Some?
  {
  }

  predicate GateAnswers(log: seq<Effect>) {
    forall i | 0 <= i < |log| :: log[i].GateAnswered?
  }

  /** The gate wants to be asked again. */
  predicate PendingAnswer(e: Effect) {
    e.GateAnswered? && e.gate.Some? && ApprovalPending in e.gate.value
  }

  /** `authorizeSign`: asks the gate again only while the evidence is pending. */
  method AuthorizeSign(w: World, hasGate: bool) returns (error: Option<Error>, ghost answers: seq<Effect>)
    modifies w
    ensures w.log == old(w.log) + answers && GateAnswers(answers)
    ensures error.None? ==> answers != [] && answers[|answers| - 1] == GateAnswered(None)
    ensures forall i | 0 <= i < |answers| && answers[i] == GateAnswered(None) :: i == |answers| - 1 && error.None?
    ensures w.WentOn() && (!hasGate ==> answers == [] && error == Some({Prepared}))
    ensures forall i | 0 <= i < |answers| - 1 :: PendingAnswer(answers[i])
    ensures w.Undisturbed() ==> w.stopping == old(w.stopping)
    ensures w.Undisturbed() && hasGate ==>
      answers != [] && !PendingAnswer(answers[|answers| - 1]) && answers[|answers| - 1] == GateAnswered(error)
  {
    answers := [];
    if !hasGate {
      error := Some({Prepared});
      return;
    }
    while true
      invariant w.log == old(w.log) + answers && GateAnswers(answers)
      invariant forall i | 0 <= i < |answers| :: PendingAnswer(answers[i])
      invariant w.WentOn()
      invariant w.Undisturbed() ==> w.stopping == old(w.stopping)
      decreases |w.script|
    {
      var t := w.Ask();
      w.Record(GateAnswered(t.gate));
      answers := answers + [GateAnswered(t.gate)];
      error := t.gate;
      if error.None? || ApprovalPending !in error.value {
        return;
      }
      var ctx := w.ContextError();
      if ctx.Some? || w.script == [] {
        error := Some({if ctx == Some(DeadlineExceeded) then DeadlineExceeded else Canceled});
        return;
      }
    }
  }

  /** What an execution over the transport leaves: Core, unless the context ended or the transport stopped before. */
  predicate CoreStretch(log: seq<Effect>, error: Option<Error>) {
    || (log == [ContextEnded] && error.Some?)
    || (log == [TransportStopped] && error.Some?)
    || (|log| == 2 && log[0] == CoreStarted && log[1].CoreReturned? && (error.None? ==> log[1].core.None?))
    || (|log| == 3 && log[0] == CoreStarted && log[1] == TransportStopped && log[2].CoreReturned?
        && (error.None? ==> log[2].core.None?))
  }

  /** The reservation, with a stop of the transport possible before it: a prior stop refuses it. */
  method TryDispatch(w: World, tr: Transport.HttpTransport) returns (refused: Option<Transport.Error>, ghost effects: seq<Effect>)
    requires tr.Valid() && tr.ops == [Transport.Start]
    modifies w, tr
    ensures tr.Valid() && w.log == old(w.log) + effects
    ensures refused.Some? ==> effects == [TransportStopped] || effects == [ContextEnded]
    ensures w.WentOn()
    ensures w.Undisturbed() ==> w.stopping == old(w.stopping) && (refused.Some? ==> effects == [TransportStopped])
    ensures refused.None? ==> effects == [] && |tr.ops| == 2 && Transport.RunsCore(tr.ops, 1)
  {
    hide Transport.Run, Transport.At;
    effects := [];
    var t := w.Ask();
    if t.transportStops.Some? {
      tr.StopNow(t.transportStops.value);
      w.Record(TransportStopped);
      effects := [TransportStopped];
    }
    refused := tr.Dispatch(if t.ctx.Some? then Some(Transport.ContextError("")) else None);
    if t.transportStops.Some? {
      Transport.PriorStopForbids(tr.ops, 1, 2);
    } else if t.ctx.Some? {
      w.Record(ContextEnded);
      effects := [ContextEnded];
    } else {
      Transport.RunsCoreExactly(tr.ops, 1);
      assert !Transport.RunsCore(tr.ops, 0);
    }
  }

  /** Core runs, and the transport may stop meanwhile. */
  method RunCore(w: World, tr: Transport.HttpTransport) returns (finished: Option<Error>, ghost effects: seq<Effect>)
    requires tr.Valid() && |tr.ops| == 2 && Transport.RunsCore(tr.ops, 1)
    modifies w, tr
    ensures tr.Valid() && w.log == old(w.log) + effects
    ensures effects == [CoreStarted, CoreReturned(finished)] || effects == [CoreStarted, TransportStopped, CoreReturned(finished)]
    ensures w.WentOn() && (w.Undisturbed() ==> w.stopping == old(w.stopping))
    ensures TransportStopped !in effects ==> !tr.done
    ensures |tr.ops| >= 2 && Transport.RunsCore(tr.ops, 1)
    ensures TransportStopped in effects ==> tr.dispatchCanceled
  {
    hide Transport.Run;
    tr.DoneExactly();
    Transport.RunsCoreExactly(tr.ops, 1);
    w.Record(CoreStarted);
    effects := [CoreStarted];
    var t := w.Ask();
    if t.transportStops.Some? {
      ghost var before := tr.ops;
      tr.StopNow(t.transportStops.value);
      assert tr.ops[..1] == before[..1];
      Transport.LaterStopCancels(tr.ops, 1, 3);
      assert tr.ops[2].Stop? && tr.ops[..3] == tr.ops;
      w.Record(TransportStopped);
      effects := effects + [TransportStopped];
    }
    w.Record(CoreReturned(t.core));
    effects := effects + [CoreReturned(t.core)];
    finished := t.core;
  }

  /** `runSignProtocol`: Core runs only on a reservation the transport granted, and is cancelled by a later stop. */
  method RunSignProtocol(w: World, tr: Transport.HttpTransport) returns (error: Option<Error>, ghost effects: seq<Effect>)
    requires tr.Valid() && tr.ops == [Transport.Start]
    modifies w, tr
    ensures tr.Valid() && w.log == old(w.log) + effects && CoreStretch(effects, error)
    ensures w.WentOn()
    ensures w.Undisturbed() ==>
      w.stopping == old(w.stopping) && (TransportStopped in effects || (effects == [CoreStarted, CoreReturned(error)] && !tr.done))
    ensures CoreStarted in effects ==> |tr.ops| >= 2 && Transport.RunsCore(tr.ops, 1)
    ensures CoreStarted in effects && TransportStopped in effects ==> tr.dispatchCanceled
  {
    hide Transport.Run, Transport.RunsCore;
    effects := [];
    var ctx := w.ContextError();
    if ctx.Some? {
      w.Record(ContextEnded);
      effects := [ContextEnded];
      error := Some({ctx.value});
      return;
    }
    var refused;
    refused, effects := TryDispatch(w, tr);
    var finished: Option<Error>;
    if refused.Some? {
      finished := Some(TransportError(refused.value));
    } else {
      finished, effects := RunCore(w, tr);
    }
    var choice := w.Ask();
    error := finished;
    if choice.branch == SawTransportDone && tr.done && tr.err.Some? {
      error := Some(TransportError(tr.err.value));
    } else if choice.branch == SawSessionDone && finished.None? {
      error := Some({if choice.ctx == Some(DeadlineExceeded) then DeadlineExceeded else Canceled});
    }
  }
}
