/** The dispatch and stop protocol of the HTTP transport: every mutex section is one step. */
module TransportDispatch {
  import opened Common

  datatype Error = TransportClosed | AlreadyDispatched | ContextError(text: string) | LifecycleError(text: string)

  datatype State = State(
    done: bool, err: Option<Error>, polling: bool, pollCanceled: bool, dispatched: bool, dispatchCanceled: bool)

  const NEW := State(false, None, false, false, false, false)

  datatype Op = Start | Stop(err: Option<Error>) | Reserve(ctxErr: Option<Error>)

  function Begin(s: State): State {
    if s.done || s.polling then s else s.(polling := true)
  }

  function StopWith(s: State, err: Option<Error>): State {
    if s.done then s
    else s.(done := true, err := err, pollCanceled := s.pollCanceled || s.polling,
            dispatchCanceled := s.dispatchCanceled || s.dispatched)
  }

  function TryReserve(s: State, ctxErr: Option<Error>): (State, Option<Error>) {
    if s.done then (s, Some(if s.err.Some? then s.err.value else TransportClosed))
    else if ctxErr.Some? then (s, ctxErr)
    else if s.dispatched then (s, Some(AlreadyDispatched))
    else (s.(dispatched := true), None)
  }

  function Step(s: State, op: Op): State {
    match op
    case Start => Begin(s)
    case Stop(err) => StopWith(s, err)
    case Reserve(ctxErr) => TryReserve(s, ctxErr).0
  }

  function Run(s: State, ops: seq<Op>): State {
    if ops == [] then s else Step(Run(s, ops[..|ops| - 1]), ops[|ops| - 1])
  }

  function At(ops: seq<Op>, i: nat): State
    requires i <= |ops|
  {
    Run(NEW, ops[..i])
  }

  /** The answer of the reservation made by step `i`; `None` lets Core run. */
  function Answer(ops: seq<Op>, i: nat): Option<Error>
    requires i < |ops| && ops[i].Reserve?
  {
    TryReserve(At(ops, i), ops[i].ctxErr).1
  }

  predicate RunsCore(ops: seq<Op>, i: nat)
    requires i < |ops|
  {
    ops[i].Reserve? && Answer(ops, i).None?
  }

  lemma OneMore(ops: seq<Op>, i: nat)
    requires i < |ops|
    ensures At(ops, i + 1) == Step(At(ops, i), ops[i])
  {
    assert ops[..i + 1][..i] == ops[..i];
  }

  lemma Extended(ops: seq<Op>, op: Op)
    ensures Run(NEW, ops + [op]) == Step(Run(NEW, ops), op)
    ensures At(ops + [op], |ops|) == Run(NEW, ops)
  {
    assert (ops + [op])[..|ops|] == ops;
  }

  /** What can never be undone. */
  predicate Grows(s: State, s': State) {
    && (s.done ==> s'.done && s'.err == s.err)
    && (s.dispatched ==> s'.dispatched)
    && (s.dispatchCanceled ==> s'.dispatchCanceled)
    && (s.pollCanceled ==> s'.pollCanceled)
  }

  lemma {:induction false} GrowsAlong(ops: seq<Op>, i: nat, j: nat)
    requires i <= j <= |ops|
    ensures Grows(At(ops, i), At(ops, j))
    decreases j - i
  {
    if i < j {
      OneMore(ops, i);
      GrowsAlong(ops, i + 1, j);
    }
  }

  /** Core is let run at most once, whatever the interleaving. */
  lemma AtMostOneRun(ops: seq<Op>, i: nat, j: nat)
    requires i < |ops| && j < |ops| && RunsCore(ops, i) && RunsCore(ops, j)
    ensures i == j
  {
    var first, second := if i < j then i else j, if i < j then j else i;
    if first < second {
      OneMore(ops, first);
      GrowsAlong(ops, first + 1, second);
    }
  }

  /** A stop before the reservation forbids the run; the first stop's error is what every later reservation reports. */
  lemma PriorStopForbids(ops: seq<Op>, i: nat, j: nat)
    requires i < j < |ops| && ops[i].Stop? && ops[j].Reserve?
    requires forall k | 0 <= k < i :: !ops[k].Stop?
    ensures Answer(ops, j) == Some(if ops[i].err.Some? then ops[i].err.value else TransportClosed)
  {
    NotDoneWithoutStop(ops, i);
    OneMore(ops, i);
    GrowsAlong(ops, i + 1, j);
  }

  /** What the two flags record. */
  lemma {:induction false} FlagsExactly(ops: seq<Op>, n: nat)
    requires n <= |ops|
    ensures At(ops, n).done <==> exists k :: 0 <= k < n && ops[k].Stop?
    ensures At(ops, n).dispatched <==> exists k :: 0 <= k < n && RunsCore(ops, k)
  {
    hide At, Run;
    if n > 0 {
      FlagsExactly(ops, n - 1);
      OneMore(ops, n - 1);
      assert At(ops, n).dispatched <==> At(ops, n - 1).dispatched || RunsCore(ops, n - 1);
      assert At(ops, n).done <==> At(ops, n - 1).done || ops[n - 1].Stop?;
    } else {
      NothingYet(ops);
    }
  }

  lemma NothingYet(ops: seq<Op>)
    ensures At(ops, 0) == NEW
  {
    assert ops[..0] == [];
  }

  /** Polling has begun exactly when some start came before every stop, and is cancelled exactly when the transport stopped after that. */
  lemma {:induction false} PollingExactly(ops: seq<Op>, n: nat)
    requires n <= |ops|
    ensures At(ops, n).polling <==> exists k :: 0 <= k < n && ops[k].Start? && forall j | 0 <= j < k :: !ops[j].Stop?
    ensures At(ops, n).pollCanceled <==> At(ops, n).polling && At(ops, n).done
  {
    hide At, Run;
    if n > 0 {
      PollingExactly(ops, n - 1);
      OneMore(ops, n - 1);
      FlagsExactly(ops, n - 1);
      var begins := ops[n - 1].Start? && forall j | 0 <= j < n - 1 :: !ops[j].Stop?;
      assert At(ops, n).polling <==> At(ops, n - 1).polling || begins;
    } else {
      NothingYet(ops);
    }
  }

  /** A step lets Core run exactly when it is a reservation under a live context, before any stop and the first to be granted. */
  lemma RunsCoreExactly(ops: seq<Op>, i: nat)
    requires i < |ops|
    ensures RunsCore(ops, i) <==>
              && ops[i] == Reserve(None)
              && (forall k | 0 <= k < i :: !ops[k].Stop?)
              && (forall k | 0 <= k < i :: !RunsCore(ops, k))
  {
    hide At, Run;
    FlagsExactly(ops, i);
  }

  lemma {:induction false} NotDoneWithoutStop(ops: seq<Op>, n: nat)
    requires n <= |ops| && forall k | 0 <= k < n :: !ops[k].Stop?
    ensures !At(ops, n).done && !At(ops, n).dispatchCanceled
  {
    if n > 0 {
      NotDoneWithoutStop(ops, n - 1);
      OneMore(ops, n - 1);
    }
  }

  /**
    Once Core runs: it is cancelled exactly when a stop has happened, and no
    stop had happened when it was let run.
  */
  lemma LaterStopCancels(ops: seq<Op>, i: nat, n: nat)
    requires i < n <= |ops| && RunsCore(ops, i)
    ensures forall k | 0 <= k < i :: !ops[k].Stop?
    ensures At(ops, n).dispatchCanceled <==> exists k :: i < k < n && ops[k].Stop?
  {
    forall k | 0 <= k < i
      ensures !ops[k].Stop?
    {
      OneMore(ops, k);
      GrowsAlong(ops, k + 1, i);
    }
    CanceledBy(ops, i, n);
  }

  lemma {:induction false} CanceledBy(ops: seq<Op>, i: nat, n: nat)
    requires i < n <= |ops| && RunsCore(ops, i)
    requires forall k | 0 <= k < i :: !ops[k].Stop?
    ensures At(ops, n).dispatched && (At(ops, n).done <==> At(ops, n).dispatchCanceled)
    ensures At(ops, n).dispatchCanceled <==> exists k :: i < k < n && ops[k].Stop?
    decreases n - i
  {
    OneMore(ops, n - 1);
    if n == i + 1 {
      NotDoneWithoutStop(ops, i);
    } else {
      CanceledBy(ops, i, n - 1);
      var before, after := At(ops, n - 1), At(ops, n);
      if exists k :: i < k < n - 1 && ops[k].Stop? {
        GrowsAlong(ops, n - 1, n);
      } else {
        assert after.dispatchCanceled <==> ops[n - 1].Stop?;
      }
    }
  }

  /** The transport object. `ops` records its mutex sections. */
  class HttpTransport {
    var done: bool
    var err: Option<Error>
    var polling: bool
    var pollCanceled: bool
    var dispatched: bool
    var dispatchCanceled: bool
    ghost var ops: seq<Op>

    ghost predicate Valid()
      reads this
    {
      State(done, err, polling, pollCanceled, dispatched, dispatchCanceled) == Run(NEW, ops)
    }

    constructor ()
      ensures Valid() && ops == []
    {
      done, err, polling, pollCanceled, dispatched, dispatchCanceled := false, None, false, false, false, false;
      ops := [];
    }

    /** The transport is done exactly when it was stopped. */
    lemma DoneExactly()
      requires Valid()
      ensures done <==> exists k :: 0 <= k < |ops| && ops[k].Stop?
    {
      hide Run;
      FlagsExactly(ops, |ops|);
      assert ops[..|ops|] == ops;
    }

    method Begin()
      requires Valid()
      modifies this
      ensures Valid() && ops == old(ops) + [Start]
    {
      hide Run;
      Extended(ops, Start);
      if !done && !polling {
        polling := true;
      }
      ops := ops + [Start];
    }

    method StopNow(error: Option<Error>)
      requires Valid()
      modifies this
      ensures Valid() && ops == old(ops) + [Stop(error)]
      ensures done && err == if old(done) then old(err) else error
    {
      hide Run;
      Extended(ops, Stop(error));
      if !done {
        err := error;
        done := true;
        pollCanceled := pollCanceled || polling;
        dispatchCanceled := dispatchCanceled || dispatched;
      }
      ops := ops + [Stop(error)];
    }

    /** The part of `Dispatch` that holds the mutex; the caller runs Core when there is no error. */
    method Dispatch(ctxErr: Option<Error>) returns (error: Option<Error>)
      requires Valid()
      modifies this
      ensures Valid() && ops == old(ops) + [Reserve(ctxErr)]
      ensures error == Answer(ops, |ops| - 1)
    {
      hide Run, At;
      Extended(ops, Reserve(ctxErr));
      if done {
        error := Some(if err.Some? then err.value else TransportClosed);
      } else if ctxErr.Some? {
        error := ctxErr;
      } else if dispatched {
        error := Some(AlreadyDispatched);
      } else {
        dispatched := true;
        error := None;
      }
      ops := ops + [Reserve(ctxErr)];
    }
  }
}
