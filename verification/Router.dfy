/**
  The three-party local router as a state machine: each mutex section, each
  `Once` and each channel operation is one atomic step, and any thread may
  move next.
*/
module Router {
  import opened Common
  import opened FrameText
  import opened FrameValidator

  const QUEUE_CAPACITY := 256

  datatype Party = Platform | Primary | Recovery

  /** Where a copy can be placed: a local party's queue, or the network towards the platform. */
  datatype Dest = PrimaryQueue | RecoveryQueue | Network

  function NameOf(c: Config, p: Party): string {
    match p
    case Platform => c.platform
    case Primary => c.primary
    case Recovery => c.recovery
  }

  function PartyAt(d: Dest): Party {
    match d
    case PrimaryQueue => Primary
    case RecoveryQueue => Recovery
    case Network => Platform
  }

  /** The places `routeOutbound` and `receiveNetwork` deliver an accepted frame to, in order. */
  function Route(c: Config, f: Frame): seq<Dest> {
    if f.fromParty == c.platform then
      if f.broadcast then [PrimaryQueue, RecoveryQueue]
      else if f.toParty == c.primary then [PrimaryQueue]
      else if f.toParty == c.recovery then [RecoveryQueue]
      else []
    else if f.broadcast then [if f.fromParty == c.primary then RecoveryQueue else PrimaryQueue, Network]
    else if f.toParty == c.platform then [Network]
    else if f.toParty == c.primary then [PrimaryQueue]
    else [RecoveryQueue]
  }

  /** The parties a frame is addressed to. */
  predicate Addressed(c: Config, f: Frame, p: Party) {
    if f.broadcast then NameOf(c, p) != f.fromParty else NameOf(c, p) == f.toParty
  }

  datatype Fault = Rejected(verdict: Verdict) | Closed | Overflow | Canceled | Failure(text: string)

  /** An accepted frame on its way to the rest of its places. */
  datatype Flight = Flight(id: nat, todo: seq<Dest>)

  datatype Receiver = NotStarted | Running | Leaving | Exited

  datatype Finishing = NotCalled | Marked | AwaitingReceiver | Read(error: Option<Fault>) | Returned(error: Option<Fault>)

  /**
    The receive calls: those past their entry check, with the position they took
    from the queue, if any, and the positions whose frames were returned to the
    party.
  */
  datatype Calls = Calls(receiving: map<Dest, Option<nat>>, handed: map<Dest, seq<nat>>)

  /**
    Frames are known by their index in `accepted`; `placed` records every
    placement ever made, in order, of which the first `taken` have left the
    queue.
  */
  datatype State = State(
    accepted: seq<Frame>, placed: map<Dest, seq<nat>>, taken: map<Dest, nat>,
    calls: Calls,
    sending: set<Party>, flights: map<Party, Flight>, routed: set<nat>,
    started: bool, receiver: Receiver, receiverFailed: bool,
    finishing: bool, finish: Finishing, closes: nat, done: bool, terminal: Option<Fault>)

  const INITIAL := State([], map[PrimaryQueue := [], RecoveryQueue := [], Network := []],
                         map[PrimaryQueue := 0, RecoveryQueue := 0, Network := 0],
                         Calls(map[], map[PrimaryQueue := [], RecoveryQueue := [], Network := []]),
                         {}, map[], {}, false, NotStarted, false, false, NotCalled, 0, false, None)

  datatype Delivery = Pushed | SawDone | ContextEnded(canceled: bool) | QueueFull | NetworkError(text: string)

  datatype Event =
    | BeginSend(party: Party)
    | RecordSend(party: Party, frame: Frame)
    | DeliverNext(party: Party, outcome: Delivery)
    | SendReturns(party: Party)
    | BeginReceive(dest: Dest)
    | TakeFrame(dest: Dest)
    | AbandonReceive(dest: Dest)
    | ReturnFrame(dest: Dest)
    | Start
    | NetworkFrame(frame: Frame)
    | NetworkFailure(canceled: bool, text: string)
    | ReceiverExits
    | FinishMarks
    | FinishUsesStart
    | FinishReads
    | FinishCloses

  /** `fail`, guarded by the close `Once`. */
  function Fail(s: State, e: Fault): State {
    if s.done then s.(receiverFailed := true)
    else s.(receiverFailed := true, terminal := Some(e), done := true, closes := s.closes + 1)
  }

  /** `closeNormally`, guarded by the same `Once`. */
  function CloseNormally(s: State): State {
    if s.done then s
    else s.(terminal := if s.terminal.None? then Some(Closed) else s.terminal, done := true, closes := s.closes + 1)
  }

  predicate HasRoom(s: State, d: Dest)
    requires d in s.placed && d in s.taken
  {
    d == Network || |s.placed[d]| - s.taken[d] < QUEUE_CAPACITY
  }

  /** A choice of the delivery `select` that is possible now; overflow is the default case. */
  predicate CanHappen(s: State, d: Dest, outcome: Delivery)
    requires d in s.placed && d in s.taken
  {
    match outcome
    case Pushed => HasRoom(s, d)
    case SawDone => s.done && d != Network
    case ContextEnded(_) => true
    case QueueFull => !HasRoom(s, d) && !s.done
    case NetworkError(_) => d == Network
  }

  function FaultOf(s: State, outcome: Delivery): Fault {
    match outcome
    case SawDone => (if s.terminal.Some? then s.terminal.value else Closed)
    case ContextEnded(canceled) => (if canceled then Canceled else Failure("deadline"))
    case NetworkError(text) => Failure(text)
    case _ => Overflow
  }

  function Deliver(s: State, p: Party, outcome: Delivery): State
    requires p in s.flights && s.flights[p].todo != []
    requires s.flights[p].todo[0] in s.placed
  {
    var flight := s.flights[p];
    var d := flight.todo[0];
    if outcome == Pushed then
      s.(placed := s.placed[d := s.placed[d] + [flight.id]], flights := s.flights[p := flight.(todo := flight.todo[1..])])
    else
      var dropped := s.(flights := s.flights - {p});
      if p != Platform then dropped
      else if outcome == ContextEnded(true) && s.finishing then dropped.(receiver := Leaving)
      else Fail(dropped.(receiver := Leaving), FaultOf(s, outcome))
  }

  ghost function Accept(c: Config, lib: Lib, s: State, p: Party, f: Frame): State {
    s.(accepted := s.accepted + [f], flights := s.flights[p := Flight(|s.accepted|, Route(c, f))])
  }

  predicate IsSend(e: Event) {
    e.BeginSend? || e.RecordSend? || e.DeliverNext? || e.SendReturns?
  }

  predicate IsReceive(e: Event) {
    e.BeginReceive? || e.TakeFrame? || e.AbandonReceive? || e.ReturnFrame?
  }

  /** The steps of sends, and of the network receiver's deliveries. */
  ghost function SendNext(c: Config, lib: Lib, s: State, e: Event): Option<State>
    requires IsSend(e)
  {
    match e
    case BeginSend(p) =>
      if p == Platform || p in s.sending then None
      else if s.done then Some(s) else Some(s.(sending := s.sending + {p}))
    case RecordSend(p, f) =>
      if p == Platform || p !in s.sending || p in s.flights then None
      else if s.finishing || Judge(c, lib, s.accepted, f, NameOf(c, p)) != Accepted then Some(s.(sending := s.sending - {p}))
      else Some(Accept(c, lib, s, p, f))
    case DeliverNext(p, outcome) =>
      if p !in s.flights || s.flights[p].todo == [] then None
      else
        var d := s.flights[p].todo[0];
        if d !in s.placed || d !in s.taken || !CanHappen(s, d, outcome) then None
        else
          var s' := Deliver(s, p, outcome);
          Some(if outcome == Pushed then s' else s'.(sending := s'.sending - {p}))
    case SendReturns(p) =>
      if p !in s.flights || s.flights[p].todo != [] then None
      else Some(s.(flights := s.flights - {p}, routed := s.routed + {s.flights[p].id}, sending := s.sending - {p}))
  }

  /** The recheck after a frame was taken: it is returned unless the router is done. */
  function Returning(calls: Calls, d: Dest, done: bool): Calls
    requires d in calls.receiving && calls.receiving[d].Some? && d in calls.handed
  {
    Calls(calls.receiving - {d}, if done then calls.handed else calls.handed[d := calls.handed[d] + [calls.receiving[d].value]])
  }

  /** The steps of `RecvFrame`: entry check, take or give up, recheck. */
  function ReceiveNext(s: State, e: Event): Option<State>
    requires IsReceive(e)
  {
    match e
    case BeginReceive(d) =>
      if d == Network || d in s.calls.receiving then None
      else if s.done then Some(s) else Some(s.(calls := s.calls.(receiving := s.calls.receiving[d := None])))
    case TakeFrame(d) =>
      if d !in s.calls.receiving || s.calls.receiving[d].Some? || d !in s.placed || d !in s.taken || s.taken[d] >= |s.placed[d]| then None
      else Some(s.(taken := s.taken[d := s.taken[d] + 1], calls := s.calls.(receiving := s.calls.receiving[d := Some(s.taken[d])])))
    case AbandonReceive(d) =>
      if d !in s.calls.receiving || s.calls.receiving[d].Some? then None
      else Some(s.(calls := s.calls.(receiving := s.calls.receiving - {d})))
    case ReturnFrame(d) =>
      if d !in s.calls.receiving || s.calls.receiving[d].None? || d !in s.calls.handed then None
      else Some(s.(calls := Returning(s.calls, d, s.done)))
  }

  predicate IsNetwork(e: Event) {
    e.NetworkFrame? || e.NetworkFailure? || e.ReceiverExits?
  }

  /** The steps of the network receiver. */
  ghost function NetworkNext(c: Config, lib: Lib, s: State, e: Event): Option<State>
    requires IsNetwork(e)
  {
    match e
    case NetworkFrame(f) =>
      if s.receiver != Running || Platform in s.flights then None
      else if s.finishing then Some(s.(receiver := Leaving))
      else
        var v := Judge(c, lib, s.accepted, f, c.platform);
        if v != Accepted then Some(Fail(s.(receiver := Leaving), Rejected(v)))
        else Some(Accept(c, lib, s, Platform, f))
    case NetworkFailure(canceled, text) =>
      if s.receiver != Running || Platform in s.flights then None
      else if canceled && s.finishing then Some(s.(receiver := Leaving))
      else Some(Fail(s.(receiver := Leaving), if canceled then Canceled else Failure(text)))
    case ReceiverExits =>
      if s.receiver != Leaving then None else Some(s.(receiver := Exited))
  }

  /** The steps of `Start` and `Finish`. */
  function ControlNext(s: State, e: Event): Option<State>
    requires !IsSend(e) && !IsReceive(e) && !IsNetwork(e)
  {
    match e
    case Start =>
      if s.started then Some(s)
      else Some(s.(started := true, receiver := if s.finishing || s.terminal.Some? then Exited else Running))
    case FinishMarks =>
      if s.finish != NotCalled then None else Some(s.(finishing := true, finish := Marked))
    case FinishUsesStart =>
      if s.finish != Marked then None
      else Some(s.(finish := AwaitingReceiver, started := true, receiver := if s.started then s.receiver else Exited))
    case FinishReads =>
      if s.finish != AwaitingReceiver || s.receiver != Exited then None else Some(s.(finish := Read(s.terminal)))
    case FinishCloses =>
      if !s.finish.Read? then None
      else
        var closed := if s.finish.error.None? then CloseNormally(s) else s;
        Some(closed.(finish := Returned(s.finish.error)))
  }

  /** The next state, or `None` where the event cannot happen. */
  ghost function Next(c: Config, lib: Lib, s: State, e: Event): Option<State> {
    if IsSend(e) then SendNext(c, lib, s, e)
    else if IsReceive(e) then ReceiveNext(s, e)
    else if IsNetwork(e) then NetworkNext(c, lib, s, e)
    else ControlNext(s, e)
  }

  ghost function Play(c: Config, lib: Lib, s: State, events: seq<Event>): Option<State>
    decreases events
  {
    if events == [] then Some(s)
    else
      var next := Next(c, lib, s, events[0]);
      if next.None? then None else Play(c, lib, next.value, events[1..])
  }

  // ---- Terminal protocol ----

  /** How the close, the receiver and `Finish` stand to each other in every reachable state. */
  ghost predicate TerminalOk(s: State) {
    && s.closes == (if s.done then 1 else 0)
    && (s.terminal.Some? <==> s.done)
    && (s.receiverFailed ==> s.done && s.receiver in {Leaving, Exited})
    && (s.receiver != NotStarted <==> s.started)
    && (s.finishing <==> s.finish != NotCalled)
    && (s.finish == AwaitingReceiver || s.finish.Read? || s.finish.Returned? ==> s.started && s.receiver != NotStarted)
    && (s.finish.Read? || s.finish.Returned? ==> s.receiver == Exited && (s.finish.error.Some? <==> s.receiverFailed))
    && (s.finish.Read? ==> s.terminal == s.finish.error)
    && (s.finish.Returned? ==> s.done && (s.finish.error.Some? ==> s.terminal == s.finish.error))
    && (s.done && !s.receiverFailed ==> s.finish.Returned?)
    && (s.receiver in {NotStarted, Leaving, Exited} ==> Platform !in s.flights)
  }

  /** Receives touch only the queues. */
  lemma ReceivesTouchQueuesOnly(s: State, e: Event)
    requires IsReceive(e) && ReceiveNext(s, e).Some?
    ensures var s' := ReceiveNext(s, e).value; s' == s.(taken := s'.taken, calls := s'.calls)
    ensures s.done ==> ReceiveNext(s, e).value.calls.handed == s.calls.handed
  {
  }

  /** Sends never touch the receives. */
  lemma SendsKeepReceives(c: Config, lib: Lib, s: State, e: Event)
    requires IsSend(e) && SendNext(c, lib, s, e).Some?
    ensures var s' := SendNext(c, lib, s, e).value; s'.taken == s.taken && s'.calls == s.calls
  {
    hide Judge, Route, CanHappen, FaultOf, Deliver;
    if e.DeliverNext? { DeliverKeepsReceives(s, e.party, e.outcome); }
  }

  lemma FailKeepsReceives(s: State, e: Fault)
    ensures Fail(s, e).taken == s.taken && Fail(s, e).calls == s.calls
  {
  }

  lemma DeliverKeepsReceives(s: State, p: Party, outcome: Delivery)
    requires p in s.flights && s.flights[p].todo != [] && s.flights[p].todo[0] in s.placed
    ensures Deliver(s, p, outcome).taken == s.taken && Deliver(s, p, outcome).calls == s.calls
  {
    hide FaultOf, Fail;
    FailKeepsReceives(s.(flights := s.flights - {p}, receiver := Leaving), FaultOf(s, outcome));
  }

  lemma NetworkKeepsReceives(c: Config, lib: Lib, s: State, e: Event)
    requires IsNetwork(e) && NetworkNext(c, lib, s, e).Some?
    ensures var s' := NetworkNext(c, lib, s, e).value; s'.taken == s.taken && s'.calls == s.calls
  {
    hide Judge, Route, Fail;
    var leaving := s.(receiver := Leaving);
    match e
    case NetworkFrame(f) =>
      FailKeepsReceives(leaving, Rejected(Judge(c, lib, s.accepted, f, c.platform)));
    case NetworkFailure(canceled, text) =>
      FailKeepsReceives(leaving, if canceled then Canceled else Failure(text));
    case ReceiverExits =>
  }

  lemma ControlKeepsReceives(s: State, e: Event)
    requires !IsSend(e) && !IsReceive(e) && !IsNetwork(e) && ControlNext(s, e).Some?
    ensures var s' := ControlNext(s, e).value; s'.taken == s.taken && s'.calls == s.calls
  {
  }

  /** No other step touches the receives. */
  lemma OthersKeepReceives(c: Config, lib: Lib, s: State, e: Event)
    requires !IsReceive(e) && Next(c, lib, s, e).Some?
    ensures var s' := Next(c, lib, s, e).value; s'.taken == s.taken && s'.calls == s.calls
  {
    hide SendNext, NetworkNext, ControlNext;
    if IsSend(e) {
      SendsKeepReceives(c, lib, s, e);
    } else if IsNetwork(e) {
      NetworkKeepsReceives(c, lib, s, e);
    } else {
      ControlKeepsReceives(s, e);
    }
  }

  /** A step that goes along with the terminal protocol and records nothing once `Finish` has begun. */
  ghost predicate Compatible(s: State, s': State) {
    && TerminalOk(s') && (s.terminal.Some? ==> s'.terminal == s.terminal) && (s.done ==> s'.done)
    && (s.finishing ==> s'.finishing && s'.accepted == s.accepted)
    && (s'.finish.Returned? && !s.finish.Returned? && s'.finish.error.None? ==> s'.terminal == Some(Closed))
    && (s.finish.Returned? ==> s'.finish == s.finish)
  }

  lemma SendsCompatible(c: Config, lib: Lib, s: State, e: Event)
    requires TerminalOk(s) && IsSend(e) && SendNext(c, lib, s, e).Some?
    ensures Compatible(s, SendNext(c, lib, s, e).value)
  {
    hide Judge, Route, CanHappen, FaultOf, Deliver;
    if e.DeliverNext? { DeliverCompatible(s, e.party, e.outcome); }
  }

  /** Only a failed delivery of the network receiver changes the terminal state. */
  lemma DeliverCompatible(s: State, p: Party, outcome: Delivery)
    requires TerminalOk(s) && p in s.flights && s.flights[p].todo != [] && s.flights[p].todo[0] in s.placed
    ensures Compatible(s, Deliver(s, p, outcome))
  {
    hide FaultOf;
  }

  lemma NetworkCompatible(c: Config, lib: Lib, s: State, e: Event)
    requires TerminalOk(s) && IsNetwork(e) && NetworkNext(c, lib, s, e).Some?
    ensures Compatible(s, NetworkNext(c, lib, s, e).value)
  {
    hide Judge, Route;
  }

  lemma ControlCompatible(s: State, e: Event)
    requires TerminalOk(s) && !IsSend(e) && !IsReceive(e) && !IsNetwork(e) && ControlNext(s, e).Some?
    ensures Compatible(s, ControlNext(s, e).value)
  {
  }

  lemma StepCompatible(c: Config, lib: Lib, s: State, e: Event)
    requires TerminalOk(s) && Next(c, lib, s, e).Some?
    ensures Compatible(s, Next(c, lib, s, e).value)
  {
    hide SendNext, ReceiveNext, NetworkNext, ControlNext;
    if IsSend(e) {
      SendsCompatible(c, lib, s, e);
    } else if IsReceive(e) {
      ReceivesTouchQueuesOnly(s, e);
    } else if IsNetwork(e) {
      NetworkCompatible(c, lib, s, e);
    } else {
      ControlCompatible(s, e);
    }
  }

  /** Once set, the terminal error never changes; the close count never passes one. */
  lemma TerminalErrorIsFinal(c: Config, lib: Lib, s: State, e: Event)
    requires TerminalOk(s) && Next(c, lib, s, e).Some?
    ensures var s' := Next(c, lib, s, e).value;
            && (s.terminal.Some? ==> s'.terminal == s.terminal)
            && (s.done ==> s'.done) && s'.closes <= 1
  {
    hide Next;
    StepCompatible(c, lib, s, e);
  }

  /** Once `Finish` has begun, no frame is recorded any more, from a party or from the network. */
  lemma NothingRecordedAfterFinish(c: Config, lib: Lib, s: State, e: Event)
    requires TerminalOk(s) && s.finishing && Next(c, lib, s, e).Some?
    ensures Next(c, lib, s, e).value.finishing && Next(c, lib, s, e).value.accepted == s.accepted
  {
    hide Next;
    StepCompatible(c, lib, s, e);
  }

  /** Once the router is done, no receive returns a frame any more, whichever step of it comes last. */
  lemma NothingHandedAfterDone(c: Config, lib: Lib, s: State, e: Event)
    requires s.done && Next(c, lib, s, e).Some?
    ensures Next(c, lib, s, e).value.calls.handed == s.calls.handed
  {
    hide SendNext, ReceiveNext, NetworkNext, ControlNext;
    if IsReceive(e) {
      ReceivesTouchQueuesOnly(s, e);
    } else {
      OthersKeepReceives(c, lib, s, e);
    }
  }

  lemma {:induction false} NothingHandedThroughout(c: Config, lib: Lib, s: State, events: seq<Event>)
    requires TerminalOk(s) && s.done && Play(c, lib, s, events).Some?
    ensures Play(c, lib, s, events).value.calls.handed == s.calls.handed
    decreases events
  {
    hide Next;
    if events != [] {
      var next := Next(c, lib, s, events[0]).value;
      StepCompatible(c, lib, s, events[0]);
      NothingHandedAfterDone(c, lib, s, events[0]);
      NothingHandedThroughout(c, lib, next, events[1..]);
    }
  }

  lemma {:induction false} TerminalOkThroughout(c: Config, lib: Lib, s: State, events: seq<Event>)
    requires TerminalOk(s) && Play(c, lib, s, events).Some?
    ensures TerminalOk(Play(c, lib, s, events).value)
    ensures s.terminal.Some? ==> Play(c, lib, s, events).value.terminal == s.terminal
    ensures s.done ==> Play(c, lib, s, events).value.done
    ensures s.finishing ==> Play(c, lib, s, events).value.accepted == s.accepted
    decreases events
  {
    hide Next;
    if events != [] {
      var next := Next(c, lib, s, events[0]).value;
      StepCompatible(c, lib, s, events[0]);
      TerminalOkThroughout(c, lib, next, events[1..]);
    }
  }

  /**
    Under every interleaving: `done` closes at most once; when `Finish` has
    returned, it has closed, and `Finish` returned nil exactly when the receiver
    never failed, its error being the terminal error otherwise.
  */
  lemma FinishReportsTheReceiver(c: Config, lib: Lib, events: seq<Event>)
    requires Play(c, lib, INITIAL, events).Some?
    ensures var s := Play(c, lib, INITIAL, events).value;
            && s.closes <= 1 && (s.done <==> s.closes == 1)
            && (s.finish.Returned? ==>
                  && s.done
                  && (s.finish.error.None? <==> !s.receiverFailed)
                  && s.terminal == if s.finish.error.None? then Some(Closed) else s.finish.error)
  {
    TerminalOkThroughout(c, lib, INITIAL, events);
    ClosedNormally(c, lib, events);
  }

  ghost predicate NormalClose(s: State) {
    s.finish.Returned? && s.finish.error.None? ==> s.terminal == Some(Closed)
  }

  lemma NormalCloseStep(c: Config, lib: Lib, s: State, e: Event)
    requires TerminalOk(s) && NormalClose(s) && Next(c, lib, s, e).Some?
    ensures NormalClose(Next(c, lib, s, e).value)
  {
    hide Next;
    StepCompatible(c, lib, s, e);
  }

  lemma {:induction false} NormalCloseThroughout(c: Config, lib: Lib, s: State, events: seq<Event>)
    requires TerminalOk(s) && NormalClose(s) && Play(c, lib, s, events).Some?
    ensures NormalClose(Play(c, lib, s, events).value)
    decreases events
  {
    if events != [] {
      StepCompatible(c, lib, s, events[0]);
      NormalCloseStep(c, lib, s, events[0]);
      NormalCloseThroughout(c, lib, Next(c, lib, s, events[0]).value, events[1..]);
    }
  }

  lemma ClosedNormally(c: Config, lib: Lib, events: seq<Event>)
    requires Play(c, lib, INITIAL, events).Some?
    ensures NormalClose(Play(c, lib, INITIAL, events).value)
  {
    NormalCloseThroughout(c, lib, INITIAL, events);
  }

  /**
    After `Finish` has returned, whatever happens next: no frame is recorded,
    every send that begins is refused, and no receive returns a frame, neither
    one that begins then nor one that was waiting or had already taken its
    frame from the queue, even if frames are still buffered.
  */
  lemma NothingWorksAfterFinish(c: Config, lib: Lib, before: seq<Event>, after: seq<Event>, p: Party, d: Dest)
    requires Play(c, lib, INITIAL, before).Some? && Play(c, lib, INITIAL, before).value.finish.Returned?
    requires Play(c, lib, Play(c, lib, INITIAL, before).value, after).Some?
    ensures var s := Play(c, lib, INITIAL, before).value;
            var t := Play(c, lib, s, after).value;
            && t.accepted == s.accepted
            && (p != Platform && p !in t.sending ==> Next(c, lib, t, BeginSend(p)) == Some(t))
            && (d != Network && d !in t.calls.receiving ==> Next(c, lib, t, BeginReceive(d)) == Some(t))
            && t.calls.handed == s.calls.handed
  {
    hide Next;
    var s := Play(c, lib, INITIAL, before).value;
    TerminalOkThroughout(c, lib, INITIAL, before);
    TerminalOkThroughout(c, lib, s, after);
    NothingHandedThroughout(c, lib, s, after);
    RefusedWhenDone(c, lib, Play(c, lib, s, after).value, p, d);
  }

  lemma RefusedWhenDone(c: Config, lib: Lib, s: State, p: Party, d: Dest)
    requires s.done
    ensures d != Network && d !in s.calls.receiving ==> Next(c, lib, s, BeginReceive(d)) == Some(s)
    ensures p != Platform && p !in s.sending ==> Next(c, lib, s, BeginSend(p)) == Some(s)
  {
  }

  // ---- Outcomes ----

  /** The frames waiting in a local queue. */
  function Buffered(s: State, d: Dest): int
    requires d in s.placed && d in s.taken
  {
    |s.placed[d]| - s.taken[d]
  }

  /**
    A copy can be placed in a local queue exactly while fewer than 256 frames wait
    there, and always on the network; it overflows exactly when 256 wait and the
    router is not done, and a closed router is noticed on a local queue only.
  */
  lemma OutcomesExactly(s: State, d: Dest, text: string)
    requires d in s.placed && d in s.taken && 0 <= Buffered(s, d)
    ensures CanHappen(s, d, Pushed) <==> d == Network || Buffered(s, d) < 256
    ensures CanHappen(s, d, QueueFull) <==> d != Network && Buffered(s, d) >= 256 && !s.done
    ensures CanHappen(s, d, SawDone) <==> d != Network && s.done
    ensures CanHappen(s, d, NetworkError(text)) <==> d == Network
  {
  }

  /** What makes the network receiver fail, if the step does. */
  ghost function CauseOfFailure(c: Config, lib: Lib, s: State, e: Event): Option<Fault> {
    match e
    case NetworkFrame(f) =>
      var v := Judge(c, lib, s.accepted, f, c.platform);
      if s.finishing || v == Accepted then None else Some(Rejected(v))
    case NetworkFailure(canceled, text) =>
      if canceled then (if s.finishing then None else Some(Canceled)) else Some(Failure(text))
    case DeliverNext(Platform, outcome) =>
      (match outcome
       case Pushed => None
       case SawDone => Some(if s.terminal.Some? then s.terminal.value else Closed)
       case ContextEnded(canceled) => if canceled then (if s.finishing then None else Some(Canceled)) else Some(Failure("deadline"))
       case QueueFull => Some(Overflow)
       case NetworkError(text) => Some(Failure(text)))
    case _ => None
  }

  /**
    The router fails exactly by a step of the network receiver that has a cause: a
    rejected frame, a failed receive or a failed delivery, but not a cancellation
    once `Finish` has begun; the cause becomes the terminal error, and any such
    step but a placement or an accepted frame makes the receiver leave.
  */
  lemma ReceiverFailsExactly(c: Config, lib: Lib, s: State, e: Event)
    requires TerminalOk(s) && !s.receiverFailed && Next(c, lib, s, e).Some?
    ensures var s', cause := Next(c, lib, s, e).value, CauseOfFailure(c, lib, s, e);
            && (s'.receiverFailed <==> cause.Some?)
            && (cause.Some? && !s.done ==> s'.terminal == cause && s'.receiver == Leaving)
  {
    hide Judge, Route, CanHappen, ReceiveNext, SendNext, NetworkNext, ControlNext;
    if IsSend(e) {
      SendFailsExactly(c, lib, s, e);
    } else if IsReceive(e) {
      ReceivesTouchQueuesOnly(s, e);
    } else if IsNetwork(e) {
      NetworkFailsExactly(c, lib, s, e);
    } else {
      ControlNeverFails(s, e);
    }
  }

  lemma SendFailsExactly(c: Config, lib: Lib, s: State, e: Event)
    requires !s.receiverFailed && IsSend(e) && SendNext(c, lib, s, e).Some?
    ensures var s', cause := SendNext(c, lib, s, e).value, CauseOfFailure(c, lib, s, e);
            && (s'.receiverFailed <==> cause.Some?)
            && (cause.Some? && !s.done ==> s'.terminal == cause && s'.receiver == Leaving)
  {
    hide Judge, Route, CanHappen, Deliver;
    if e.DeliverNext? { DeliverFailsExactly(c, lib, s, e); }
  }

  lemma DeliverFailsExactly(c: Config, lib: Lib, s: State, e: Event)
    requires !s.receiverFailed && e.DeliverNext? && e.party in s.flights && s.flights[e.party].todo != [] && s.flights[e.party].todo[0] in s.placed
    ensures var s', cause := Deliver(s, e.party, e.outcome), CauseOfFailure(c, lib, s, e);
            && (s'.receiverFailed <==> cause.Some?)
            && (cause.Some? && !s.done ==> s'.terminal == cause && s'.receiver == Leaving)
  {
  }

  lemma NetworkFailsExactly(c: Config, lib: Lib, s: State, e: Event)
    requires !s.receiverFailed && IsNetwork(e) && NetworkNext(c, lib, s, e).Some?
    ensures var s', cause := NetworkNext(c, lib, s, e).value, CauseOfFailure(c, lib, s, e);
            && (s'.receiverFailed <==> cause.Some?)
            && (cause.Some? && !s.done ==> s'.terminal == cause && s'.receiver == Leaving)
  {
    hide Judge, Route;
  }

  lemma ControlNeverFails(s: State, e: Event)
    requires !s.receiverFailed && !IsSend(e) && !IsReceive(e) && !IsNetwork(e) && ControlNext(s, e).Some?
    ensures !ControlNext(s, e).value.receiverFailed
  {
  }

  /** The network receiver runs exactly when `Start` comes first, before `Finish` has begun and while there is no error. */
  lemma StartExactly(c: Config, lib: Lib, s: State)
    requires TerminalOk(s)
    ensures Next(c, lib, s, Start).Some?
    ensures s.receiver == NotStarted ==> (Next(c, lib, s, Start).value.receiver == Running <==> !s.finishing && s.terminal.None?)
    ensures s.receiver != NotStarted ==> Next(c, lib, s, Start).value == s
  {
  }
}
