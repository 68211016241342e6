/**
  Permits, intent reservations and draining as a state machine: every channel
  operation and every section under the in-flight mutex is one step, taken by
  the dispatching thread, by any session thread or by the draining thread.
*/
module Permits {
  import opened Common

  datatype Kind = Dkg | Sign

  /** A lease with what is left of its tokens; `begun` is its release `Once`. */
  datatype Lease = Lease(kind: Kind, begun: bool, general: bool, guard: bool)

  /** A session thread; it is live until its deferred intent release has run. */
  datatype Worker = Worker(id: string, lease: Lease, live: bool)

  /** Where the dispatching thread stands within one admission. */
  datatype Admission = Idle | Reserved(id: string, kind: Kind) | Guarded(id: string) | GuardBack(id: string) | Refused(id: string)

  datatype State = State(
    capacity: nat, occupied: nat, guards: nat, drained: nat,
    inFlight: set<string>, admission: Admission, workers: seq<Worker>)

  /** A pool of at least one slot, nothing taken. */
  function Fresh(maxConcurrent: int): State {
    State(if maxConcurrent < 1 then 1 else maxConcurrent, 0, 0, 0, {}, Idle, [])
  }

  datatype Event =
    | Reserve(kind: Kind, id: string)
    | TakeGuard
    | TakeGeneral
    | ReturnGuard
    | ReturnReservation
    | BeginRelease(worker: nat)
    | ReleaseGeneral(worker: nat)
    | ReleaseGuard(worker: nat)
    | FinishSession(worker: nat)
    | DrainSlot

  function WithoutId(ids: set<string>, id: string): set<string> {
    ids - {id}
  }

  function Taken(s: State, id: string): State {
    s.(admission := Idle, occupied := s.occupied + 1,
       workers := s.workers + [Worker(id, Lease(if s.admission.Guarded? then Dkg else Sign, false, true, s.admission.Guarded?), true)])
  }

  function SetLease(s: State, w: nat, lease: Lease): State
    requires w < |s.workers|
  {
    s.(workers := s.workers[w := s.workers[w].(lease := lease)])
  }

  /** The next state, or `None` where the step cannot happen. */
  function Next(s: State, e: Event): Option<State> {
    match e
    case Reserve(kind, id) =>
      if s.admission != Idle then None
      else if id != "" && id in s.inFlight then Some(s)
      else Some(s.(admission := Reserved(id, kind), inFlight := if id == "" then s.inFlight else s.inFlight + {id}))
    case TakeGuard =>
      if !s.admission.Reserved? || s.admission.kind != Dkg then None
      else if s.guards >= 1 then Some(s.(admission := Refused(s.admission.id)))
      else Some(s.(guards := s.guards + 1, admission := Guarded(s.admission.id)))
    case TakeGeneral =>
      if s.admission.Guarded? then
        (if s.occupied >= s.capacity then Some(s.(admission := GuardBack(s.admission.id))) else Some(Taken(s, s.admission.id)))
      else if s.admission.Reserved? && s.admission.kind == Sign then
        (if s.occupied >= s.capacity then Some(s.(admission := Refused(s.admission.id))) else Some(Taken(s, s.admission.id)))
      else None
    case ReturnGuard =>
      if !s.admission.GuardBack? || s.guards == 0 then None
      else Some(s.(guards := s.guards - 1, admission := Refused(s.admission.id)))
    case ReturnReservation =>
      if !s.admission.Refused? then None
      else Some(s.(admission := Idle, inFlight := WithoutId(s.inFlight, s.admission.id)))
    case BeginRelease(w) =>
      if w >= |s.workers| || !s.workers[w].live then None
      else Some(SetLease(s, w, s.workers[w].lease.(begun := true)))
    case ReleaseGeneral(w) =>
      if w >= |s.workers| || !s.workers[w].lease.begun || !s.workers[w].lease.general || s.occupied == 0 then None
      else Some(SetLease(s.(occupied := s.occupied - 1), w, s.workers[w].lease.(general := false)))
    case ReleaseGuard(w) =>
      if w >= |s.workers| || !s.workers[w].lease.begun || s.workers[w].lease.general || !s.workers[w].lease.guard || s.guards == 0 then None
      else Some(SetLease(s.(guards := s.guards - 1), w, s.workers[w].lease.(guard := false)))
    case FinishSession(w) =>
      if w >= |s.workers| || !s.workers[w].live || s.workers[w].lease.general || s.workers[w].lease.guard then None
      else Some(s.(workers := s.workers[w := s.workers[w].(live := false)], inFlight := WithoutId(s.inFlight, s.workers[w].id)))
    case DrainSlot =>
      if s.occupied >= s.capacity then None else Some(s.(occupied := s.occupied + 1, drained := s.drained + 1))
  }

  function Play(s: State, events: seq<Event>): Option<State>
    decreases events
  {
    if events == [] then Some(s)
    else
      var next := Next(s, events[0]);
      if next.None? then None else Play(next.value, events[1..])
  }

  // ---- The invariant ----

  function Generals(workers: seq<Worker>): nat {
    if workers == [] then 0 else (if workers[0].lease.general then 1 else 0) + Generals(workers[1..])
  }

  function Guards(workers: seq<Worker>): nat {
    if workers == [] then 0 else (if workers[0].lease.guard then 1 else 0) + Guards(workers[1..])
  }

  function AdmissionGuard(a: Admission): nat {
    if a.Guarded? || a.GuardBack? then 1 else 0
  }

  /** Slots and guards are exactly the tokens held, plus what was drained. */
  predicate SlotsOk(s: State) {
    && s.occupied == Generals(s.workers) + s.drained && s.occupied <= s.capacity
    && s.guards == Guards(s.workers) + AdmissionGuard(s.admission) && s.guards <= 1
  }

  predicate LeasesOk(s: State) {
    forall w | 0 <= w < |s.workers| ::
      var lease := s.workers[w].lease;
      && (lease.guard ==> lease.kind == Dkg)
      && (lease.kind == Dkg && lease.general ==> lease.guard)
      && (lease.general || lease.guard ==> s.workers[w].live)
      && (!lease.begun ==> lease.general)
  }

  /** The identifier the dispatching thread has reserved and not yet handed on. */
  function Pending(a: Admission): Option<string> {
    if a == Idle then None else Some(a.id)
  }

  /** Live sessions have different identifiers, none of them the pending one, and all are reserved. */
  predicate Registered(s: State) {
    && (forall v, w | 0 <= v < w < |s.workers| && s.workers[v].live && s.workers[w].live ::
          s.workers[v].id == "" || s.workers[v].id != s.workers[w].id)
    && (forall w | 0 <= w < |s.workers| && s.workers[w].live && s.workers[w].id != "" ::
          s.workers[w].id in s.inFlight && Pending(s.admission) != Some(s.workers[w].id))
    && (Pending(s.admission).Some? && Pending(s.admission).value != "" ==> Pending(s.admission).value in s.inFlight)
  }

  /** Every reserved identifier is the pending one or a live session's. */
  ghost predicate AllOwned(s: State) {
    forall id | id in s.inFlight :: id != "" && Owned(s, id)
  }

  ghost predicate ReservationsOk(s: State) {
    Registered(s) && AllOwned(s)
  }

  ghost predicate Owned(s: State, id: string) {
    Pending(s.admission) == Some(id) || exists w :: 0 <= w < |s.workers| && s.workers[w].live && s.workers[w].id == id
  }

  ghost predicate Inv(s: State) {
    SlotsOk(s) && LeasesOk(s) && ReservationsOk(s)
  }

  // ---- Counting ----

  lemma {:induction false} Launched(workers: seq<Worker>, w: Worker)
    ensures Generals(workers + [w]) == Generals(workers) + (if w.lease.general then 1 else 0)
    ensures Guards(workers + [w]) == Guards(workers) + (if w.lease.guard then 1 else 0)
  {
    if workers == [] {
      assert workers + [w] == [w];
    } else {
      Launched(workers[1..], w);
      assert (workers + [w])[1..] == workers[1..] + [w];
    }
  }

  lemma {:induction false} Updated(workers: seq<Worker>, i: nat, w: Worker)
    requires i < |workers|
    ensures Generals(workers[i := w]) + (if workers[i].lease.general then 1 else 0)
         == Generals(workers) + (if w.lease.general then 1 else 0)
    ensures Guards(workers[i := w]) + (if workers[i].lease.guard then 1 else 0)
         == Guards(workers) + (if w.lease.guard then 1 else 0)
  {
    if i == 0 {
      assert workers[i := w][1..] == workers[1..];
    } else {
      Updated(workers[1..], i - 1, w);
      assert workers[i := w][1..] == workers[1..][i - 1 := w];
    }
  }

  /** A worker holding a token is counted. */
  lemma {:induction false} Counted(workers: seq<Worker>, i: nat)
    requires i < |workers|
    ensures workers[i].lease.general ==> Generals(workers) >= 1
    ensures workers[i].lease.guard ==> Guards(workers) >= 1
  {
    if i > 0 {
      Counted(workers[1..], i - 1);
    }
  }

  /** Two workers holding guards make the count at least two. */
  lemma {:induction false} CountedTwice(workers: seq<Worker>, i: nat, j: nat)
    requires i < j < |workers| && workers[i].lease.guard && workers[j].lease.guard
    ensures Guards(workers) >= 2
  {
    if i == 0 {
      Counted(workers[1..], j - 1);
    } else {
      CountedTwice(workers[1..], i - 1, j - 1);
    }
  }

  lemma NextKeepsSlots(s: State, e: Event)
    requires SlotsOk(s) && Next(s, e).Some?
    ensures SlotsOk(Next(s, e).value)
  {
    hide Generals, Guards;
    match e
    case TakeGeneral =>
      if s.occupied < s.capacity {
        Launched(s.workers, Taken(s, s.admission.id).workers[|s.workers|]);
      }
    case BeginRelease(w) => Updated(s.workers, w, Next(s, e).value.workers[w]);
    case ReleaseGeneral(w) => Updated(s.workers, w, Next(s, e).value.workers[w]);
    case ReleaseGuard(w) => Updated(s.workers, w, Next(s, e).value.workers[w]);
    case FinishSession(w) => Updated(s.workers, w, Next(s, e).value.workers[w]);
    case _ =>
  }

  lemma NextKeepsLeases(s: State, e: Event)
    requires LeasesOk(s) && Next(s, e).Some?
    ensures LeasesOk(Next(s, e).value)
  {
  }

  lemma LaunchKeepsRegistered(s: State)
    requires Registered(s) && (s.admission.Reserved? || s.admission.Guarded?)
    ensures Registered(Taken(s, s.admission.id))
  {
  }

  lemma FinishKeepsRegistered(s: State, w: nat)
    requires Registered(s) && Next(s, FinishSession(w)).Some?
    ensures Registered(Next(s, FinishSession(w)).value)
  {
  }

  lemma NextKeepsRegistered(s: State, e: Event)
    requires Registered(s) && Next(s, e).Some?
    ensures Registered(Next(s, e).value)
  {
    hide Registered;
    match e
    case Reserve(kind, id) => ReserveKeepsRegistered(s, kind, id);
    case ReturnReservation => ReturnKeepsRegistered(s);
    case FinishSession(w) => FinishKeepsRegistered(s, w);
    case TakeGeneral =>
      if s.occupied < s.capacity { LaunchKeepsRegistered(s); } else { RegisteredCarries(s, Next(s, e).value); }
    case _ => RegisteredCarries(s, Next(s, e).value);
  }

  lemma ReserveKeepsRegistered(s: State, kind: Kind, id: string)
    requires Registered(s) && Next(s, Reserve(kind, id)).Some?
    ensures Registered(Next(s, Reserve(kind, id)).value)
  {
  }

  lemma ReturnKeepsRegistered(s: State)
    requires Registered(s) && Next(s, ReturnReservation).Some?
    ensures Registered(Next(s, ReturnReservation).value)
  {
  }

  /** Steps that change neither identifiers nor liveness nor reservations. */
  lemma RegisteredCarries(s: State, s': State)
    requires Registered(s) && s'.inFlight == s.inFlight && Pending(s'.admission) == Pending(s.admission)
    requires |s'.workers| == |s.workers|
    requires forall w | 0 <= w < |s.workers| :: s'.workers[w].id == s.workers[w].id && s'.workers[w].live == s.workers[w].live
    ensures Registered(s')
  {
  }

  /** Reservations other than the one at hand stay owned. */
  lemma StaysOwned(s: State, s': State, id: string)
    requires Owned(s, id) && Pending(s.admission) != Some(id)
    requires |s.workers| <= |s'.workers|
    requires forall w | 0 <= w < |s.workers| && s.workers[w].live && s.workers[w].id == id :: s'.workers[w].live && s'.workers[w].id == id
    ensures Owned(s', id)
  {
    var w :| 0 <= w < |s.workers| && s.workers[w].live && s.workers[w].id == id;
    assert s'.workers[w].live && s'.workers[w].id == id;
  }

  lemma LaunchedIsOwned(s: State)
    requires s.admission.Reserved? || s.admission.Guarded?
    ensures Owned(Taken(s, s.admission.id), s.admission.id)
  {
    var s' := Taken(s, s.admission.id);
    assert s'.workers[|s.workers|].live && s'.workers[|s.workers|].id == s.admission.id;
  }

  lemma NextKeepsOwned(s: State, e: Event, id: string)
    requires ReservationsOk(s) && Next(s, e).Some? && id in Next(s, e).value.inFlight
    ensures id != "" && Owned(Next(s, e).value, id)
  {
    var next := Next(s, e).value;
    if id in s.inFlight && Pending(s.admission) != Some(id) {
      hide Owned;
      StaysOwned(s, next, id);
    } else if e == TakeGeneral && next.admission == Idle {
      hide Owned;
      LaunchedIsOwned(s);
    } else {
      assert Pending(next.admission) == Some(id);
    }
  }

  lemma NextKeepsReservations(s: State, e: Event)
    requires ReservationsOk(s) && Next(s, e).Some?
    ensures ReservationsOk(Next(s, e).value)
  {
    hide Registered, Owned, Next;
    NextKeepsRegistered(s, e);
    forall id | id in Next(s, e).value.inFlight
      ensures id != "" && Owned(Next(s, e).value, id)
    {
      NextKeepsOwned(s, e, id);
    }
  }

  lemma {:induction false} PlayKeepsInv(s: State, events: seq<Event>)
    requires Inv(s) && Play(s, events).Some?
    ensures Inv(Play(s, events).value)
    ensures Play(s, events).value.capacity == s.capacity
    decreases events
  {
    hide SlotsOk, LeasesOk, ReservationsOk;
    if events != [] {
      NextKeepsSlots(s, events[0]);
      NextKeepsLeases(s, events[0]);
      NextKeepsReservations(s, events[0]);
      PlayKeepsInv(Next(s, events[0]).value, events[1..]);
    }
  }

  // ---- Main results ----

  /**
    In every run, slots are conserved: the occupied general slots are the live
    leases' tokens plus the drained ones and never exceed the capacity, at most
    one lease holds the DKG guard and every DKG lease with a slot holds it, and
    no non-empty intent has two live sessions.
  */
  lemma EveryRunConservesPermits(maxConcurrent: int, events: seq<Event>, v: nat, w: nat)
    requires Play(Fresh(maxConcurrent), events).Some?
    requires v < w < |Play(Fresh(maxConcurrent), events).value.workers|
    ensures var s := Play(Fresh(maxConcurrent), events).value;
            && s.occupied == Generals(s.workers) + s.drained <= s.capacity
            && !(s.workers[v].lease.guard && s.workers[w].lease.guard)
            && (forall u | 0 <= u < |s.workers| && s.workers[u].lease.kind == Dkg && s.workers[u].lease.general :: s.workers[u].lease.guard)
            && (s.workers[v].live && s.workers[w].live && s.workers[v].id != "" ==> s.workers[v].id != s.workers[w].id)
  {
    hide Generals, Guards;
    var s := Play(Fresh(maxConcurrent), events).value;
    InitialInv(maxConcurrent);
    PlayKeepsInv(Fresh(maxConcurrent), events);
    if s.workers[v].lease.guard && s.workers[w].lease.guard {
      CountedTwice(s.workers, v, w);
    }
  }

  lemma InitialInv(maxConcurrent: int)
    ensures Inv(Fresh(maxConcurrent))
  {
    hide Owned, Registered, SlotsOk, LeasesOk, AllOwned;
    var s := Fresh(maxConcurrent);
    NoWorkers(s);
  }

  lemma NoWorkers(s: State)
    requires s.workers == [] && s.occupied == 0 && s.guards == 0 && s.drained == 0 && s.inFlight == {} && s.admission == Idle
    ensures Inv(s)
  {
  }

  /** Between admissions the reserved identifiers are exactly the live sessions' non-empty ones: every refusal has given its reservation back. */
  lemma RefusalGivesBack(maxConcurrent: int, events: seq<Event>, id: string)
    requires Play(Fresh(maxConcurrent), events).Some? && Play(Fresh(maxConcurrent), events).value.admission == Idle
    ensures var s := Play(Fresh(maxConcurrent), events).value;
            id in s.inFlight <==> id != "" && exists w :: 0 <= w < |s.workers| && s.workers[w].live && s.workers[w].id == id
  {
    hide Play, Fresh, SlotsOk, LeasesOk;
    var s := Play(Fresh(maxConcurrent), events).value;
    InitialInv(maxConcurrent);
    PlayKeepsInv(Fresh(maxConcurrent), events);
    if id in s.inFlight {
      assert Owned(s, id);
    }
  }

  /** `drainWorkers` has filled every slot itself. */
  predicate Drained(s: State) {
    s.drained == s.capacity
  }

  lemma {:induction false} GeneralsZero(workers: seq<Worker>, w: nat)
    requires Generals(workers) == 0 && w < |workers|
    ensures !workers[w].lease.general
  {
    if w > 0 {
      GeneralsZero(workers[1..], w - 1);
    }
  }

  lemma DrainedStep(s: State, e: Event)
    requires Inv(s) && Drained(s) && Next(s, e).Some?
    ensures Drained(Next(s, e).value) && |Next(s, e).value.workers| == |s.workers|
  {
    hide Generals, Guards, ReservationsOk;
  }

  /**
    When the drain has returned without error no lease holds a slot, and in
    whatever follows none is ever acquired again.
  */
  lemma {:induction false} DrainIsFinal(s: State, events: seq<Event>, w: nat)
    requires Inv(s) && Drained(s) && Play(s, events).Some?
    ensures var s' := Play(s, events).value;
            && Drained(s') && |s'.workers| == |s.workers|
            && (w < |s'.workers| ==> !s'.workers[w].lease.general)
    decreases events
  {
    hide Generals, Guards, LeasesOk, ReservationsOk;
    if events == [] {
      if w < |s.workers| { GeneralsZero(s.workers, w); }
    } else {
      var next := Next(s, events[0]).value;
      NextKeepsSlots(s, events[0]);
      NextKeepsLeases(s, events[0]);
      NextKeepsReservations(s, events[0]);
      DrainedStep(s, events[0]);
      DrainIsFinal(next, events[1..], w);
    }
  }
}
