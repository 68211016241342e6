/** The scheduler's admission loop over the permits. */
module Scheduler {
  import opened Common
  import opened Permits

  /** A listed intent: its classified kind, if it has one, and its identifier. */
  datatype Listed = Listed(kind: Option<Kind>, id: string)

  /** What the world decides about one intent of a batch, and what other threads do before it. */
  datatype Turn = Turn(cancelled: bool, admissionOpen: bool, ready: bool, others: seq<Event>, dispatchWaitEnds: bool)

  /** What happens before one attempt of the drain to take a slot. */
  datatype DrainTurn = DrainTurn(others: seq<Event>, ends: bool)

  /** A step of a session thread or of the draining thread. */
  predicate Foreign(e: Event) {
    e.BeginRelease? || e.ReleaseGeneral? || e.ReleaseGuard? || e.FinishSession? || e.DrainSlot?
  }

  predicate NoDrain(events: seq<Event>) {
    forall e | e in events :: !e.DrainSlot?
  }

  predicate AllForeign(events: seq<Event>) {
    forall e | e in events :: Foreign(e)
  }

  /** Which intent a worker was launched for. */
  predicate LaunchedFor(w: Worker, intent: Listed) {
    w.id == intent.id && Some(w.lease.kind) == intent.kind
  }

  /** An admission succeeds exactly when the identifier is free and the slots it needs are. */
  predicate CanAdmit(s: State, kind: Kind, id: string) {
    (id == "" || id !in s.inFlight) && s.occupied < s.capacity && (kind == Dkg ==> s.guards < 1)
  }

  predicate NoDkgBefore(intents: seq<Listed>, i: nat)
    requires i <= |intents|
  {
    forall j | 0 <= j < i :: intents[j].kind != Some(Dkg)
  }

  /** Whether intent `i` of the batch is to be launched from the state its turn finds. */
  predicate ToLaunch(intents: seq<Listed>, turns: seq<Turn>, signingDisabled: bool, i: nat, s: State)
    requires i < |intents| == |turns|
  {
    && intents[i].kind.Some? && CanAdmit(s, intents[i].kind.value, intents[i].id)
    && (intents[i].kind == Some(Sign) ==> !signingDisabled)
    && (intents[i].kind == Some(Dkg) ==>
          turns[i].admissionOpen && turns[i].ready && NoDkgBefore(intents, i))
  }

  class Scheduler {
    const maxConcurrent: int
    const signingDisabled: bool
    var occupied: nat
    var guards: nat
    var drained: nat
    var inFlight: set<string>
    var workers: seq<Worker>
    ghost var admission: Admission
    ghost var trace: seq<Event>

    ghost function St(): State
      reads this
    {
      State(Fresh(maxConcurrent).capacity, occupied, guards, drained, inFlight, admission, workers)
    }

    /** The fields are the result of a run of the permit machine. */
    ghost predicate Valid()
      reads this
    {
      Play(Fresh(maxConcurrent), trace) == Some(St()) && Inv(St())
    }

    constructor (maxConcurrent: int, signingDisabled: bool)
      ensures Valid() && admission == Idle && workers == [] && inFlight == {}
    {
      hide Inv, Play, SlotsOk, LeasesOk, ReservationsOk, Owned, Registered, AllOwned;
      this.maxConcurrent, this.signingDisabled := maxConcurrent, signingDisabled;
      occupied, guards, drained, inFlight, workers, admission, trace := 0, 0, 0, {}, [], Idle, [];
      new;
      InitialInv(maxConcurrent);
      PlayNothing(Fresh(maxConcurrent));
      assert St() == Fresh(maxConcurrent);
    }

    /** The step just taken belongs to the run. */
    ghost method Record(before: State, e: Event)
      requires Play(Fresh(maxConcurrent), trace) == Some(before) && Inv(before) && Next(before, e) == Some(St())
      modifies this`trace
      ensures Valid() && trace == old(trace) + [e]
    {
      hide Next, Play, SlotsOk, LeasesOk, ReservationsOk;
      PlayOneMore(Fresh(maxConcurrent), trace, e);
      NextKeepsSlots(before, e);
      NextKeepsLeases(before, e);
      NextKeepsReservations(before, e);
      trace := trace + [e];
    }

    /** `reserveIntentID`. */
    method ReserveIntentId(kind: Kind, id: string) returns (reserved: bool)
      requires Valid() && admission == Idle
      modifies this`inFlight, this`admission, this`trace
      ensures Valid()
      ensures reserved <==> id == "" || id !in old(inFlight)
      ensures reserved ==> admission == Reserved(id, kind) && inFlight == if id == "" then old(inFlight) else old(inFlight) + {id}
      ensures !reserved ==> admission == Idle && inFlight == old(inFlight)
    {
      hide Inv, Play;
      ghost var before := St();
      if id != "" && id in inFlight {
        reserved := false;
      } else {
        if id != "" {
          inFlight := inFlight + {id};
        }
        admission := Reserved(id, kind);
        reserved := true;
      }
      Record(before, Reserve(kind, id));
    }

    /** `tryAcquireSIGN`, with the launch of the session when it succeeds. */
    method TryAcquireSign(id: string) returns (launched: bool)
      requires Valid() && admission == Reserved(id, Sign)
      modifies this`occupied, this`workers, this`admission, this`trace
      ensures Valid() && launched == (old(occupied) < Fresh(maxConcurrent).capacity)
      ensures launched ==> admission == Idle && occupied == old(occupied) + 1
                           && workers == old(workers) + [Worker(id, Lease(Sign, false, true, false), true)]
      ensures !launched ==> admission == Refused(id) && occupied == old(occupied) && workers == old(workers)
    {
      hide Inv, Play;
      ghost var before := St();
      launched := occupied < Fresh(maxConcurrent).capacity;
      if launched {
        occupied := occupied + 1;
        workers := workers + [Worker(id, Lease(Sign, false, true, false), true)];
        admission := Idle;
      } else {
        admission := Refused(id);
      }
      Record(before, TakeGeneral);
    }

    /** `tryAcquireDKG`: the guard first, given back when there is no general slot. */
    method TryAcquireDkg(id: string) returns (launched: bool)
      requires Valid() && admission == Reserved(id, Dkg)
      modifies this`occupied, this`guards, this`workers, this`admission, this`trace
      ensures Valid() && launched == (old(guards) < 1 && old(occupied) < Fresh(maxConcurrent).capacity)
      ensures launched ==> admission == Idle && occupied == old(occupied) + 1 && guards == old(guards) + 1
                           && workers == old(workers) + [Worker(id, Lease(Dkg, false, true, true), true)]
      ensures !launched ==> admission == Refused(id) && occupied == old(occupied) && guards == old(guards) && workers == old(workers)
    {
      hide Inv, Play;
      ghost var before := St();
      if guards >= 1 {
        launched := false;
        admission := Refused(id);
        Record(before, TakeGuard);
        return;
      }
      guards := guards + 1;
      admission := Guarded(id);
      Record(before, TakeGuard);
      before := St();
      launched := occupied < Fresh(maxConcurrent).capacity;
      if launched {
        occupied := occupied + 1;
        workers := workers + [Worker(id, Lease(Dkg, false, true, true), true)];
        admission := Idle;
        Record(before, TakeGeneral);
      } else {
        admission := GuardBack(id);
        Record(before, TakeGeneral);
        before := St();
        guards := guards - 1;
        admission := Refused(id);
        Record(before, ReturnGuard);
      }
    }

    /** One admission of `dispatchBatch`: a refusal at any point leaves the scheduler exactly as it was. */
    method Admit(kind: Kind, id: string) returns (launched: bool)
      requires Valid() && admission == Idle
      modifies this
      ensures Valid() && admission == Idle
      ensures launched == CanAdmit(old(St()), kind, id)
      ensures launched ==>
        && workers == old(workers) + [Worker(id, Lease(kind, false, true, kind == Dkg), true)]
        && inFlight == (if id == "" then old(inFlight) else old(inFlight) + {id})
        && occupied == old(occupied) + 1 && guards == old(guards) + (if kind == Dkg then 1 else 0) && drained == old(drained)
      ensures !launched ==> St() == old(St())
    {
      hide Inv, Play;
      var reserved := ReserveIntentId(kind, id);
      if !reserved {
        return false;
      }
      if kind == Dkg {
        launched := TryAcquireDkg(id);
      } else {
        launched := TryAcquireSign(id);
      }
      if !launched {
        ghost var before := St();
        inFlight := WithoutId(inFlight, id);
        admission := Idle;
        NotReserved(before, old(inFlight), id);
        Record(before, ReturnReservation);
      }
    }

    /** What the other threads do meanwhile. */
    method Others(events: seq<Event>)
      requires Valid() && AllForeign(events)
      modifies this`occupied, this`guards, this`drained, this`inFlight, this`workers, this`trace
      ensures Valid() && admission == old(admission)
      ensures NoDrain(events) ==> drained == old(drained)
      ensures |workers| == |old(workers)|
      ensures forall w | 0 <= w < |workers| :: workers[w].id == old(workers)[w].id && workers[w].lease.kind == old(workers)[w].lease.kind
    {
      hide Inv, Play, Next;
      for i := 0 to |events|
        invariant Valid() && admission == old(admission) && |workers| == |old(workers)|
        invariant NoDrain(events) ==> drained == old(drained)
        invariant forall w | 0 <= w < |workers| :: workers[w].id == old(workers)[w].id && workers[w].lease.kind == old(workers)[w].lease.kind
      {
        var e := events[i];
        assert Foreign(e);
        ghost var before := St();
        var next := Next(State(Fresh(maxConcurrent).capacity, occupied, guards, drained, inFlight, Idle, workers), e);
        ForeignIgnoresAdmission(before, e);
        if next.Some? {
          ForeignKeepsWorkers(before, e);
          occupied, guards, drained := next.value.occupied, next.value.guards, next.value.drained;
          inFlight, workers := next.value.inFlight, next.value.workers;
          Record(before, e);
        }
      }
    }

    /** The turn of one intent. */
    method Consider(intents: seq<Listed>, turns: seq<Turn>, i: nat, dkgConsidered: bool) returns (launched: bool)
      requires Valid() && admission == Idle && i < |intents| == |turns|
      requires !dkgConsidered <==> NoDkgBefore(intents, i)
      modifies this
      ensures Valid() && admission == Idle
      ensures launched <==> ToLaunch(intents, turns, signingDisabled, i, old(St()))
      ensures launched ==> |workers| == |old(workers)| + 1 && workers[..|old(workers)|] == old(workers)
                           && LaunchedFor(workers[|old(workers)|], intents[i])
      ensures !launched ==> St() == old(St())
    {
      hide Inv, Play, NoDkgBefore;
      var intent, turn := intents[i], turns[i];
      launched := false;
      if intent.kind.None? {
        return;
      }
      match intent.kind.value
      case Dkg =>
        if !dkgConsidered && turn.admissionOpen && turn.ready {
          launched := Admit(Dkg, intent.id);
        }
      case Sign =>
        if !signingDisabled {
          launched := Admit(Sign, intent.id);
        }
    }

    /**
      `dispatchBatch`: goes through the batch until it is cancelled, launching
      one worker for each intent that is to be launched and for no other: at most
      the first listed DKG intent, and no SIGN intent when signing is disabled.
      `seen` are the states the turns found.
    */
    method DispatchBatch(intents: seq<Listed>, turns: seq<Turn>) returns (picked: seq<nat>, ghost seen: seq<State>)
      requires Valid() && admission == Idle && |turns| == |intents|
      requires forall t | t in turns :: AllForeign(t.others)
      modifies this
      ensures Valid() && admission == Idle
      ensures |workers| == |old(workers)| + |picked|
      ensures forall k | 0 <= k < |picked| :: picked[k] < |intents| && LaunchedFor(workers[|old(workers)| + k], intents[picked[k]])
      ensures |seen| <= |intents| && forall i | 0 <= i < |seen| :: i in picked <==> ToLaunch(intents, turns, signingDisabled, i, seen[i])
      ensures forall j, k | 0 <= j < k < |picked| :: picked[j] < picked[k] < |seen|
      ensures |seen| == |intents| || turns[|seen|].cancelled
           || (|seen| > 0 && |seen| - 1 in picked && turns[|seen| - 1].dispatchWaitEnds)
      ensures forall i | 0 <= i < |seen| :: !turns[i].cancelled
      ensures forall i | 0 <= i < |seen| - 1 :: !(i in picked && turns[i].dispatchWaitEnds)
    {
      hide Inv, Play, Next, ToLaunch, NoDkgBefore, AllForeign, Fresh;
      picked, seen := [], [];
      var dkgConsidered := false;
      assert NoDkgBefore(intents, 0) by { NoDkgStep(intents, 0); }
      for i := 0 to |intents|
        invariant Valid() && admission == Idle
        invariant !dkgConsidered <==> NoDkgBefore(intents, i)
        invariant |workers| == |old(workers)| + |picked|
        invariant forall k | 0 <= k < |picked| :: picked[k] < i && LaunchedFor(workers[|old(workers)| + k], intents[picked[k]])
        invariant forall j, k | 0 <= j < k < |picked| :: picked[j] < picked[k]
        invariant forall j | 0 <= j < i :: !turns[j].cancelled && !(j in picked && turns[j].dispatchWaitEnds)
        invariant |seen| == i && forall j | 0 <= j < i :: j in picked <==> ToLaunch(intents, turns, signingDisabled, j, seen[j])
      {
        var turn := turns[i];
        assert turn in turns;
        Others(turn.others);
        if turn.cancelled {
          return;
        }
        seen := seen + [St()];
        NoDkgStep(intents, i);
        var launched := Consider(intents, turns, i, dkgConsidered);
        dkgConsidered := dkgConsidered || intents[i].kind == Some(Dkg);
        if launched {
          picked := picked + [i];
          if turn.dispatchWaitEnds {
            return;
          }
        }
      }
    }

    /**
      `drainWorkers` from an undrained pool, as the only drainer: each turn is
      what the others do before the next push, and whether the context ends
      instead. Success means that every slot is drained and no lease holds one.
      Every turn drains a slot, finds all of them taken or ends the drain;
      `full` are the states in which they were taken.
    */
    method DrainWorkers(turns: seq<DrainTurn>) returns (ok: bool, ghost used: nat, ghost full: seq<State>)
      requires Valid() && drained == 0
      requires forall t | t in turns :: AllForeign(t.others) && NoDrain(t.others)
      modifies this`occupied, this`guards, this`drained, this`inFlight, this`workers, this`trace
      ensures Valid() && (ok ==> Drained(St()) && forall w | 0 <= w < |workers| :: !workers[w].lease.general)
      ensures used <= |turns| && drained + |full| == used && forall i | 0 <= i < used :: !turns[i].ends
      ensures !ok ==> used == |turns| || turns[used].ends
      ensures forall s | s in full :: s.occupied >= s.capacity
    {
      hide Inv, Play;
      used, full := 0, [];
      var filled := 0;
      for i := 0 to |turns|
        invariant Valid() && admission == old(admission) && drained == filled < Fresh(maxConcurrent).capacity
        invariant used == i && drained + |full| == used && forall j | 0 <= j < i :: !turns[j].ends
        invariant forall s | s in full :: s.occupied >= s.capacity
      {
        var turn := turns[i];
        assert turn in turns;
        Others(turn.others);
        if turn.ends {
          return false, used, full;
        }
        used := used + 1;
        if occupied < Fresh(maxConcurrent).capacity {
          ghost var before := St();
          occupied, drained := occupied + 1, drained + 1;
          Record(before, DrainSlot);
          filled := filled + 1;
          if filled == Fresh(maxConcurrent).capacity {
            forall w | 0 <= w < |workers|
              ensures !workers[w].lease.general
            {
              PlayNothing(St());
              DrainIsFinal(St(), [], w);
            }
            return true, used, full;
          }
        } else {
          full := full + [St()];
        }
      }
      return false, used, full;
    }
  }

  lemma NoDkgStep(intents: seq<Listed>, i: nat)
    requires i <= |intents|
    ensures i == 0 ==> NoDkgBefore(intents, i)
    ensures i < |intents| ==> (NoDkgBefore(intents, i + 1) <==> NoDkgBefore(intents, i) && intents[i].kind != Some(Dkg))
  {
  }

  lemma PlayNothing(s: State)
    ensures Play(s, []) == Some(s)
  {
  }

  lemma {:induction false} PlayOneMore(s: State, events: seq<Event>, e: Event)
    requires Play(s, events).Some?
    ensures Play(s, events + [e]) == Next(Play(s, events).value, e)
    decreases events
  {
    if events == [] {
      assert events + [e] == [e];
      assert [e][1..] == [];
    } else {
      PlayOneMore(Next(s, events[0]).value, events[1..], e);
      assert (events + [e])[1..] == events[1..] + [e];
    }
  }

  /** Giving a reservation back restores the set it was taken from. */
  lemma NotReserved(s: State, ids: set<string>, id: string)
    requires s.inFlight == if id == "" then ids else ids + {id}
    requires id == "" || id !in ids
    requires Inv(s)
    ensures WithoutId(s.inFlight, id) == ids
  {
    hide SlotsOk, LeasesOk, Registered, Owned;
    if id == "" {
      assert "" !in s.inFlight;
    }
  }

  lemma ForeignKeepsWorkers(s: State, e: Event)
    requires Foreign(e) && Next(s, e).Some?
    ensures var s' := Next(s, e).value;
            && s'.capacity == s.capacity && (!e.DrainSlot? ==> s'.drained == s.drained) && |s'.workers| == |s.workers|
            && forall w | 0 <= w < |s.workers| :: s'.workers[w].id == s.workers[w].id && s'.workers[w].lease.kind == s.workers[w].lease.kind
  {
  }

  lemma ForeignIgnoresAdmission(s: State, e: Event)
    requires Foreign(e)
    ensures var idle := Next(s.(admission := Idle), e);
            idle.Some? == Next(s, e).Some? && (idle.Some? ==> Next(s, e) == Some(idle.value.(admission := s.admission)))
  {
  }
}
