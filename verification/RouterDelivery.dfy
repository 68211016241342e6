/** Where the router's accepted frames end up, in every run. */
module RouterDelivery {
  import opened Common
  import opened FrameText
  import opened FrameValidator
  import opened Router

  /** A frame the router could have accepted. */
  ghost predicate Wellformed(c: Config, lib: Lib, f: Frame) {
    IsParty(c, f.fromParty) && HeaderOk(c, lib, f, f.fromParty)
  }

  /** An accepted frame's route names exactly the parties it is addressed to, once each, and never its sender. */
  lemma RouteIsAddressees(c: Config, lib: Lib, f: Frame, d: Dest)
    requires ValidConfig(c) && Wellformed(c, lib, f)
    ensures d in Route(c, f) <==> Addressed(c, f, PartyAt(d))
    ensures d in Route(c, f) ==> NameOf(c, PartyAt(d)) != f.fromParty
    ensures forall i, j | 0 <= i < j < |Route(c, f)| :: Turn(Route(c, f)[i]) < Turn(Route(c, f)[j])
  {
  }

  /** The order of delivery: local queues before the network, the primary's first. */
  function Turn(d: Dest): nat {
    match d
    case PrimaryQueue => 0
    case RecoveryQueue => 1
    case Network => 2
  }

  ghost predicate Shaped(s: State) {
    forall d: Dest :: d in s.placed && d in s.taken
  }

  /** Only accepted frames are placed, and only along their routes. */
  ghost predicate PlacedAlongRoutes(c: Config, s: State)
    requires Shaped(s)
  {
    forall d: Dest, i | 0 <= i < |s.placed[d]| :: s.placed[d][i] < |s.accepted| && d in Route(c, s.accepted[s.placed[d][i]])
  }

  /** Each place holds each sender's frames in the order they were accepted. */
  ghost predicate InOrder(c: Config, s: State)
    requires Shaped(s) && PlacedAlongRoutes(c, s)
  {
    forall d: Dest, i, j | 0 <= i < j < |s.placed[d]|
      && s.accepted[s.placed[d][i]].fromParty == s.accepted[s.placed[d][j]].fromParty ::
      s.placed[d][i] < s.placed[d][j]
  }

  /** The places a flight has reached are those of its route it no longer has to do. */
  ghost predicate FlightOk(c: Config, s: State, p: Party)
    requires Shaped(s) && p in s.flights
  {
    var flight := s.flights[p];
    && flight.id < |s.accepted| && s.accepted[flight.id].fromParty == NameOf(c, p)
    && (var route := Route(c, s.accepted[flight.id]);
        && |flight.todo| <= |route| && flight.todo == route[|route| - |flight.todo|..]
        && (forall d: Dest :: flight.id in s.placed[d] <==> d in route[..|route| - |flight.todo|]))
    && (forall id | 0 <= id < |s.accepted| && s.accepted[id].fromParty == NameOf(c, p) :: id <= flight.id)
  }

  ghost predicate RoutedOk(c: Config, s: State, id: nat)
    requires Shaped(s)
  {
    id < |s.accepted| && forall d: Dest :: id in s.placed[d] <==> d in Route(c, s.accepted[id])
  }

  ghost predicate QueuesOk(s: State)
    requires Shaped(s)
  {
    forall d: Dest :: s.taken[d] <= |s.placed[d]| && (d != Network ==> |s.placed[d]| - s.taken[d] <= QUEUE_CAPACITY)
  }

  ghost predicate AcceptedOk(c: Config, lib: Lib, s: State) {
    forall id | 0 <= id < |s.accepted| :: Wellformed(c, lib, s.accepted[id])
  }

  ghost predicate FlightsOk(c: Config, s: State)
    requires Shaped(s)
  {
    forall p | p in s.flights :: FlightOk(c, s, p) && s.flights[p].id !in s.routed
  }

  ghost predicate AllRoutedOk(c: Config, s: State)
    requires Shaped(s)
  {
    forall id | id in s.routed :: RoutedOk(c, s, id)
  }

  ghost predicate DeliveryOk(c: Config, lib: Lib, s: State) {
    Shaped(s) && AcceptedOk(c, lib, s) && PlacedAlongRoutes(c, s) && InOrder(c, s) && FlightsOk(c, s)
    && AllRoutedOk(c, s) && QueuesOk(s)
  }

  lemma InitiallyOk(c: Config, lib: Lib)
    ensures DeliveryOk(c, lib, INITIAL)
  {
    forall d: Dest
      ensures d in INITIAL.placed && d in INITIAL.taken && INITIAL.placed[d] == [] && INITIAL.taken[d] == 0
    {
      match d case PrimaryQueue => case RecoveryQueue => case Network =>
    }
  }

  /** The parts of the state that delivery is about. */
  predicate SameDelivery(s: State, s': State) {
    s'.accepted == s.accepted && s'.placed == s.placed && s'.taken == s.taken && s'.routed == s.routed
    && s'.flights.Keys <= s.flights.Keys && forall p | p in s'.flights :: s'.flights[p] == s.flights[p]
  }

  /** A flight and its record carry over to any state that extends the accepted frames by none of that party's. */
  lemma FlightCarries(c: Config, s: State, s': State, p: Party)
    requires Shaped(s) && Shaped(s') && p in s.flights && FlightOk(c, s, p)
    requires p in s'.flights && s'.flights[p] == s.flights[p] && s'.placed == s.placed
    requires |s.accepted| <= |s'.accepted| && forall id | 0 <= id < |s.accepted| :: s'.accepted[id] == s.accepted[id]
    requires forall id | |s.accepted| <= id < |s'.accepted| :: s'.accepted[id].fromParty != NameOf(c, p)
    ensures FlightOk(c, s', p)
  {
    hide Route;
  }

  lemma SameDeliveryOk(c: Config, lib: Lib, s: State, s': State)
    requires DeliveryOk(c, lib, s) && SameDelivery(s, s')
    ensures DeliveryOk(c, lib, s')
  {
    hide Wellformed, Route, FlightOk, RoutedOk;
    assert PlacedAlongRoutes(c, s') && InOrder(c, s') && QueuesOk(s');
    forall p | p in s'.flights
      ensures FlightOk(c, s', p) && s'.flights[p].id !in s'.routed
    {
      FlightCarries(c, s, s', p);
    }
    SameRouted(c, s, s');
  }

  lemma SameRouted(c: Config, s: State, s': State)
    requires Shaped(s) && Shaped(s') && AllRoutedOk(c, s)
    requires s'.placed == s.placed && s'.routed == s.routed
    requires |s.accepted| <= |s'.accepted| && forall id | 0 <= id < |s.accepted| :: s'.accepted[id] == s.accepted[id]
    ensures AllRoutedOk(c, s')
  {
    hide Route;
    forall id | id in s'.routed
      ensures RoutedOk(c, s', id)
    {
      assert RoutedOk(c, s, id);
    }
  }

  lemma NewFlightOk(c: Config, lib: Lib, s: State, p: Party, f: Frame)
    requires DeliveryOk(c, lib, s) && f.fromParty == NameOf(c, p)
    ensures var s' := Accept(c, lib, s, p, f); Shaped(s') && FlightOk(c, s', p) && s'.flights[p].id !in s'.routed
  {
    hide Wellformed, Route, InOrder, FlightsOk, QueuesOk;
    var s', n := Accept(c, lib, s, p, f), |s.accepted|;
    assert forall id | id in s.routed :: RoutedOk(c, s, id);
    forall d: Dest
      ensures n !in s'.placed[d]
    {
      assert forall i | 0 <= i < |s.placed[d]| :: s.placed[d][i] < n;
    }
  }

  lemma AcceptKeepsPlaces(c: Config, lib: Lib, s: State, p: Party, f: Frame)
    requires Shaped(s) && PlacedAlongRoutes(c, s) && InOrder(c, s) && QueuesOk(s)
    ensures var s' := Accept(c, lib, s, p, f); Shaped(s') && PlacedAlongRoutes(c, s') && InOrder(c, s') && QueuesOk(s')
  {
    hide Route;
    var s' := Accept(c, lib, s, p, f);
    assert forall id | 0 <= id < |s.accepted| :: s'.accepted[id] == s.accepted[id];
  }

  lemma AcceptOk(c: Config, lib: Lib, s: State, p: Party, f: Frame)
    requires ValidConfig(c) && DeliveryOk(c, lib, s) && p !in s.flights
    requires Wellformed(c, lib, f) && f.fromParty == NameOf(c, p)
    ensures DeliveryOk(c, lib, Accept(c, lib, s, p, f))
  {
    hide Wellformed, Route, FlightOk, RoutedOk, PlacedAlongRoutes, InOrder, QueuesOk, AllRoutedOk;
    var s' := Accept(c, lib, s, p, f);
    AcceptKeepsPlaces(c, lib, s, p, f);
    NewFlightOk(c, lib, s, p, f);
    SameRouted(c, s, s');
    forall q | q in s'.flights
      ensures FlightOk(c, s', q) && s'.flights[q].id !in s'.routed
    {
      if q != p { FlightCarries(c, s, s', q); }
    }
  }

  /** Pushing the next copy of a flight. */
  ghost function Push(s: State, p: Party): State
    requires Shaped(s) && p in s.flights && s.flights[p].todo != []
  {
    var flight := s.flights[p];
    var d := flight.todo[0];
    s.(placed := s.placed[d := s.placed[d] + [flight.id]], flights := s.flights[p := flight.(todo := flight.todo[1..])])
  }

  /** The next place of a flight does not hold the frame yet, and the one after the push does. */
  lemma NextPlaceIsNew(c: Config, lib: Lib, s: State, p: Party)
    requires ValidConfig(c) && DeliveryOk(c, lib, s) && p in s.flights && s.flights[p].todo != []
    ensures var flight := s.flights[p];
            var route := Route(c, s.accepted[flight.id]);
            var k := |route| - |flight.todo|;
            && 0 <= k < |route| && route[k] == flight.todo[0] && flight.todo[1..] == route[k + 1..]
            && flight.id !in s.placed[route[k]]
            && forall d: Dest :: d in route[..k + 1] <==> d in route[..k] || d == route[k]
  {
    hide Route;
    assert FlightOk(c, s, p);
    var flight := s.flights[p];
    var route := Route(c, s.accepted[flight.id]);
    var k := |route| - |flight.todo|;
    RouteIsAddressees(c, lib, s.accepted[flight.id], route[k]);
    assert route[..k + 1] == route[..k] + [route[k]];
  }

  /** Another frame's placements are untouched by a push. */
  lemma PushKeepsOthers(s: State, p: Party, id: nat, d: Dest)
    requires Shaped(s) && p in s.flights && s.flights[p].todo != [] && id != s.flights[p].id
    ensures id in Push(s, p).placed[d] <==> id in s.placed[d]
  {
  }

  lemma PushedFlightOk(c: Config, lib: Lib, s: State, p: Party)
    requires ValidConfig(c) && DeliveryOk(c, lib, s) && p in s.flights && s.flights[p].todo != []
    ensures var s' := Push(s, p); Shaped(s') && FlightOk(c, s', p)
  {
    hide Wellformed, Route, InOrder, QueuesOk, AllRoutedOk, PlacedAlongRoutes, AcceptedOk, FlightsOk;
    NextPlaceIsNew(c, lib, s, p);
    var s', flight := Push(s, p), s.flights[p];
    assert FlightOk(c, s, p) by { FlightsGive(c, s, p); }
    var route := Route(c, s.accepted[flight.id]);
    var k := |route| - |flight.todo|;
    forall d: Dest
      ensures flight.id in s'.placed[d] <==> d in route[..k + 1]
    {
      assert s'.placed[d] == if d == route[k] then s.placed[d] + [flight.id] else s.placed[d];
    }
  }

  lemma FlightsGive(c: Config, s: State, p: Party)
    requires Shaped(s) && FlightsOk(c, s) && p in s.flights
    ensures FlightOk(c, s, p)
  {
    hide FlightOk;
  }

  lemma FlightsDiffer(c: Config, s: State, p: Party, q: Party)
    requires ValidConfig(c) && Shaped(s) && p in s.flights && q in s.flights && p != q && FlightsOk(c, s)
    ensures s.flights[p].id != s.flights[q].id
  {
    hide Route;
    assert FlightOk(c, s, p) && FlightOk(c, s, q);
  }

  lemma OtherFlightOk(c: Config, s: State, p: Party, q: Party)
    requires Shaped(s) && p in s.flights && s.flights[p].todo != [] && q in s.flights && p != q
    requires FlightOk(c, s, q) && s.flights[p].id != s.flights[q].id
    ensures Shaped(Push(s, p)) && FlightOk(c, Push(s, p), q)
  {
    hide Route;
    forall d: Dest
      ensures s.flights[q].id in Push(s, p).placed[d] <==> s.flights[q].id in s.placed[d]
    {
      PushKeepsOthers(s, p, s.flights[q].id, d);
    }
  }

  lemma PushKeepsFlights(c: Config, lib: Lib, s: State, p: Party)
    requires ValidConfig(c) && DeliveryOk(c, lib, s) && p in s.flights && s.flights[p].todo != []
    ensures Shaped(Push(s, p)) && FlightsOk(c, Push(s, p)) && AllRoutedOk(c, Push(s, p))
  {
    hide FlightOk, Route, InOrder, QueuesOk, PlacedAlongRoutes, AcceptedOk;
    var s' := Push(s, p);
    PushedFlightOk(c, lib, s, p);
    forall q | q in s'.flights
      ensures FlightOk(c, s', q) && s'.flights[q].id !in s'.routed
    {
      if q != p {
        FlightsDiffer(c, s, p, q);
        OtherFlightOk(c, s, p, q);
      }
    }
    forall id | id in s'.routed
      ensures RoutedOk(c, s', id)
    {
      assert RoutedOk(c, s, id);
      forall d: Dest { PushKeepsOthers(s, p, id, d); }
    }
  }

  lemma PushKeepsPlaces(c: Config, lib: Lib, s: State, p: Party)
    requires ValidConfig(c) && DeliveryOk(c, lib, s) && p in s.flights && s.flights[p].todo != []
    requires HasRoom(s, s.flights[p].todo[0])
    ensures var s' := Push(s, p); Shaped(s') && PlacedAlongRoutes(c, s') && InOrder(c, s') && QueuesOk(s')
  {
    hide Wellformed, Route, FlightsOk, AllRoutedOk, AcceptedOk, InOrder, FlightOk;
    NextPlaceIsNew(c, lib, s, p);
    var flight := s.flights[p];
    FlightsGive(c, s, p);
    FlightNames(c, s, p);
    PushKeepsOrder(c, s, p);
    assert PlacedAlongRoutes(c, Push(s, p));
    assert QueuesOk(Push(s, p));
  }

  lemma FlightNames(c: Config, s: State, p: Party)
    requires Shaped(s) && p in s.flights && FlightOk(c, s, p) && s.flights[p].todo != []
    ensures s.flights[p].id < |s.accepted| && s.flights[p].todo[0] in Route(c, s.accepted[s.flights[p].id])
  {
    hide Route;
  }

  lemma PushKeepsOrder(c: Config, s: State, p: Party)
    requires Shaped(s) && PlacedAlongRoutes(c, s) && InOrder(c, s)
    requires p in s.flights && FlightOk(c, s, p) && s.flights[p].todo != [] && s.flights[p].id !in s.placed[s.flights[p].todo[0]]
    ensures PlacedAlongRoutes(c, Push(s, p)) && InOrder(c, Push(s, p))
  {
    hide Route;
    FlightNames(c, s, p);
    var s', flight := Push(s, p), s.flights[p];
    var d := flight.todo[0];
    forall i | 0 <= i < |s.placed[d]| && s.accepted[s.placed[d][i]].fromParty == s.accepted[flight.id].fromParty
      ensures s.placed[d][i] < flight.id
    {
      assert s.placed[d][i] in s.placed[d];
    }
  }

  lemma PushOk(c: Config, lib: Lib, s: State, p: Party)
    requires ValidConfig(c) && DeliveryOk(c, lib, s) && p in s.flights && s.flights[p].todo != []
    requires HasRoom(s, s.flights[p].todo[0])
    ensures DeliveryOk(c, lib, Push(s, p)) && Deliver(s, p, Pushed) == Push(s, p)
  {
    hide Wellformed, Route, FlightsOk, AllRoutedOk, PlacedAlongRoutes, InOrder, QueuesOk;
    PushKeepsFlights(c, lib, s, p);
    PushKeepsPlaces(c, lib, s, p);
  }

  lemma DeliverOk(c: Config, lib: Lib, s: State, p: Party, outcome: Delivery)
    requires ValidConfig(c) && DeliveryOk(c, lib, s) && p in s.flights && s.flights[p].todo != []
    requires CanHappen(s, s.flights[p].todo[0], outcome)
    ensures DeliveryOk(c, lib, Deliver(s, p, outcome))
  {
    hide AcceptedOk, FlightsOk, AllRoutedOk, PlacedAlongRoutes, InOrder, QueuesOk;
    if outcome == Pushed {
      PushOk(c, lib, s, p);
    } else {
      SameDeliveryOk(c, lib, s, Deliver(s, p, outcome));
    }
  }

  lemma ReturnOk(c: Config, s: State, p: Party)
    requires Shaped(s) && p in s.flights && FlightOk(c, s, p) && s.flights[p].todo == []
    ensures RoutedOk(c, s, s.flights[p].id)
  {
    hide Route;
    var route := Route(c, s.accepted[s.flights[p].id]);
    assert route[..|route|] == route;
  }

  lemma RoutedCarries(c: Config, s: State, s': State, id: nat)
    requires Shaped(s) && Shaped(s') && RoutedOk(c, s, id) && s'.accepted == s.accepted && s'.placed == s.placed
    ensures RoutedOk(c, s', id)
  {
    hide Route;
  }

  /** The state after a routing has returned. */
  ghost function Return(s: State, p: Party): State
    requires p in s.flights
  {
    s.(flights := s.flights - {p}, routed := s.routed + {s.flights[p].id}, sending := s.sending - {p})
  }

  lemma ReturnsStep(c: Config, lib: Lib, s: State, p: Party)
    requires ValidConfig(c) && DeliveryOk(c, lib, s) && p in s.flights && s.flights[p].todo == []
    ensures DeliveryOk(c, lib, Return(s, p))
  {
    hide Wellformed, FlightOk, RoutedOk, Route;
    var s' := Return(s, p);
    forall q | q in s'.flights
      ensures FlightOk(c, s', q) && s'.flights[q].id !in s'.routed
    {
      FlightCarries(c, s, s', q);
      FlightsDiffer(c, s, p, q);
    }
    forall id | id in s'.routed
      ensures RoutedOk(c, s', id)
    {
      if id == s.flights[p].id { ReturnOk(c, s, p); }
      RoutedCarries(c, s, s', id);
    }
  }

  lemma DeliveryStep(c: Config, lib: Lib, s: State, e: Event)
    requires ValidConfig(c) && DeliveryOk(c, lib, s) && Next(c, lib, s, e).Some?
    ensures DeliveryOk(c, lib, Next(c, lib, s, e).value)
  {
    hide DeliveryOk, Next, SameDelivery;
    var s' := Next(c, lib, s, e).value;
    if e.RecordSend? || e.NetworkFrame? {
      OfferStep(c, lib, s, e);
    } else if e.DeliverNext? || e.SendReturns? || e.TakeFrame? {
      PlaceStep(c, lib, s, e);
    } else {
      OtherStep(c, lib, s, e);
      SameDeliveryOk(c, lib, s, s');
    }
  }

  /** The terminal protocol does not touch delivery. */
  lemma OtherStep(c: Config, lib: Lib, s: State, e: Event)
    requires Next(c, lib, s, e).Some?
    requires !(e.RecordSend? || e.NetworkFrame? || e.DeliverNext? || e.SendReturns? || e.TakeFrame?)
    ensures SameDelivery(s, Next(c, lib, s, e).value)
  {
    hide Judge, Accept, Deliver, CanHappen, SendNext, ReceiveNext, NetworkNext, ControlNext;
    if IsReceive(e) {
      ReceiveKeepsDelivery(s, e);
    } else if e.BeginSend? {
      BeginSendKeepsDelivery(c, lib, s, e);
    } else if IsNetwork(e) {
      NetworkKeepsDelivery(c, lib, s, e);
    } else {
      ControlKeepsDelivery(s, e);
    }
  }

  lemma ReceiveKeepsDelivery(s: State, e: Event)
    requires IsReceive(e) && !e.TakeFrame? && ReceiveNext(s, e).Some?
    ensures SameDelivery(s, ReceiveNext(s, e).value)
  {
    hide Returning;
  }

  lemma BeginSendKeepsDelivery(c: Config, lib: Lib, s: State, e: Event)
    requires e.BeginSend? && SendNext(c, lib, s, e).Some?
    ensures SameDelivery(s, SendNext(c, lib, s, e).value)
  {
    hide Judge, Accept, Deliver, CanHappen;
  }

  lemma NetworkKeepsDelivery(c: Config, lib: Lib, s: State, e: Event)
    requires IsNetwork(e) && !e.NetworkFrame? && NetworkNext(c, lib, s, e).Some?
    ensures SameDelivery(s, NetworkNext(c, lib, s, e).value)
  {
    hide Judge, Accept;
  }

  lemma ControlKeepsDelivery(s: State, e: Event)
    requires !IsSend(e) && !IsReceive(e) && !IsNetwork(e) && ControlNext(s, e).Some?
    ensures SameDelivery(s, ControlNext(s, e).value)
  {
  }

  /** A frame offered by a party or by the network. */
  lemma OfferStep(c: Config, lib: Lib, s: State, e: Event)
    requires ValidConfig(c) && DeliveryOk(c, lib, s) && Next(c, lib, s, e).Some? && (e.RecordSend? || e.NetworkFrame?)
    ensures DeliveryOk(c, lib, Next(c, lib, s, e).value)
  {
    hide DeliveryOk, Wellformed, Route, Accept, Judge;
    var s', p := Next(c, lib, s, e).value, if e.RecordSend? then e.party else Platform;
    if s.finishing || Judge(c, lib, s.accepted, e.frame, NameOf(c, p)) != Accepted {
      SameDeliveryOk(c, lib, s, s');
    } else {
      AcceptedIsWellformed(c, lib, s, e.frame, p);
      AcceptOk(c, lib, s, p, e.frame);
    }
  }

  /** A step of a flight, or of a receiver. */
  lemma PlaceStep(c: Config, lib: Lib, s: State, e: Event)
    requires ValidConfig(c) && DeliveryOk(c, lib, s) && Next(c, lib, s, e).Some?
    requires e.DeliverNext? || e.SendReturns? || e.TakeFrame?
    ensures DeliveryOk(c, lib, Next(c, lib, s, e).value)
  {
    hide DeliveryOk, Wellformed, Route, Deliver, CanHappen;
    match e
    case DeliverNext(p, outcome) =>
      DeliverOk(c, lib, s, p, outcome);
      SameDeliveryOk(c, lib, Deliver(s, p, outcome), Next(c, lib, s, e).value);
    case SendReturns(p) => ReturnsStep(c, lib, s, p);
    case TakeFrame(d) =>
      ReceiveStep(c, lib, s, d);
      SameDeliveryOk(c, lib, s.(taken := s.taken[d := s.taken[d] + 1]), Next(c, lib, s, e).value);
  }

  lemma AcceptedIsWellformed(c: Config, lib: Lib, s: State, f: Frame, p: Party)
    requires Judge(c, lib, s.accepted, f, NameOf(c, p)) == Accepted
    ensures Wellformed(c, lib, f) && f.fromParty == NameOf(c, p)
  {
    HeaderNamesSender(c, lib, f, NameOf(c, p));
  }

  lemma ReceiveStep(c: Config, lib: Lib, s: State, d: Dest)
    requires DeliveryOk(c, lib, s) && s.taken[d] < |s.placed[d]|
    ensures DeliveryOk(c, lib, s.(taken := s.taken[d := s.taken[d] + 1]))
  {
    hide Wellformed, Route, FlightOk, RoutedOk;
    var s' := s.(taken := s.taken[d := s.taken[d] + 1]);
    forall p | p in s'.flights
      ensures FlightOk(c, s', p)
    {
      FlightCarries(c, s, s', p);
    }
    forall id | id in s'.routed
      ensures RoutedOk(c, s', id)
    {
      RoutedCarries(c, s, s', id);
    }
  }

  lemma {:induction false} DeliveryThroughout(c: Config, lib: Lib, s: State, events: seq<Event>)
    requires ValidConfig(c) && DeliveryOk(c, lib, s) && Play(c, lib, s, events).Some?
    ensures DeliveryOk(c, lib, Play(c, lib, s, events).value)
    decreases events
  {
    if events != [] {
      DeliveryStep(c, lib, s, events[0]);
      DeliveryThroughout(c, lib, Next(c, lib, s, events[0]).value, events[1..]);
    }
  }

  /** Exactly one index holds the frame. */
  ghost predicate OnceIn(ids: seq<nat>, id: nat) {
    exists i :: 0 <= i < |ids| && ids[i] == id && forall j | 0 <= j < |ids| && ids[j] == id :: j == i
  }

  /**
    In every run, each routing that succeeded has placed exactly one copy of its
    frame with each party the frame addresses and none anywhere else; in
    particular none with its sender, and none on the network unless the
    platform is addressed.
  */
  lemma SuccessPlacesExactlyOnce(c: Config, lib: Lib, events: seq<Event>, id: nat, d: Dest)
    requires ValidConfig(c) && Play(c, lib, INITIAL, events).Some?
    requires id in Play(c, lib, INITIAL, events).value.routed
    ensures var s := Play(c, lib, INITIAL, events).value;
            && id < |s.accepted| && d in s.placed
            && (Addressed(c, s.accepted[id], PartyAt(d)) ==> OnceIn(s.placed[d], id))
            && (!Addressed(c, s.accepted[id], PartyAt(d)) ==> id !in s.placed[d])
            && (NameOf(c, PartyAt(d)) == s.accepted[id].fromParty ==> id !in s.placed[d])
  {
    InitiallyOk(c, lib);
    DeliveryThroughout(c, lib, INITIAL, events);
    var s := Play(c, lib, INITIAL, events).value;
    assert RoutedOk(c, s, id);
    RouteIsAddressees(c, lib, s.accepted[id], d);
    if Addressed(c, s.accepted[id], PartyAt(d)) {
      var i :| 0 <= i < |s.placed[d]| && s.placed[d][i] == id;
      assert forall j | 0 <= j < |s.placed[d]| && s.placed[d][j] == id :: j == i;
    }
  }

  /**
    In every run with one send at a time per party: a queue never holds more
    than 256 frames, and every queue and the network have received each
    sender's frames in the order they were accepted.
  */
  lemma QueuesAreBoundedAndOrdered(c: Config, lib: Lib, events: seq<Event>, d: Dest, i: nat, j: nat)
    requires ValidConfig(c) && Play(c, lib, INITIAL, events).Some?
    ensures var s := Play(c, lib, INITIAL, events).value;
            && d in s.placed && d in s.taken
            && s.taken[d] <= |s.placed[d]| && (d != Network ==> |s.placed[d]| - s.taken[d] <= QUEUE_CAPACITY)
            && (i < j < |s.placed[d]| ==>
                  var a, b := s.placed[d][i], s.placed[d][j];
                  && a < |s.accepted| && b < |s.accepted|
                  && (s.accepted[a].fromParty == s.accepted[b].fromParty ==> a < b))
  {
    InitiallyOk(c, lib);
    DeliveryThroughout(c, lib, INITIAL, events);
  }

  // ---- What the parties receive ----

  /** The positions returned so far go up, and the one in hand is beyond them. */
  predicate CallOk(handed: seq<nat>, taken: nat, inHand: Option<nat>) {
    && (forall i, j | 0 <= i < j < |handed| :: handed[i] < handed[j])
    && (forall i | 0 <= i < |handed| :: handed[i] < taken && (inHand.Some? ==> handed[i] < inHand.value))
    && (inHand.Some? ==> inHand.value < taken)
  }

  function InHand(calls: Calls, d: Dest): Option<nat> {
    if d in calls.receiving then calls.receiving[d] else None
  }

  ghost predicate HandedOk(s: State) {
    forall d: Dest :: d in s.calls.handed && d in s.taken && CallOk(s.calls.handed[d], s.taken[d], InHand(s.calls, d))
  }

  lemma HandedStep(c: Config, lib: Lib, s: State, e: Event)
    requires HandedOk(s) && Next(c, lib, s, e).Some?
    ensures HandedOk(Next(c, lib, s, e).value)
  {
    hide SendNext, ReceiveNext, NetworkNext, ControlNext;
    if IsReceive(e) {
      ReceiveKeepsHanded(s, e, e.dest);
    } else {
      OthersKeepReceives(c, lib, s, e);
    }
  }

  lemma ReceiveKeepsHanded(s: State, e: Event, d: Dest)
    requires HandedOk(s) && IsReceive(e) && e.dest == d && ReceiveNext(s, e).Some?
    ensures HandedOk(ReceiveNext(s, e).value)
  {
    var s' := ReceiveNext(s, e).value;
    forall o: Dest
      ensures o in s'.calls.handed && o in s'.taken && CallOk(s'.calls.handed[o], s'.taken[o], InHand(s'.calls, o))
    {
      assert o in s.calls.handed && o in s.taken && CallOk(s.calls.handed[o], s.taken[o], InHand(s.calls, o));
      if o != d {
        hide CallOk;
        assert s'.calls.handed[o] == s.calls.handed[o] && s'.taken[o] == s.taken[o] && InHand(s'.calls, o) == InHand(s.calls, o);
      }
    }
  }

  lemma {:induction false} HandedThroughout(c: Config, lib: Lib, s: State, events: seq<Event>)
    requires HandedOk(s) && Play(c, lib, s, events).Some?
    ensures HandedOk(Play(c, lib, s, events).value)
    decreases events
  {
    hide Next, HandedOk;
    if events != [] {
      HandedStep(c, lib, s, events[0]);
      HandedThroughout(c, lib, Next(c, lib, s, events[0]).value, events[1..]);
    }
  }

  /**
    In every run, what a party's receives return are frames addressed to it, no
    placement twice and in the order they were placed; so each sender's frames
    arrive in the order they were accepted.
  */
  lemma ReceivedInOrder(c: Config, lib: Lib, events: seq<Event>, d: Dest, i: nat, j: nat)
    requires ValidConfig(c) && Play(c, lib, INITIAL, events).Some?
    ensures var s := Play(c, lib, INITIAL, events).value;
            && d in s.calls.handed && d in s.placed
            && (i < j < |s.calls.handed[d]| ==>
                  var p, q := s.calls.handed[d][i], s.calls.handed[d][j];
                  && p < q < |s.placed[d]|
                  && (var a, b := s.placed[d][p], s.placed[d][q];
                      && a < |s.accepted| && b < |s.accepted|
                      && Addressed(c, s.accepted[a], PartyAt(d)) && Addressed(c, s.accepted[b], PartyAt(d))
                      && (s.accepted[a].fromParty == s.accepted[b].fromParty ==> a < b)))
  {
    hide Next, Route, Addressed;
    InitiallyOk(c, lib);
    DeliveryThroughout(c, lib, INITIAL, events);
    InitiallyHanded();
    HandedThroughout(c, lib, INITIAL, events);
    var s := Play(c, lib, INITIAL, events).value;
    if i < j < |s.calls.handed[d]| {
      RouteIsAddressees(c, lib, s.accepted[s.placed[d][s.calls.handed[d][i]]], d);
      RouteIsAddressees(c, lib, s.accepted[s.placed[d][s.calls.handed[d][j]]], d);
    }
  }

  lemma InitiallyHanded()
    ensures HandedOk(INITIAL)
  {
    forall d: Dest
      ensures d in INITIAL.calls.handed && d in INITIAL.taken && INITIAL.calls.handed[d] == []
    {
      match d case PrimaryQueue => case RecoveryQueue => case Network =>
    }
  }
}
