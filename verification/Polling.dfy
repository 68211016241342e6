/** The transport's poll loop: lifecycle checks on every observation, and the delivery cursor. */
module Polling {
  import opened Common
  import opened Lifecycle

  /** A message as fetched; its delivery number is an unsigned 64-bit integer. */
  datatype Message = Message(deliverySeq: nat, content: string)

  datatype Answer = PollFailed | InvalidAnswer | Fetched(session: Session, messages: seq<Message>)

  /**
    One turn of the loop as the world decides it: whether the loop is told to
    stop before or after the call, the answer, the clock, the order in which
    sorting leaves the messages, how many of them are taken before a stop, and
    whether the pause is cut short.
  */
  datatype Turn = Turn(
    stopsBefore: bool, answer: Answer, stopsAfter: bool, now: Time, sorted: seq<Message>, taken: nat, pauseEnds: bool)

  predicate Ascending(messages: seq<Message>) {
    forall i, j | 0 <= i < j < |messages| :: messages[i].deliverySeq <= messages[j].deliverySeq
  }

  ghost predicate ValidTurn(t: Turn) {
    t.answer.Fetched? ==> Ascending(t.sorted) && multiset(t.sorted) == multiset(t.answer.messages)
  }

  /** `validatePolledSession`. */
  predicate Acceptable(kind: Kind, sessionId: string, previous: Session, current: Session, now: Time) {
    && ValidSession(current, kind, sessionId, previous.deadline)
    && (kind == Sign ==>
          && current.status == Running && current.deadline > now
          && current.executionExpiresAt.Some? && current.executionExpiresAt.value > now
          && (previous.startedAt.Some? ==>
                && previous.executionExpiresAt.Some?
                && current.startedAt == previous.startedAt
                && current.executionExpiresAt == previous.executionExpiresAt))
  }

  /** What one accepted observation did: when it was checked, the cursor it was fetched with, its messages in order, and how many were handed over. */
  datatype Batch = Batch(session: Session, now: Time, after: nat, messages: seq<Message>, handed: nat)

  predicate WholeBatch(b: Batch) {
    b.handed == |b.messages|
  }

  function Cursor(after: nat, messages: seq<Message>): nat {
    if messages == [] then after
    else
      var before := Cursor(after, messages[..|messages| - 1]);
      var last := messages[|messages| - 1].deliverySeq;
      if before < last then last else before
  }

  function CursorAfter(b: Batch): nat
    requires b.handed <= |b.messages|
  {
    Cursor(b.after, b.messages[..b.handed])
  }

  predicate InBounds(batches: seq<Batch>) {
    forall i | 0 <= i < |batches| :: batches[i].handed <= |batches[i].messages|
  }

  function CursorBefore(batches: seq<Batch>, i: nat): nat
    requires i <= |batches| && InBounds(batches)
  {
    if i == 0 then 0 else CursorAfter(batches[i - 1])
  }

  /** Each batch is fetched with the cursor the previous one left, and all but the last are handed over whole. */
  predicate Linked(batches: seq<Batch>)
    requires InBounds(batches)
  {
    forall i | 0 <= i < |batches| ::
      && Ascending(batches[i].messages)
      && batches[i].after == CursorBefore(batches, i)
      && (i + 1 < |batches| ==> WholeBatch(batches[i]))
  }

  /** Each observation passed the checks against the one before it. */
  predicate Checked(kind: Kind, sessionId: string, baseline: Session, batches: seq<Batch>) {
    forall i | 0 <= i < |batches| ::
      Acceptable(kind, sessionId, Previous(baseline, batches, i), batches[i].session, batches[i].now)
  }

  /** The batches of one run. */
  predicate Chain(kind: Kind, sessionId: string, baseline: Session, batches: seq<Batch>) {
    InBounds(batches) && Linked(batches) && Checked(kind, sessionId, baseline, batches)
  }

  function Previous(baseline: Session, batches: seq<Batch>, i: nat): Session
    requires i < |batches|
  {
    if i == 0 then baseline else batches[i - 1].session
  }

  function FinalCursor(batches: seq<Batch>): nat
    requires InBounds(batches)
  {
    CursorBefore(batches, |batches|)
  }

  /** Everything handed over in a run, in order. */
  function HandedOver(batches: seq<Batch>): seq<Message>
    requires InBounds(batches)
  {
    if batches == [] then []
    else
      var b := batches[|batches| - 1];
      HandedOver(batches[..|batches| - 1]) + b.messages[..b.handed]
  }

  /** `deliverMessages` on messages already in order; the world takes the first `taken` of them. */
  method DeliverMessages(messages: seq<Message>, taken: nat, after: nat) returns (cursor: nat, handed: nat)
    ensures handed == (if taken < |messages| then taken else |messages|)
    ensures cursor == Cursor(after, messages[..handed])
  {
    cursor, handed := after, 0;
    while handed < |messages|
      invariant handed <= |messages| && handed <= taken
      invariant cursor == Cursor(after, messages[..handed])
    {
      if handed == taken {
        return;
      }
      assert messages[..handed + 1][..handed] == messages[..handed];
      if cursor < messages[handed].deliverySeq {
        cursor := messages[handed].deliverySeq;
      }
      handed := handed + 1;
    }
    assert messages[..handed] == messages;
  }

  /** The sessions fetched in the given turns. */
  function FetchedSessions(turns: seq<Turn>): seq<Session> {
    if turns == [] then []
    else
      var t := turns[|turns| - 1];
      FetchedSessions(turns[..|turns| - 1]) + (if t.answer.Fetched? then [t.answer.session] else [])
  }

  /** The session fetched last in the given turns. */
  function LastFetched(baseline: Session, turns: seq<Turn>): Session {
    var fetched := FetchedSessions(turns);
    if fetched == [] then baseline else fetched[|fetched| - 1]
  }

  function Sessions(batches: seq<Batch>): seq<Session> {
    seq(|batches|, i requires 0 <= i < |batches| => batches[i].session)
  }

  /** Why the loop leaves at a turn without an accepted observation. */
  predicate Leaves(kind: Kind, sessionId: string, previous: Session, t: Turn) {
    || t.stopsBefore || t.stopsAfter || t.answer.InvalidAnswer?
    || (t.answer.PollFailed? && t.pauseEnds)
    || (t.answer.Fetched? && !Acceptable(kind, sessionId, previous, t.answer.session, t.now))
  }

  /** Why the loop leaves after an accepted observation. */
  predicate LeavesAfter(t: Turn) {
    t.answer.Fetched? && (t.taken < |t.sorted| || (t.answer.messages == [] && t.pauseEnds))
  }

  predicate StopsTransport(kind: Kind, sessionId: string, previous: Session, t: Turn) {
    && !t.stopsBefore && !t.stopsAfter
    && (t.answer.InvalidAnswer? || (t.answer.Fetched? && !Acceptable(kind, sessionId, previous, t.answer.session, t.now)))
  }

  function Latest(baseline: Session, batches: seq<Batch>): Session {
    if batches == [] then baseline else batches[|batches| - 1].session
  }

  /**
    The poll loop over a finite script of turns. `ended` counts the turns it
    went through; `stopped` is whether it stopped the transport with a
    lifecycle error at turn `ended`.
  */
  method Poll(kind: Kind, sessionId: string, baseline: Session, turns: seq<Turn>)
    returns (batches: seq<Batch>, cursor: nat, ended: nat, stopped: bool)
    requires forall t | t in turns :: ValidTurn(t)
    ensures Chain(kind, sessionId, baseline, batches)
    ensures cursor == FinalCursor(batches)
    ensures ended <= |turns| && Sessions(batches) == FetchedSessions(turns[..ended])
    ensures ended == |turns| || Leaves(kind, sessionId, Latest(baseline, batches), turns[ended])
         || (ended > 0 && LeavesAfter(turns[ended - 1]))
    ensures forall i | 0 <= i < ended :: !Leaves(kind, sessionId, LastFetched(baseline, turns[..i]), turns[i])
    ensures forall i | 0 <= i < ended - 1 :: !LeavesAfter(turns[i])
    ensures stopped ==> ended < |turns| && StopsTransport(kind, sessionId, Latest(baseline, batches), turns[ended])
    ensures ended < |turns| && StopsTransport(kind, sessionId, Latest(baseline, batches), turns[ended]) ==>
              stopped || (ended > 0 && LeavesAfter(turns[ended - 1]))
  {
    hide Acceptable, Linked, Checked, Cursor, Ascending, Sessions, FetchedSessions;
    batches, cursor, ended, stopped := [], 0, 0, false;
    EmptyChain(kind, sessionId, baseline, turns);
    var previous := baseline;
    while ended < |turns|
      invariant ended <= |turns| && Sessions(batches) == FetchedSessions(turns[..ended])
      invariant Chain(kind, sessionId, baseline, batches)
      invariant cursor == FinalCursor(batches) && !stopped
      invariant previous == Latest(baseline, batches)
      invariant batches != [] ==> WholeBatch(batches[|batches| - 1])
      invariant previous == LastFetched(baseline, turns[..ended])
      invariant forall i | 0 <= i < ended :: !Leaves(kind, sessionId, LastFetched(baseline, turns[..i]), turns[i]) && !LeavesAfter(turns[i])
    {
      var t := turns[ended];
      assert t in turns;
      if t.stopsBefore || t.stopsAfter {
        return;
      }
      FetchedStep(turns, ended);
      match t.answer
      case InvalidAnswer =>
        stopped := true;
        return;
      case PollFailed =>
        if t.pauseEnds {
          return;
        }
        ended := ended + 1;
      case Fetched(session, messages) =>
        if !Acceptable(kind, sessionId, previous, session, t.now) {
          stopped := true;
          return;
        }
        var after := cursor;
        var handed;
        cursor, handed := DeliverMessages(t.sorted, t.taken, after);
        ChainGrows(kind, sessionId, baseline, batches, Batch(session, t.now, after, t.sorted, handed));
        batches := batches + [Batch(session, t.now, after, t.sorted, handed)];
        previous := session;
        ended := ended + 1;
        if handed < |t.sorted| || (messages == [] && t.pauseEnds) {
          return;
        }
    }
  }

  lemma EmptyChain(kind: Kind, sessionId: string, baseline: Session, turns: seq<Turn>)
    ensures Chain(kind, sessionId, baseline, []) && Sessions([]) == FetchedSessions(turns[..0]) == []
  {
  }

  lemma FetchedStep(turns: seq<Turn>, n: nat)
    requires n < |turns|
    ensures FetchedSessions(turns[..n + 1])
         == FetchedSessions(turns[..n]) + (if turns[n].answer.Fetched? then [turns[n].answer.session] else [])
  {
    assert turns[..n + 1][..n] == turns[..n];
  }

  lemma ChainGrows(kind: Kind, sessionId: string, baseline: Session, batches: seq<Batch>, b: Batch)
    requires Chain(kind, sessionId, baseline, batches) && (batches != [] ==> WholeBatch(batches[|batches| - 1]))
    requires b.handed <= |b.messages| && Ascending(b.messages) && b.after == FinalCursor(batches)
    requires Acceptable(kind, sessionId, if batches == [] then baseline else batches[|batches| - 1].session, b.session, b.now)
    ensures Chain(kind, sessionId, baseline, batches + [b]) && FinalCursor(batches + [b]) == CursorAfter(b)
    ensures Sessions(batches + [b]) == Sessions(batches) + [b.session]
  {
    hide Acceptable, Ascending, Cursor;
    var grown := batches + [b];
    LinkGrows(batches, b);
    forall i | 0 <= i < |grown|
      ensures Acceptable(kind, sessionId, Previous(baseline, grown, i), grown[i].session, grown[i].now)
    {
      if i < |batches| {
        assert Previous(baseline, grown, i) == Previous(baseline, batches, i);
      }
    }
  }

  lemma LinkGrows(batches: seq<Batch>, b: Batch)
    requires InBounds(batches) && Linked(batches) && (batches != [] ==> WholeBatch(batches[|batches| - 1]))
    requires b.handed <= |b.messages| && Ascending(b.messages) && b.after == FinalCursor(batches)
    ensures InBounds(batches + [b]) && Linked(batches + [b])
  {
    hide Ascending;
    var grown := batches + [b];
    forall i | 0 <= i < |grown|
      ensures Ascending(grown[i].messages) && grown[i].after == CursorBefore(grown, i)
      ensures i + 1 < |grown| ==> WholeBatch(grown[i])
    {
      assert i < |batches| ==> grown[i] == batches[i];
      assert CursorBefore(grown, i) == CursorBefore(batches, i);
    }
  }

  /**
    Every accepted observation of a SIGN run has the same start, deadline and
    expiry; the expiry is the earlier of start plus 300 seconds and the deadline,
    and a baseline that had started agrees with all of them.
  */
  lemma {:induction false} ObservationsAgree(sessionId: string, baseline: Session, batches: seq<Batch>, i: nat, j: nat)
    requires Chain(Sign, sessionId, baseline, batches) && i <= j < |batches|
    ensures batches[i].session.status == Running && batches[j].session.status == Running
    ensures Agree(batches[i].session, batches[j].session) && Agree(baseline, batches[i].session)
    ensures var a := batches[i].session;
            a.startedAt.Some? && a.executionExpiresAt == Some(Earlier(a.startedAt.value + 300 * SECOND, a.deadline))
    decreases j
  {
    hide Linked, Cursor, Acceptable;
    StepAgrees(sessionId, Previous(baseline, batches, j), batches[j].session, batches[j].now);
    if i < j {
      ObservationsAgree(sessionId, baseline, batches, i, j - 1);
    } else if i > 0 {
      ObservationsAgree(sessionId, baseline, batches, i - 1, i - 1);
    }
  }

  lemma StepAgrees(sessionId: string, previous: Session, current: Session, now: Time)
    requires Acceptable(Sign, sessionId, previous, current, now)
    ensures Agree(previous, current) && current.status == Running && current.deadline != ZERO_TIME
    ensures current.startedAt.Some?
    ensures current.executionExpiresAt == Some(Earlier(current.startedAt.value + 300 * SECOND, current.deadline))
  {
  }

  /** The later session keeps the start, expiry and deadline the earlier one had, where it had them. */
  predicate Agree(earlier: Session, later: Session) {
    && (earlier.startedAt.Some? ==>
          earlier.startedAt == later.startedAt && earlier.executionExpiresAt == later.executionExpiresAt)
    && (earlier.deadline != ZERO_TIME ==> earlier.deadline == later.deadline)
  }

  // ---- The cursor ----

  /** A cursor is its start or the largest number taken since. */
  lemma {:induction false} CursorIsMaximum(after: nat, messages: seq<Message>)
    ensures Cursor(after, messages) >= after
    ensures forall m | m in messages :: m.deliverySeq <= Cursor(after, messages)
    ensures Cursor(after, messages) == after || exists m :: m in messages && m.deliverySeq == Cursor(after, messages)
  {
    if messages != [] {
      var front, last := messages[..|messages| - 1], messages[|messages| - 1];
      CursorIsMaximum(after, front);
      assert messages == front + [last];
      assert last in messages;
    }
  }

  lemma {:induction false} CursorConcat(after: nat, a: seq<Message>, b: seq<Message>)
    ensures Cursor(Cursor(after, a), b) == Cursor(after, a + b)
  {
    if b == [] {
      assert a + b == a;
    } else {
      CursorConcat(after, a, b[..|b| - 1]);
      assert (a + b)[..|a + b| - 1] == a + b[..|b| - 1];
    }
  }

  lemma {:induction false} CursorFollowsHandedOver(kind: Kind, sessionId: string, baseline: Session, batches: seq<Batch>)
    requires Chain(kind, sessionId, baseline, batches)
    ensures FinalCursor(batches) == Cursor(0, HandedOver(batches))
  {
    if batches != [] {
      var front, b := batches[..|batches| - 1], batches[|batches| - 1];
      ChainPrefix(kind, sessionId, baseline, batches);
      CursorFollowsHandedOver(kind, sessionId, baseline, front);
      CursorConcat(0, HandedOver(front), b.messages[..b.handed]);
    }
  }

  lemma ChainPrefix(kind: Kind, sessionId: string, baseline: Session, batches: seq<Batch>)
    requires Chain(kind, sessionId, baseline, batches) && batches != []
    ensures Chain(kind, sessionId, baseline, batches[..|batches| - 1])
    ensures batches[|batches| - 1].after == FinalCursor(batches[..|batches| - 1])
  {
    hide Acceptable, Ascending;
    var front := batches[..|batches| - 1];
    forall i | 0 <= i < |front|
      ensures Ascending(front[i].messages) && front[i].after == CursorBefore(front, i)
      ensures i + 1 < |front| ==> WholeBatch(front[i])
      ensures Acceptable(kind, sessionId, Previous(baseline, front, i), front[i].session, front[i].now)
    {
      assert front[i] == batches[i] && Previous(baseline, front, i) == Previous(baseline, batches, i);
      assert CursorBefore(front, i) == CursorBefore(batches, i);
    }
  }

  /** The cursor is always the largest delivery number handed over, zero before the first. */
  lemma CursorIsLargestHandedOver(kind: Kind, sessionId: string, baseline: Session, batches: seq<Batch>)
    requires Chain(kind, sessionId, baseline, batches)
    ensures var cursor, handed := FinalCursor(batches), HandedOver(batches);
            && (forall m | m in handed :: m.deliverySeq <= cursor)
            && (cursor == 0 || exists m :: m in handed && m.deliverySeq == cursor)
  {
    CursorFollowsHandedOver(kind, sessionId, baseline, batches);
    CursorIsMaximum(0, HandedOver(batches));
  }

  /** No fetched message with a number below the cursor was left behind by this batch. */
  ghost predicate NothingSmallerLeft(b: Batch)
    requires b.handed <= |b.messages|
  {
    forall k | b.handed <= k < |b.messages| :: b.messages[k].deliverySeq >= CursorAfter(b)
  }

  /**
    Wherever the delivery of a batch is cut short, nothing smaller than the
    cursor is left undelivered if and only if the backend numbered none of the
    batch below the cursor it was asked for.
  */
  lemma NothingSmallerLeftExactly(session: Session, now: Time, after: nat, messages: seq<Message>)
    requires Ascending(messages)
    ensures (forall handed | 0 <= handed <= |messages| :: NothingSmallerLeft(Batch(session, now, after, messages, handed)))
       <==> (forall m | m in messages :: m.deliverySeq >= after)
  {
    if forall m | m in messages :: m.deliverySeq >= after {
      forall handed | 0 <= handed <= |messages|
        ensures NothingSmallerLeft(Batch(session, now, after, messages, handed))
      {
        CursorIsMaximum(after, messages[..handed]);
        forall k | handed <= k < |messages|
          ensures messages[k].deliverySeq >= Cursor(after, messages[..handed])
        {
          assert messages[k] in messages;
        }
      }
    } else {
      assert messages[..0] == [];
      assert Cursor(after, []) == after;
      var m :| m in messages && m.deliverySeq < after;
      assert !NothingSmallerLeft(Batch(session, now, after, messages, 0));
    }
  }

  /** Everything fetched in the run with a number below the final cursor was handed over. */
  ghost predicate NothingMissing(batches: seq<Batch>)
    requires InBounds(batches)
  {
    forall i, k | 0 <= i < |batches| && 0 <= k < |batches[i].messages| && batches[i].messages[k].deliverySeq < FinalCursor(batches) ::
      k < batches[i].handed
  }

  /** Where the last batch was cut short, the first message left is not below the cursor it was fetched with. */
  predicate LastCutFits(batches: seq<Batch>)
    requires InBounds(batches)
  {
    batches != [] ==>
      var last := batches[|batches| - 1];
      last.handed < |last.messages| ==> last.messages[last.handed].deliverySeq >= last.after
  }

  /**
    In every run nothing below the cursor is missing if and only if its last
    batch was handed over whole or the first message left of it is numbered at
    or above the cursor the batch was fetched with.
  */
  lemma NothingMissingExactly(kind: Kind, sessionId: string, baseline: Session, batches: seq<Batch>)
    requires Chain(kind, sessionId, baseline, batches)
    ensures NothingMissing(batches) <==> LastCutFits(batches)
  {
    hide Checked, Cursor, Linked;
    if batches != [] {
      var n := |batches| - 1;
      var last := batches[n];
      EarlierBatchesAreWhole(batches);
      assert FinalCursor(batches) == CursorAfter(last);
      CutExactly(last);
      if NothingMissing(batches) {
        assert forall k | last.handed <= k < |last.messages| :: last.messages[k].deliverySeq >= CursorAfter(last);
      }
    }
  }

  lemma EarlierBatchesAreWhole(batches: seq<Batch>)
    requires InBounds(batches) && Linked(batches)
    ensures forall i | 0 <= i < |batches| - 1 :: WholeBatch(batches[i])
    ensures batches != [] ==> Ascending(batches[|batches| - 1].messages)
  {
    hide Cursor, Ascending;
  }

  /** A cut leaves nothing smaller than the cursor exactly when its first message left is not below the requested one. */
  lemma CutExactly(b: Batch)
    requires Ascending(b.messages) && b.handed <= |b.messages|
    ensures NothingSmallerLeft(b) <==> (b.handed < |b.messages| ==> b.messages[b.handed].deliverySeq >= b.after)
  {
    hide Cursor;
    var taken := b.messages[..b.handed];
    CursorIsMaximum(b.after, taken);
    if b.handed < |b.messages| && b.messages[b.handed].deliverySeq >= b.after {
      assert forall m | m in taken :: m.deliverySeq <= b.messages[b.handed].deliverySeq;
    }
  }

  /** A run whose backend repeats the number 1 after 2 and is stopped there: message 1 stays behind the cursor. */
  lemma StaleNumberIsLeftBehind(content: string)
    ensures var s := Session("s", Running, Some(1), 10, Some(10));
            var batches := [Batch(s, 2, 0, [Message(2, content)], 1), Batch(s, 2, 2, [Message(1, content)], 0)];
            Chain(Sign, "s", s, batches) && FinalCursor(batches) == 2 && !NothingMissing(batches)
  {
    var s := Session("s", Running, Some(1), 10, Some(10));
    var batches := [Batch(s, 2, 0, [Message(2, content)], 1), Batch(s, 2, 2, [Message(1, content)], 0)];
    assert batches[0].messages[..1] == [Message(2, content)] && batches[1].messages[..0] == [];
    assert [Message(2, content)][..0] == [];
    assert Cursor(0, []) == 0 && Cursor(0, [Message(2, content)]) == 2 && Cursor(2, []) == 2;
    assert Acceptable(Sign, "s", s, s, 2);
    assert batches[1].messages[0].deliverySeq < FinalCursor(batches);
  }

  /**
    Every accepted observation is of this session and of the deadline observed
    before it; one of a SIGN run is running, and its deadline and its expiry lie
    after the time it was checked at.
  */
  lemma ObservationsAreLive(kind: Kind, sessionId: string, baseline: Session, batches: seq<Batch>, i: nat)
    requires Chain(kind, sessionId, baseline, batches) && i < |batches|
    ensures var s := batches[i].session;
            && s.sessionId != "" && (sessionId != "" ==> s.sessionId == sessionId)
            && s.deadline > 0 && (i > 0 ==> s.deadline == batches[i - 1].session.deadline)
            && (i == 0 && baseline.deadline != ZERO_TIME ==> s.deadline == baseline.deadline)
            && (s.startedAt.Some? ==> 0 < s.startedAt.value < s.deadline)
            && (kind == Dkg ==> s.executionExpiresAt.None?)
            && (kind == Sign ==>
                  && s.status == Running && s.startedAt.Some? && s.executionExpiresAt.Some?
                  && batches[i].now < s.deadline && batches[i].now < s.executionExpiresAt.value)
  {
    hide Linked, Cursor;
    var s := batches[i].session;
    assert Acceptable(kind, sessionId, Previous(baseline, batches, i), s, batches[i].now);
    if i > 0 {
      assert Acceptable(kind, sessionId, Previous(baseline, batches, i - 1), batches[i - 1].session, batches[i - 1].now);
    }
  }
}
