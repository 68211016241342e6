/** The backend's session lifecycle and its validation. */
module Lifecycle {
  import opened Common

  /** Nanoseconds since the Unix epoch. */
  type Time = int

  const SECOND: int := 1_000_000_000

  /** The zero `time.Time`, January 1 of year 1. */
  const ZERO_TIME: Time := -62_135_596_800 * SECOND

  datatype Kind = AnyKind | Dkg | Sign

  datatype Status = Pending | Running | Completed | Failed | TimedOut | OtherStatus(text: string)

  datatype Session = Session(
    sessionId: string, status: Status, startedAt: Option<Time>, deadline: Time, executionExpiresAt: Option<Time>)

  function Earlier(a: Time, b: Time): Time {
    if a < b then a else b
  }

  /** Whether an observation is bound to the given operation. */
  predicate ValidSession(s: Session, kind: Kind, sessionId: string, deadline: Time) {
    && s.sessionId != "" && (sessionId != "" ==> s.sessionId == sessionId)
    && s.deadline > 0 && (deadline != ZERO_TIME ==> s.deadline == deadline)
    && !s.status.OtherStatus?
    && (s.status == Pending ==> s.startedAt.None?)
    && (s.status == Running ==> s.startedAt.Some?)
    && (s.startedAt.Some? ==> 0 < s.startedAt.value < s.deadline)
    && (s.startedAt.None? ==> s.executionExpiresAt.None?)
    && (kind == Dkg ==> s.executionExpiresAt.None?)
    && (kind == Sign && s.startedAt.Some? ==> s.executionExpiresAt.Some?)
    && (s.executionExpiresAt.Some? ==>
          s.executionExpiresAt.value == Earlier(s.startedAt.value + 300 * SECOND, s.deadline))
  }

  /** Where an execution stands in time: started before the deadline, and expiring after 300 seconds or at the deadline, whichever is first. */
  predicate Timed(s: Session, kind: Kind) {
    && s.startedAt.Some? && 0 < s.startedAt.value < s.deadline
    && match kind
       case Dkg => s.executionExpiresAt.None?
       case Sign => ExpiresInTime(s)
       case AnyKind => s.executionExpiresAt.None? || ExpiresInTime(s)
  }

  predicate ExpiresInTime(s: Session)
    requires s.startedAt.Some?
  {
    var limit := s.startedAt.value + 300 * SECOND;
    s.executionExpiresAt == Some(if limit <= s.deadline then limit else s.deadline)
  }

  predicate Unstarted(s: Session) {
    s.startedAt.None? && s.executionExpiresAt.None?
  }

  /** An observation is valid if and only if it is bound to the operation and its times fit its status. */
  lemma ValidExactly(s: Session, kind: Kind, sessionId: string, deadline: Time)
    ensures ValidSession(s, kind, sessionId, deadline) <==>
              && s.sessionId != "" && sessionId in {"", s.sessionId} && s.deadline > 0 && deadline in {ZERO_TIME, s.deadline}
              && match s.status
                 case Pending => Unstarted(s)
                 case Running => Timed(s, kind)
                 case OtherStatus(_) => false
                 case _ => Unstarted(s) || Timed(s, kind)
  {
  }
}
