/**
 The history of a service's notifications, and what it determines.  The notification fields of a
 service are functions of this history (Notifications proves that every operation keeps them so);
 the lemmas here are what that means over any run.
 */
module NotificationLog {
  datatype Kind = Problem | Recovery

  datatype Entry =
    /** Contacts were notified; the next time is wait seconds later, or never when final. */
    | Sent(kind: Kind, state: int, time: int, wait: nat, final: bool, forced: bool)
    /** Another kind of notification went out that was asked to count as one. */
    | Incremented
    /** A recovery happened that nobody wants to hear of. */
    | RecoveryUnwanted
    /** The service changed its state, or turned hard. */
    | StateChange
    /** Another time was set for the next notification: by a timeperiod or a downtime. */
    | Deferred(next: int)
    /** The clock was changed, and the times with it. */
    | ClockChange(last: int, next: int, final: bool)

  datatype History = Start | Then(before: History, latest: Entry)

  /**
   The notification fields: current_notification_number, notified_on, last_ and next_notification,
   no_more_notifications.
   */
  datatype Notes = Notes(number: nat, notifiedOn: set<int>, last: int, next: int, closed: bool)

  /** How one entry moves the fields. */
  function Advance(n: Notes, e: Entry): Notes {
    match e
    case Sent(Problem, state, time, wait, final, _) => Notes(n.number + 1, n.notifiedOn + {state}, time, time + wait,
                                                             final)
    case Sent(Recovery, _, time, wait, final, _) => Notes(0, {}, time, time + wait, final)
    case Incremented => n.(number := n.number + 1)
    case RecoveryUnwanted => n.(number := 0, notifiedOn := {})
    case StateChange => n.(last := 0, next := 0, closed := false)
    case Deferred(next) => n.(next := next)
    case ClockChange(last, next, final) => n.(last := last, next := next, closed := final)
  }

  /** The fields after a history. */
  function After(h: History): Notes {
    match h
    case Start => Notes(0, {}, 0, 0, false)
    case Then(before, e) => Advance(After(before), e)
  }

  /** What the filters let through: e may come next. */
  predicate MayFollow(n: Notes, e: Entry, isVolatile: bool) {
    e.Sent? && !e.forced ==>
      && !n.closed
      && (isVolatile || n.next <= e.time)
      && (e.kind == Recovery ==> n.notifiedOn != {})
  }

  ghost predicate Legal(h: History, isVolatile: bool) {
    h.Then? ==> Legal(h.before, isVolatile) && MayFollow(After(h.before), h.latest, isVolatile)
  }

  /** h continues g. */
  ghost predicate Continues(h: History, g: History) {
    h == g || (h.Then? && Continues(h.before, g))
  }

  lemma {:induction false} ContinuesTransitively(h: History, g: History, f: History)
    requires Continues(h, g) && Continues(g, f)
    ensures Continues(h, f)
  {
    if h != g {
      ContinuesTransitively(h.before, g, f);
    }
  }

  // ---------- recoveries answer problems ----------

  predicate IsProblem(e: Entry) {
    e.Sent? && e.kind == Problem
  }

  predicate IsRecovery(e: Entry) {
    e.Sent? && e.kind == Recovery
  }

  /** The number of entries of some kind. */
  ghost function Count(h: History, p: Entry -> bool): nat {
    if h.Start? then 0 else Count(h.before, p) + if p(h.latest) then 1 else 0
  }

  ghost predicate Unforced(h: History) {
    h.Then? ==> Unforced(h.before) && !(h.latest.Sent? && h.latest.forced)
  }

  /** Delivered recoveries never outnumber delivered problems, and an open problem is one ahead. */
  lemma {:induction false} RecoveriesNeverOutnumberProblems(h: History, isVolatile: bool)
    requires Legal(h, isVolatile) && Unforced(h)
    ensures Count(h, IsRecovery) + (if After(h).notifiedOn != {} then 1 else 0) <= Count(h, IsProblem)
  {
    if h.Then? {
      RecoveriesNeverOutnumberProblems(h.before, isVolatile);
    }
  }

  /** No recovery, delivered or unwanted, since g. */
  ghost predicate NoResetSince(h: History, g: History) {
    h == g || (h.Then? && !IsRecovery(h.latest) && !h.latest.RecoveryUnwanted? && NoResetSince(h.before, g))
  }

  /** No problem was sent since g. */
  ghost predicate NoProblemSince(h: History, g: History) {
    h == g || (h.Then? && !IsProblem(h.latest) && NoProblemSince(h.before, g))
  }

  lemma {:induction false} NoProblemTransitively(h: History, g: History, f: History)
    requires NoProblemSince(h, g) && NoProblemSince(g, f)
    ensures NoProblemSince(h, f)
  {
    if h != g {
      NoProblemTransitively(h.before, g, f);
    }
  }

  /** As long as no problem is sent, somebody goes on waiting for a recovery exactly until there is one. */
  lemma {:induction false} OnlyResetsForget(h: History, g: History)
    requires NoProblemSince(h, g)
    ensures After(h).notifiedOn == if NoResetSince(h, g) then After(g).notifiedOn else {}
  {
    if h != g {
      OnlyResetsForget(h.before, g);
    }
  }

  /** g is the beginning, or ends with a recovery. */
  ghost predicate AtReset(g: History) {
    g.Start? || IsRecovery(g.latest) || g.latest.RecoveryUnwanted?
  }

  /**
   The number counts the problems, and the others asked to count, since the latest reset; somebody
   is owed a recovery exactly when there was a problem since.
   */
  lemma {:induction false} NumberCountsSinceReset(h: History, g: History)
    requires AtReset(g) && NoResetSince(h, g)
    ensures After(h).number ==
      Count(h, IsProblem) - Count(g, IsProblem) +
        Count(h, (e: Entry) => e.Incremented?) - Count(g, (e: Entry) => e.Incremented?)
    ensures After(h).notifiedOn != {} <==> Count(h, IsProblem) > Count(g, IsProblem)
    ensures Count(h, IsProblem) >= Count(g, IsProblem)
  {
    if h != g {
      NumberCountsSinceReset(h.before, g);
    }
  }

  /** A recovery that nobody forced comes after a problem that no other recovery has answered. */
  lemma RecoveryAnswersProblem(h: History, g: History, isVolatile: bool)
    requires Legal(h, isVolatile) && h.Then? && IsRecovery(h.latest) && !h.latest.forced
    requires AtReset(g) && NoResetSince(h.before, g)
    ensures Count(h.before, IsProblem) > Count(g, IsProblem)
  {
    NumberCountsSinceReset(h.before, g);
  }

  // ---------- re-notification ----------

  /** Nothing since g lets notifications through early. */
  ghost predicate UndisturbedSince(h: History, g: History) {
    h == g ||
    (h.Then? && !h.latest.StateChange? && !h.latest.Deferred? && !h.latest.ClockChange? &&
     !(h.latest.Sent? && h.latest.forced) && UndisturbedSince(h.before, g))
  }

  /** From a notification on, notifications stay shut off at least until its own waiting time is over. */
  lemma {:induction false} StaysShut(h: History, g: History)
    requires Legal(h, false) && g.Then? && g.latest.Sent? && UndisturbedSince(h, g)
    ensures After(h).next >= g.latest.time + g.latest.wait && (g.latest.final ==> After(h).closed)
  {
    if h != g {
      StaysShut(h.before, g);
    }
  }

  /**
   Two notifications of a non-volatile service with no state change, deferral, clock change or forced
   notification between them are the first one's waiting time apart, and there is no second one
   after an interval of 0.
   */
  lemma RenotificationThrottle(h: History, g: History)
    requires Legal(h, false) && h.Then? && h.latest.Sent? && !h.latest.forced
    requires g.Then? && g.latest.Sent? && UndisturbedSince(h.before, g)
    ensures h.latest.time >= g.latest.time + g.latest.wait && !g.latest.final
  {
    StaysShut(h.before, g);
  }
}
