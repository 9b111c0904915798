/**
 Compensation for a change of the system clock (adjust_timestamp_for_time_change,
 adjust_squeue_for_time_change, compensate_for_system_time_change).
 */
module TimeChange {
  import opened Wrappers
  import opened EventQueue
  import opened NotificationLog
  import opened Objects
  import opened ContactList
  import opened Notifications

  /** A timestamp once the clock has jumped; 0 stands for no time, and no time is before it. */
  function Adjust(last: int, current: int, ts: int): int {
    if ts == 0 then 0
    else if last > current then (if 0 <= ts < last - current then 0 else ts - (last - current))
    else ts + (current - last)
  }

  /** Timestamps stay non-negative and in order. */
  lemma AdjustedTimes(last: int, current: int, a: int, b: int)
    requires 0 <= a <= b
    ensures 0 <= Adjust(last, current, a)
    ensures Adjust(last, current, a) <= Adjust(last, current, b)
  {
  }

  /** A jump forward and back again restores every timestamp. */
  lemma ForwardThenBack(earlier: int, later: int, ts: int)
    requires earlier <= later && ts >= 0
    ensures Adjust(later, earlier, Adjust(earlier, later, ts)) == ts
  {
  }

  /** A jump back and forward again restores exactly those that were 0 or lay after the jump's length. */
  lemma BackThenForwardIff(earlier: int, later: int, ts: int)
    requires earlier < later && ts >= 0
    ensures Adjust(earlier, later, Adjust(later, earlier, ts)) == ts <==> ts == 0 || ts > later - earlier
  {
  }

  /** A jump cuts a time off: it is no time at all, or would come to lie before 0. */
  predicate CutOff(last: int, current: int, ts: int) {
    last != current && (ts == 0 || 0 <= ts < last - current)
  }

  /** A time that an object and its event agree on is still agreed on exactly when it was not cut off. */
  lemma StillAgreedIff(last: int, current: int, ts: int)
    ensures Adjust(last, current, ts) == ts + (current - last) <==> !CutOff(last, current, ts)
    ensures CutOff(last, current, ts) ==> Adjust(last, current, ts) == 0
  {
  }

  /** The run time of an event after a jump: custom times are asked for again, others are shifted. */
  function NewRunTime(compensate: bool, hasTimingFunction: bool, runTime: int, delta: int, customTime: int): int {
    if !compensate then runTime
    else if hasTimingFunction then customTime
    else runTime + delta
  }

  /** Gives one event its new times. */
  method Requeue(s: Scheduler, e: TimedEvent, delta: int, now: int, usec: int, customTime: int)
    requires s.Sound() && e in s.queue
    modifies s`clock, e`runTime, e`sqEvent
    ensures s.Sound()
    ensures e.runTime == NewRunTime(e.compensateForTimeChange, e.hasTimingFunction, old(e.runTime), delta, customTime)
    ensures e.sqEvent == Some(QueueTime(e.runTime, e.priority, now, usec))
  {
    s.clock := Later(s.clock, now);
    if e.compensateForTimeChange {
      if e.hasTimingFunction {
        e.runTime := customTime;
      } else {
        e.runTime := e.runTime + delta;
      }
    }
    var sec := if e.runTime < now then now else e.runTime;
    if e.priority > 0 {
      e.sqEvent := Some(When(sec, e.priority - 1));
    } else {
      e.sqEvent := Some(When(sec, usec));
    }
  }

  /** The queue's events, each once, in the order in which they are taken out. */
  ghost predicate Drained(queue: set<TimedEvent>, order: seq<TimedEvent>) {
    && (forall e :: e in queue ==> e in order)
    && (forall i | 0 <= i < |order| :: order[i] in queue)
    && forall i, j | 0 <= i < j < |order| :: order[i] != order[j]
  }

  /** Takes the events out of the queue in the order of their times. */
  method Drain(queue: set<TimedEvent>) returns (order: seq<TimedEvent>)
    requires forall e :: e in queue ==> e.sqEvent.Some?
    ensures Drained(queue, order)
    ensures forall i, j | 0 <= i < j < |order| :: NotAfter(order[i].sqEvent.value, order[j].sqEvent.value)
  {
    var rest := queue;
    order := [];
    while rest != {}
      invariant rest <= queue && Drained(queue - rest, order)
      invariant forall i, j | 0 <= i < j < |order| :: NotAfter(order[i].sqEvent.value, order[j].sqEvent.value)
      invariant forall i, f | 0 <= i < |order| && f in rest :: NotAfter(order[i].sqEvent.value, f.sqEvent.value)
      decreases rest
    {
      var e := Earliest(rest);
      rest := rest - {e};
      order := order + [e];
    }
  }

  /** Gives events of the queue their new times, one after the other. */
  method RequeueAll(s: Scheduler, events: seq<TimedEvent>, delta: int, now: int, usecs: nat -> int, customTime: int)
    requires s.Sound() && Drained(s.queue, events)
    modifies s`clock, s.queue`runTime, s.queue`sqEvent
    ensures s.Sound() && forall i | 0 <= i < |events| ::
      events[i].sqEvent == Some(QueueTime(events[i].runTime, events[i].priority, now, usecs(i)))
    ensures forall i | 0 <= i < |events| :: var e := events[i];
      e.runTime == NewRunTime(e.compensateForTimeChange, e.hasTimingFunction, old(e.runTime), delta, customTime)
  {
    for n := 0 to |events|
      invariant s.Sound()
      invariant forall i | n <= i < |events| :: events[i].runTime == old(events[i].runTime)
      invariant forall i | 0 <= i < n :: var e := events[i];
        && e.runTime == NewRunTime(e.compensateForTimeChange, e.hasTimingFunction, old(e.runTime), delta, customTime)
        && e.sqEvent == Some(QueueTime(e.runTime, e.priority, now, usecs(i)))
    {
      Requeue(s, events[n], delta, now, usecs(n), customTime);
    }
  }

  /**
   Rebuilds the queue, one event after the other: the same events, taken out in the order of their old
   times, each put in under its new one; usecs gives the microseconds at the successive additions.
   */
  method AdjustQueue(s: Scheduler, delta: int, now: int, usecs: nat -> int, customTime: int)
    returns (ghost order: seq<TimedEvent>)
    requires s.Sound()
    modifies s`clock, s.queue`runTime, s.queue`sqEvent
    ensures s.Sound() && s.clock == now && Drained(s.queue, order)
    ensures forall i | 0 <= i < |order| :: order[i] in old(s.queue)
    ensures forall i, j | 0 <= i < j < |order| :: NotAfter(old(order[i].sqEvent.value), old(order[j].sqEvent.value))
    ensures forall i | 0 <= i < |order| ::
      order[i].sqEvent == Some(QueueTime(order[i].runTime, order[i].priority, now, usecs(i)))
    ensures forall e :: e in s.queue ==>
      e.runTime == NewRunTime(e.compensateForTimeChange, e.hasTimingFunction, old(e.runTime), delta, customTime)
    ensures forall e :: e in s.queue ==>
      e.runTime == if !e.compensateForTimeChange then old(e.runTime)
                   else if e.hasTimingFunction then customTime else old(e.runTime) + delta
  {
    var events := Drain(s.queue);
    order := events;
    RequeueAll(s, events, delta, now, usecs, customTime);
    s.clock := now;
  }

  /** Events without a priority that come to share a second keep their order, when the microseconds do not go back. */
  lemma SameSecondKeepsOrder(runTimes: seq<int>, now: int, usecs: nat -> int, i: nat, j: nat)
    requires i < j < |runTimes| && usecs(i) <= usecs(j)
    requires QueueTime(runTimes[i], 0, now, usecs(i)).sec == QueueTime(runTimes[j], 0, now, usecs(j)).sec
    ensures NotAfter(QueueTime(runTimes[i], 0, now, usecs(i)), QueueTime(runTimes[j], 0, now, usecs(j)))
  {
  }

  /** An object and its pending check agree on its time. */
  ghost predicate Agree(s: Scheduler, o: CheckedObject)
    reads s`nextCheckEvent, s`nextCheck, if o in s.nextCheckEvent then {s.nextCheckEvent[o]} else {}
  {
    o in s.nextCheckEvent && o in s.nextCheck && s.nextCheckEvent[o].runTime == s.nextCheck[o]
  }

  /** The times at which the objects with pending checks are to be checked. */
  ghost function CheckTimes(s: Scheduler): map<CheckedObject, int>
    reads s`nextCheckEvent, s`nextCheck
  {
    map o | o in s.nextCheckEvent && o in s.nextCheck :: s.nextCheck[o]
  }

  /** A jump of the clock cuts none of these times off. */
  predicate NoneCutOff(times: map<CheckedObject, int>, last: int, current: int) {
    forall o :: o in times ==> !CutOff(last, current, times[o])
  }

  /** The queue after a jump of the clock: rebuilt in order, with shifted events in the order of their run times. */
  method ShiftQueue(s: Scheduler, delta: int, now: int, usecs: nat -> int, customTime: int)
    returns (ghost order: seq<TimedEvent>)
    requires s.Sound() && s.Linked(null)
    modifies s`clock, s.queue`runTime, s.queue`sqEvent
    ensures s.Sound() && s.Linked(null) && s.clock == now && Drained(s.queue, order)
    ensures forall i | 0 <= i < |order| :: order[i] in old(s.queue)
    ensures forall i, j | 0 <= i < j < |order| :: NotAfter(old(order[i].sqEvent.value), old(order[j].sqEvent.value))
    ensures forall i | 0 <= i < |order| ::
      order[i].sqEvent == Some(QueueTime(order[i].runTime, order[i].priority, now, usecs(i)))
    ensures forall e :: e in s.queue ==>
      e.runTime == NewRunTime(e.compensateForTimeChange, e.hasTimingFunction, old(e.runTime), delta, customTime)
    ensures forall e, f ::
      e in s.queue && f in s.queue && e.Shifts() && f.Shifts() && old(e.runTime) <= old(f.runTime) ==>
      e.runTime <= f.runTime && e.sqEvent.value.sec <= f.sqEvent.value.sec
    ensures forall o :: o in s.nextCheckEvent ==>
      s.nextCheckEvent[o].runTime == old(s.nextCheckEvent[o].runTime) + delta
  {
    order := AdjustQueue(s, delta, now, usecs, customTime);
    forall o | o in s.nextCheckEvent ensures s.nextCheckEvent[o].runTime == old(s.nextCheckEvent[o].runTime) + delta {
      assert s.nextCheckEvent[o].Checks(o);
    }
  }

  /** Shifts the objects' next check times. */
  method ShiftNextChecks(s: Scheduler, last: int, current: int)
    modifies s`nextCheck
    ensures s.nextCheck == map o | o in old(s.nextCheck) :: Adjust(last, current, old(s.nextCheck)[o])
  {
    s.nextCheck := map o | o in s.nextCheck :: Adjust(last, current, s.nextCheck[o]);
  }

  /** Shifts the queue and the objects' next check times; pending checks move by exactly the jump. */
  method ShiftTimes(s: Scheduler, last: int, current: int, now: int, usecs: nat -> int, customTime: int)
    returns (ghost order: seq<TimedEvent>)
    requires s.Sound() && s.Linked(null)
    modifies s.queue`runTime, s.queue`sqEvent, s`nextCheck, s`clock
    ensures s.Sound() && s.Linked(null) && s.clock == now && Drained(s.queue, order)
    ensures forall i | 0 <= i < |order| :: order[i] in old(s.queue)
    ensures forall i, j | 0 <= i < j < |order| :: NotAfter(old(order[i].sqEvent.value), old(order[j].sqEvent.value))
    ensures forall i | 0 <= i < |order| ::
      order[i].sqEvent == Some(QueueTime(order[i].runTime, order[i].priority, now, usecs(i)))
    ensures forall e :: e in s.queue ==>
      e.runTime == NewRunTime(e.compensateForTimeChange, e.hasTimingFunction, old(e.runTime), current - last,
                              customTime)
    ensures forall e, f ::
      e in s.queue && f in s.queue && e.Shifts() && f.Shifts() && old(e.runTime) <= old(f.runTime) ==>
      e.runTime <= f.runTime && e.sqEvent.value.sec <= f.sqEvent.value.sec
    ensures s.nextCheck == map o | o in old(s.nextCheck) :: Adjust(last, current, old(s.nextCheck)[o])
    ensures forall o :: o in s.nextCheckEvent ==>
      s.nextCheckEvent[o].runTime == old(s.nextCheckEvent[o].runTime) + (current - last)
  {
    order := ShiftQueue(s, current - last, now, usecs, customTime);
    ShiftNextChecks(s, last, current);
  }

  /** Shifts the queue and the objects' next check times: which of them objects and events then agree on. */
  method CompensateForSystemTimeChange(s: Scheduler, last: int, current: int, now: int, usecs: nat -> int,
                                       customTime: int)
    returns (ghost order: seq<TimedEvent>)
    requires s.Sound() && s.Linked(null)
    modifies s.queue`runTime, s.queue`sqEvent, s`nextCheck, s`clock
    ensures s.Sound() && s.Linked(null) && s.clock == now && Drained(s.queue, order)
    ensures forall i | 0 <= i < |order| :: order[i] in old(s.queue)
    ensures forall i, j | 0 <= i < j < |order| :: NotAfter(old(order[i].sqEvent.value), old(order[j].sqEvent.value))
    ensures forall i | 0 <= i < |order| ::
      order[i].sqEvent == Some(QueueTime(order[i].runTime, order[i].priority, now, usecs(i)))
    ensures forall e :: e in s.queue ==>
      e.runTime == NewRunTime(e.compensateForTimeChange, e.hasTimingFunction, old(e.runTime), current - last,
                              customTime)
    ensures forall e, f ::
      e in s.queue && f in s.queue && e.Shifts() && f.Shifts() && old(e.runTime) <= old(f.runTime) ==>
      e.runTime <= f.runTime && e.sqEvent.value.sec <= f.sqEvent.value.sec
    ensures s.nextCheck == map o | o in old(s.nextCheck) :: Adjust(last, current, old(s.nextCheck)[o])
    ensures forall o :: old(Agree(s, o)) ==> (Agree(s, o) <==> !CutOff(last, current, old(s.nextCheck[o])))
    ensures old(s.InTime()) && NoneCutOff(old(CheckTimes(s)), last, current) ==> s.InTime()
  {
    order := ShiftTimes(s, last, current, now, usecs, customTime);
    forall o | old(Agree(s, o)) ensures Agree(s, o) <==> !CutOff(last, current, old(s.nextCheck[o])) {
      StillAgreedIff(last, current, old(s.nextCheck[o]));
    }
    if old(s.InTime()) && NoneCutOff(old(CheckTimes(s)), last, current) {
      forall o | o in s.nextCheckEvent ensures o in s.nextCheck && s.nextCheck[o] == s.nextCheckEvent[o].runTime {
        assert old(Agree(s, o)) && o in old(CheckTimes(s));
      }
    }
  }

  /** Shifts the times of a service, and works out anew when it may be notified about again. */
  method AdjustService(svc: Service, w: World, last: int, current: int) returns (ghost interval: real)
    requires svc.ConfigOk() && svc.NotesOk() && w.Serves(svc.config)
    modifies svc`lastNotification, svc`lastCheck, svc`lastHardStateChange, svc`nextNotification,
             svc`noMoreNotifications, svc`history
    ensures svc.NotesOk() && interval >= 0.0
    ensures IsInterval(OccasionFor(svc, w, NOTIFICATION_RECOVERY, NOTIFICATION_OPTION_NONE), interval)
    ensures svc.lastCheck == Adjust(last, current, old(svc.lastCheck))
    ensures svc.lastHardStateChange == Adjust(last, current, old(svc.lastHardStateChange))
    ensures
      var adjusted := Adjust(last, current, old(svc.lastNotification));
      svc.history == Then(old(svc.history),
                          ClockChange(adjusted, adjusted + Seconds(interval, w),
                                      interval == 0.0 && !svc.config.isVolatile))
  {
    svc.lastNotification := Adjust(last, current, svc.lastNotification);
    svc.lastCheck := Adjust(last, current, svc.lastCheck);
    svc.lastHardStateChange := Adjust(last, current, svc.lastHardStateChange);
    var o := OccasionFor(svc, w, NOTIFICATION_RECOVERY, NOTIFICATION_OPTION_NONE);
    svc.nextNotification, interval := GetNextServiceNotificationTime(svc, o, svc.lastNotification);
    svc.history := Then(svc.history, ClockChange(svc.lastNotification, svc.nextNotification, svc.noMoreNotifications));
  }
}
