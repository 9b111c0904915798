/**
 Requests for a check of a host or service (schedule_service_check, schedule_host_check): an object
 has at most one pending check, so a request either replaces the pending one or is dropped.
 */
module CheckScheduling {
  import opened Wrappers
  import opened EventQueue

  /** A check asked for or pending: whether it is forced, and its time. */
  datatype Check = Check(forced: bool, time: int)

  /** What the object says about its checks: the last one, and how long a result counts as recent. */
  datatype Freshness = Freshness(checksEnabled: bool, lastCheck: int, cachedHorizon: int)

  predicate Recent(o: CheckedObject, f: Freshness, now: int, checkTime: int) {
    (o.ServiceObject? ==> f.lastCheck <= now) && f.lastCheck + f.cachedHorizon > checkTime
  }

  predicate Accepted(o: CheckedObject, f: Freshness, now: int, checkTime: int, options: set<int>) {
    (f.checksEnabled || CHECK_OPTION_FORCE_EXECUTION in options) &&
    !(options == {CHECK_OPTION_DEPENDENCY_CHECK} && Recent(o, f, now, checkTime))
  }

  predicate Replaces(pending: Check, request: Check) {
    if pending.forced then request.forced && request.time < pending.time
    else request.forced || request.time < pending.time
  }

  /**
   A request replaces a pending check exactly if it is forced and that is not, or as much forced and strictly
   earlier.
   */
  lemma ReplacesIff(pending: Check, request: Check)
    ensures Replaces(pending, request) <==>
      (request.forced && !pending.forced) || (request.forced == pending.forced && request.time < pending.time)
  {
  }

  function Merge(pending: Option<Check>, request: Check): Option<Check> {
    if pending.Some? && !Replaces(pending.value, request) then pending else Some(request)
  }

  /** What is pending after a sequence of accepted requests. */
  function MergeAll(pending: Option<Check>, requests: seq<Check>): Option<Check>
    decreases |requests|
  {
    if requests == [] then pending else Merge(MergeAll(pending, requests[..|requests| - 1]), requests[|requests| - 1])
  }

  /** The pending check of an object. */
  ghost function Pending(s: Scheduler, o: CheckedObject): Option<Check>
    reads s`nextCheckEvent
    reads (if o in s.nextCheckEvent then {s.nextCheckEvent[o]} else {})`eventOptions
    reads (if o in s.nextCheckEvent then {s.nextCheckEvent[o]} else {})`runTime
  {
    if o in s.nextCheckEvent then Some(Check(s.nextCheckEvent[o].Forced(), s.nextCheckEvent[o].runTime)) else None
  }

  /** The survivor comes before, or with, the other check. */
  predicate Beats(a: Check, b: Check) {
    if a.forced == b.forced then a.time <= b.time else a.forced
  }

  /** The survivor of a sequence of requests is one of them, forced if any is, and the earliest of its kind. */
  lemma {:induction false} SurvivorBeatsAll(pending: Option<Check>, requests: seq<Check>)
    requires pending.Some? || requests != []
    decreases |requests|
    ensures MergeAll(pending, requests).Some?
    ensures var survivor := MergeAll(pending, requests).value;
      && (Some(survivor) == pending || survivor in requests)
      && (pending.Some? ==> Beats(survivor, pending.value))
      && forall r :: r in requests ==> Beats(survivor, r)
  {
    if |requests| > 1 || (requests != [] && pending.Some?) {
      SurvivorBeatsAll(pending, requests[..|requests| - 1]);
    }
    assert requests != [] ==> requests == requests[..|requests| - 1] + [requests[|requests| - 1]];
  }

  /** From no pending check: the survivor is forced iff some request was, at the earliest such time. */
  lemma SurvivorOf(requests: seq<Check>)
    requires requests != []
    ensures MergeAll(None, requests).Some?
    ensures var survivor := MergeAll(None, requests).value;
      && survivor in requests
      && (survivor.forced <==> exists r :: r in requests && r.forced)
      && forall r :: r in requests && (r.forced || !survivor.forced) ==> survivor.time <= r.time
  {
    SurvivorBeatsAll(None, requests);
  }

  /** The order of the requests, and repeated ones, make no difference to what survives. */
  lemma MergingIgnoresOrder(a: seq<Check>, b: seq<Check>)
    requires forall r :: r in a <==> r in b
    ensures MergeAll(None, a) == MergeAll(None, b)
  {
    assert (a == [] || a[0] in a) && (b == [] || b[0] in b);
    if a != [] && b != [] {
      SurvivorBeatsAll(None, a);
      SurvivorBeatsAll(None, b);
    }
  }

  method Fill(e: TimedEvent, o: CheckedObject, checkTime: int, options: set<int>)
    modifies e
    ensures e.Checks(o) && !e.recurring && e.sqEvent == old(e.sqEvent)
    ensures e.eventOptions == options && e.runTime == checkTime && e.eventInterval == 0 && e.Shifts() &&
      e.priority == old(e.priority)
  {
    e.eventType := if o.ServiceObject? then EVENT_SERVICE_CHECK else EVENT_HOST_CHECK;
    e.eventData, e.eventOptions, e.runTime := Some(o), options, checkTime;
    e.recurring, e.eventInterval, e.hasTimingFunction, e.compensateForTimeChange := false, 0, false, true;
  }

  /** Fills in a check event that is out of the queue. */
  method FillUnqueued(s: Scheduler, e: TimedEvent, o: CheckedObject, checkTime: int, options: set<int>)
    requires s.Sound() && e !in s.queue
    modifies e
    ensures s.Sound() && e.Checks(o) && !e.recurring && e.sqEvent == old(e.sqEvent)
    ensures e.eventOptions == options && e.runTime == checkTime && e.eventInterval == 0 && e.Shifts() &&
      e.priority == old(e.priority)
  {
    Fill(e, o, checkTime, options);
  }

  /** Fills in the event of a pending check, out of the queue for the moment, and notes the check at the object. */
  method Refill(s: Scheduler, e: TimedEvent, o: CheckedObject, checkTime: int, options: set<int>,
                ghost excepted: TimedEvent?)
    requires s.Sound() && e !in s.queue && s.LinkedIn(s.queue + {e}, excepted) && o in s.nextCheckEvent &&
      s.nextCheckEvent[o] == e
    modifies s`nextCheck, s`checkOptions, e
    ensures s.Sound() && s.LinkedIn(s.queue + {e}, excepted) && e.sqEvent == old(e.sqEvent)
    ensures s.nextCheck == old(s.nextCheck)[o := checkTime] && s.checkOptions == old(s.checkOptions)[o := options]
    ensures e.eventOptions == options && e.runTime == checkTime && e.priority == old(e.priority)
  {
    s.nextCheck := s.nextCheck[o := checkTime];
    s.checkOptions := s.checkOptions[o := options];
    assert s.Sound();
    FillUnqueued(s, e, o, checkTime, options);
  }

  /** Replaces the pending check of an object, reusing its event. */
  method Replace(s: Scheduler, e: TimedEvent, o: CheckedObject, checkTime: int, options: set<int>, now: int, usec: int,
                 ghost excepted: TimedEvent?)
    requires s.Sound() && s.Linked(excepted) && o in s.nextCheckEvent && s.nextCheckEvent[o] == e
    modifies s`queue, s`currentEvent, s`clock, s.eventCount, s`nextCheck, s`checkOptions, e
    ensures s.Sound() && s.Linked(excepted) && s.clock <= Later(old(s.clock), now)
    ensures s.queue == old(s.queue) && s.currentEvent == if old(s.currentEvent) == e then null else old(s.currentEvent)
    ensures s.nextCheck == old(s.nextCheck)[o := checkTime] && s.checkOptions == old(s.checkOptions)[o := options]
    ensures e.eventOptions == options && e.runTime == checkTime &&
      e.sqEvent == Some(QueueTime(checkTime, e.priority, now, usec))
  {
    ghost var events := s.queue;
    s.RemoveEvent(e);
    assert s.queue + {e} == events;
    Refill(s, e, o, checkTime, options, excepted);
    s.AddEvent(e, now, usec);
  }

  /** The object takes note of its new pending check. */
  method Point(s: Scheduler, e: TimedEvent, o: CheckedObject, ghost excepted: TimedEvent?)
    requires e in s.queue && s.LinkedIn(s.queue - {e}, excepted) && e != excepted
    requires o !in s.nextCheckEvent && e.Checks(o) && !e.recurring && e.Shifts()
    modifies s`nextCheckEvent, s`nextCheck, s`checkOptions
    ensures s.Linked(excepted)
    ensures s.nextCheckEvent == old(s.nextCheckEvent)[o := e]
    ensures s.nextCheck == old(s.nextCheck)[o := e.runTime] &&
      s.checkOptions == old(s.checkOptions)[o := e.eventOptions]
  {
    s.nextCheckEvent := s.nextCheckEvent[o := e];
    s.nextCheck := s.nextCheck[o := e.runTime];
    s.checkOptions := s.checkOptions[o := e.eventOptions];
  }

  /** Makes a new event the pending check of an object that has none. */
  method Place(s: Scheduler, o: CheckedObject, checkTime: int, options: set<int>, now: int, usec: int,
               ghost excepted: TimedEvent?)
    returns (e: TimedEvent)
    requires s.Sound() && s.Linked(excepted) && o !in s.nextCheckEvent
    modifies s`queue, s`currentEvent, s`clock, s.eventCount, s`nextCheckEvent, s`nextCheck, s`checkOptions
    ensures s.Sound() && s.Linked(excepted) && s.clock <= Later(old(s.clock), now) && fresh(e)
    ensures s.queue == old(s.queue) + {e} && s.currentEvent == old(s.currentEvent)
    ensures s.nextCheckEvent == old(s.nextCheckEvent)[o := e]
    ensures s.nextCheck == old(s.nextCheck)[o := checkTime] && s.checkOptions == old(s.checkOptions)[o := options]
    ensures e.eventOptions == options && e.runTime == checkTime &&
      e.sqEvent == Some(QueueTime(checkTime, e.priority, now, usec))
  {
    e := new TimedEvent(if o.ServiceObject? then EVENT_SERVICE_CHECK else EVENT_HOST_CHECK, checkTime, false, 0, false,
                        true, Some(o), options, 0);
    ghost var events := s.queue;
    s.AddEvent(e, now, usec);
    assert events == s.queue - {e};
    Point(s, e, o, excepted);
  }

  /** Makes a check the pending one of an object, reusing the event of the check it replaces. */
  method Install(s: Scheduler, o: CheckedObject, checkTime: int, options: set<int>, now: int, usec: int,
                 ghost excepted: TimedEvent?)
    returns (e: TimedEvent)
    requires s.Sound() && s.Linked(excepted)
    modifies s`queue, s`currentEvent, s`clock, s.eventCount, s`nextCheckEvent, s`nextCheck, s`checkOptions
    modifies if o in s.nextCheckEvent then {s.nextCheckEvent[o]} else {}
    ensures s.Sound() && s.Linked(excepted) && s.clock <= Later(old(s.clock), now)
    ensures if o in old(s.nextCheckEvent) then e == old(s.nextCheckEvent[o]) else fresh(e)
    ensures s.queue == old(s.queue) + {e} && s.currentEvent == if old(s.currentEvent) == e then null
      else old(s.currentEvent)
    ensures s.currentEvent != null ==>
      s.currentEvent.Stands(old(s.currentEvent.eventType), old(s.currentEvent.eventOptions),
                            old(s.currentEvent.sqEvent))
    ensures s.nextCheckEvent == old(s.nextCheckEvent)[o := e]
    ensures s.nextCheck == old(s.nextCheck)[o := checkTime] && s.checkOptions == old(s.checkOptions)[o := options]
    ensures e.eventOptions == options && e.runTime == checkTime &&
      e.sqEvent == Some(QueueTime(checkTime, e.priority, now, usec))
  {
    if o in s.nextCheckEvent {
      e := s.nextCheckEvent[o];
      Replace(s, e, o, checkTime, options, now, usec, excepted);
    } else {
      e := Place(s, o, checkTime, options, now, usec, excepted);
    }
  }

  /** Whether a request ends up in the queue. */
  ghost predicate Installs(s: Scheduler, o: CheckedObject, f: Freshness, checkTime: int, options: set<int>, now: int)
    reads s`nextCheckEvent
    reads (if o in s.nextCheckEvent then {s.nextCheckEvent[o]} else {})`eventOptions
    reads (if o in s.nextCheckEvent then {s.nextCheckEvent[o]} else {})`runTime
  {
    Accepted(o, f, now, checkTime, options) &&
    (Pending(s, o).Some? ==> Replaces(Pending(s, o).value, Check(CHECK_OPTION_FORCE_EXECUTION in options, checkTime)))
  }

  /**
   Decides about a request; a pending check that stays sets the object's next check time, which may be out of
   step.
   */
  method Consider(s: Scheduler, o: CheckedObject, f: Freshness, checkTime: int, options: set<int>, now: int,
                  ghost excepted: TimedEvent?)
    returns (install: bool)
    requires s.Sound() && s.Linked(excepted)
    modifies s`nextCheck
    ensures s.Sound() && s.Linked(excepted)
    ensures install <==> Installs(s, o, f, checkTime, options, now)
    ensures s.nextCheck ==
      if Accepted(o, f, now, checkTime, options) && !install then old(s.nextCheck)[o := Pending(s, o).value.time]
      else old(s.nextCheck)
  {
    if !f.checksEnabled && CHECK_OPTION_FORCE_EXECUTION !in options {
      return false;
    }
    if options == {CHECK_OPTION_DEPENDENCY_CHECK} && Recent(o, f, now, checkTime) {
      return false;
    }
    if o in s.nextCheckEvent {
      var e := s.nextCheckEvent[o];
      if !Replaces(Check(e.Forced(), e.runTime), Check(CHECK_OPTION_FORCE_EXECUTION in options, checkTime)) {
        s.nextCheck := s.nextCheck[o := e.runTime];
        return false;
      }
    }
    return true;
  }

  /** Asks for a check; an accepted request merges with the pending check of the object, if any. */
  method ScheduleCheck(s: Scheduler, o: CheckedObject, f: Freshness, checkTime: int, options: set<int>, now: int,
                       usec: int, ghost excepted: TimedEvent?)
    requires s.Sound() && s.Linked(excepted)
    modifies s`queue, s`currentEvent, s`clock, s.eventCount, s`nextCheckEvent, s`nextCheck, s`checkOptions
    modifies if o in s.nextCheckEvent then {s.nextCheckEvent[o]} else {}
    ensures s.Sound() && s.Linked(excepted) && s.clock <= Later(old(s.clock), now)
    ensures Pending(s, o) ==
      if Accepted(o, f, now, checkTime, options)
      then Merge(old(Pending(s, o)), Check(CHECK_OPTION_FORCE_EXECUTION in options, checkTime))
      else old(Pending(s, o))
    ensures if old(Installs(s, o, f, checkTime, options, now))
            then o in s.nextCheckEvent && s.nextCheckEvent == old(s.nextCheckEvent)[o := s.nextCheckEvent[o]]
                 && s.queue == old(s.queue) + {s.nextCheckEvent[o]}
                 && s.checkOptions == old(s.checkOptions)[o := options]
            else s.nextCheckEvent == old(s.nextCheckEvent)
                 && s.queue == old(s.queue) && s.checkOptions == old(s.checkOptions)
    ensures if o in old(s.nextCheckEvent) then o in s.nextCheckEvent && s.nextCheckEvent[o] == old(s.nextCheckEvent[o])
            else o in s.nextCheckEvent ==> fresh(s.nextCheckEvent[o])
    ensures s.currentEvent == old(s.currentEvent) ||
      (s.currentEvent == null && o in s.nextCheckEvent && old(s.currentEvent) == s.nextCheckEvent[o])
    ensures s.currentEvent != null ==>
      s.currentEvent.Stands(old(s.currentEvent.eventType), old(s.currentEvent.eventOptions),
                            old(s.currentEvent.sqEvent))
    ensures s.nextCheck ==
      if Accepted(o, f, now, checkTime, options) then old(s.nextCheck)[o := Pending(s, o).value.time]
      else old(s.nextCheck)
  {
    var install := Consider(s, o, f, checkTime, options, now, excepted);
    if install {
      var _ := Install(s, o, checkTime, options, now, usec, excepted);
    }
  }
  /** For an object without a pending check, every accepted request becomes one. */
  method ScheduleFirst(s: Scheduler, o: CheckedObject, f: Freshness, checkTime: int, options: set<int>, now: When,
                       ghost excepted: TimedEvent?)
    requires s.Sound() && s.Linked(excepted) && o !in s.nextCheckEvent
    modifies s`queue, s`currentEvent, s`clock, s.eventCount, s`nextCheckEvent, s`nextCheck, s`checkOptions
    ensures s.Sound() && s.Linked(excepted) && s.clock <= Later(old(s.clock), now.sec)
    ensures fresh(s.queue - old(s.queue)) && old(s.queue) <= s.queue
    ensures s.nextCheckEvent - {o} == old(s.nextCheckEvent)
    ensures
      if Accepted(o, f, now.sec, checkTime, options)
      then Pending(s, o) == Some(Check(CHECK_OPTION_FORCE_EXECUTION in options, checkTime))
           && s.nextCheck == old(s.nextCheck)[o := checkTime] && s.checkOptions == old(s.checkOptions)[o := options]
      else Pending(s, o) == None && s.nextCheck == old(s.nextCheck) && s.checkOptions == old(s.checkOptions)
  {
    ScheduleCheck(s, o, f, checkTime, options, now.sec, now.usec, excepted);
  }

  /** So nothing changes for any other object. */
  method ScheduleOnly(s: Scheduler, o: CheckedObject, f: Freshness, checkTime: int, options: set<int>, now: When,
                      ghost excepted: TimedEvent?)
    requires s.Sound() && s.Linked(excepted)
    modifies s`queue, s`currentEvent, s`clock, s.eventCount, s`nextCheckEvent, s`nextCheck, s`checkOptions
    modifies if o in s.nextCheckEvent then {s.nextCheckEvent[o]} else {}
    ensures s.Sound() && s.Linked(excepted) && s.clock <= Later(old(s.clock), now.sec)
    ensures fresh(s.queue - old(s.queue)) && old(s.queue) <= s.queue
    ensures forall p :: p != o ==> Pending(s, p) == old(Pending(s, p))
    ensures Pending(s, o) ==
      if Accepted(o, f, now.sec, checkTime, options)
      then Merge(old(Pending(s, o)), Check(CHECK_OPTION_FORCE_EXECUTION in options, checkTime))
      else old(Pending(s, o))
    ensures s.currentEvent != null ==>
      s.currentEvent == old(s.currentEvent) &&
      s.currentEvent.Stands(old(s.currentEvent.eventType), old(s.currentEvent.eventOptions),
                            old(s.currentEvent.sqEvent))
    ensures s.nextCheck ==
      if Accepted(o, f, now.sec, checkTime, options) then old(s.nextCheck)[o := Pending(s, o).value.time]
      else old(s.nextCheck)
  {
    if o in s.nextCheckEvent {
      s.OwnEvents(o, excepted);
    }
    ScheduleCheck(s, o, f, checkTime, options, now.sec, now.usec, excepted);
    forall p | p != o ensures Pending(s, p) == old(Pending(s, p)) {
      assert p in s.nextCheckEvent <==> p in old(s.nextCheckEvent);
    }
  }

  /** Objects are to be checked at the time of their pending checks. */
  lemma InTimeByPending(s: Scheduler)
    ensures s.InTime() <==>
      forall o :: Pending(s, o).Some? ==> o in s.nextCheck && s.nextCheck[o] == Pending(s, o).value.time
  {
    if forall o :: Pending(s, o).Some? ==> o in s.nextCheck && s.nextCheck[o] == Pending(s, o).value.time {
      forall o | o in s.nextCheckEvent ensures o in s.nextCheck && s.nextCheck[o] == s.nextCheckEvent[o].runTime {
        assert Pending(s, o).Some?;
      }
    }
  }
}
