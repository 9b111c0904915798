/**
 The event queue of the main loop (base/events.c): timed events ordered by time, a count per event
 type, and the pointer that each host and service keeps to its pending check event.
 */
module EventQueue {
  import opened Wrappers

  const EVENT_SERVICE_CHECK := 0
  const EVENT_HOST_CHECK := 12
  const EVENT_RESCHEDULE_CHECKS := 14
  const EVENT_USER_FUNCTION := 99

  /** A host or service that gets checked, by its id. */
  datatype CheckedObject = ServiceObject(id: nat) | HostObject(id: nat)

  // Bit numbers of the check options.
  const CHECK_OPTION_FORCE_EXECUTION := 0
  const CHECK_OPTION_DEPENDENCY_CHECK := 3

  /** The time an event is queued under, with its microseconds. */
  datatype When = When(sec: int, usec: int)

  predicate NotAfter(a: When, b: When) {
    a.sec < b.sec || (a.sec == b.sec && a.usec <= b.usec)
  }

  class TimedEvent {
    var eventType: int
    var runTime: int
    var recurring: bool
    var eventInterval: nat
    var compensateForTimeChange: bool
    var hasTimingFunction: bool
    var eventData: Option<CheckedObject>
    var eventOptions: set<int>
    var priority: nat
    var sqEvent: Option<When>

    constructor (eventType: int, runTime: int, recurring: bool, eventInterval: nat, hasTimingFunction: bool,
                 compensate: bool, eventData: Option<CheckedObject>, eventOptions: set<int>, priority: nat)
      ensures this.eventType == eventType && this.runTime == runTime && this.recurring == recurring &&
        this.eventInterval == eventInterval
      ensures this.hasTimingFunction == hasTimingFunction && this.compensateForTimeChange == compensate
      ensures this.eventData == eventData && this.eventOptions == eventOptions && this.priority == priority &&
        sqEvent == None
    {
      this.eventType, this.runTime, this.recurring, this.eventInterval := eventType, runTime, recurring, eventInterval;
      this.hasTimingFunction, this.compensateForTimeChange := hasTimingFunction, compensate;
      this.eventData, this.eventOptions, this.priority, sqEvent := eventData, eventOptions, priority, None;
    }

    predicate IsCheck()
      reads this`eventType
    {
      eventType == EVENT_SERVICE_CHECK || eventType == EVENT_HOST_CHECK
    }

    predicate Checks(o: CheckedObject)
      reads this`eventType, this`eventData
    {
      eventData == Some(o) && eventType == if o.ServiceObject? then EVENT_SERVICE_CHECK else EVENT_HOST_CHECK
    }

    /** The event is queued under its run time, or under a later time that the clock has reached. */
    predicate InStep(clock: int)
      reads this`runTime, this`sqEvent
    {
      sqEvent.Some? && runTime <= sqEvent.value.sec && (sqEvent.value.sec <= runTime || sqEvent.value.sec <= clock)
    }

    /** The event is of this type, with these options, and queued under this time. */
    predicate Stands(eventType: int, eventOptions: set<int>, sqEvent: Option<When>)
      reads this`eventType, this`eventOptions, this`sqEvent
    {
      this.eventType == eventType && this.eventOptions == eventOptions && this.sqEvent == sqEvent
    }

    /** The event moves by as much as the clock jumps. */
    predicate Shifts()
      reads this`compensateForTimeChange, this`hasTimingFunction
    {
      compensateForTimeChange && !hasTimingFunction
    }

    predicate Forced()
      reads this`eventOptions
    {
      CHECK_OPTION_FORCE_EXECUTION in eventOptions
    }
  }

  /** The time an event is queued under: its run time, but not in the past. */
  function QueueTime(runTime: int, priority: nat, now: int, usec: int): When {
    When(if runTime < now then now else runTime, if priority > 0 then priority - 1 else usec)
  }

  /** Of two events due at the same second, one of high priority comes first. */
  lemma HighPriorityFirst(runTime: int, now: int, usec: int, other: int)
    requires other >= 0
    ensures NotAfter(QueueTime(runTime, 1, now, usec), QueueTime(runTime, 0, now, other))
    ensures QueueTime(runTime, 0, now, other) == When(if runTime < now then now else runTime, other)
  {
  }

  /** The order of times is that of their microseconds. */
  lemma OrderOfTimes(a: When, b: When)
    requires 0 <= a.usec < 1000000 && 0 <= b.usec < 1000000
    ensures NotAfter(a, b) <==> a.sec * 1000000 + a.usec <= b.sec * 1000000 + b.usec
  {
  }

  function Later(a: int, b: int): int {
    if a < b then b else a
  }

  ghost function OfType(queue: set<TimedEvent>, t: int): set<TimedEvent>
    reads set e | e in queue :: e`eventType
  {
    set e | e in queue && e.eventType == t
  }

  lemma OneMore(queue: set<TimedEvent>, e: TimedEvent, t: int)
    requires e !in queue
    ensures |OfType(queue + {e}, t)| == |OfType(queue, t)| + if t == e.eventType then 1 else 0
  {
    assert OfType(queue + {e}, t) == OfType(queue, t) + if t == e.eventType then {e} else {};
  }

  /** The first of some queued events. */
  method Earliest(events: set<TimedEvent>) returns (first: TimedEvent?)
    requires forall e :: e in events ==> e.sqEvent.Some?
    ensures first == null <==> events == {}
    ensures first != null ==>
      first in events && forall e :: e in events ==> NotAfter(first.sqEvent.value, e.sqEvent.value)
  {
    first := null;
    var rest := events;
    while rest != {}
      invariant rest <= events
      invariant first == null <==> rest == events
      invariant first != null ==>
        first in events && forall e :: e in events - rest ==> NotAfter(first.sqEvent.value, e.sqEvent.value)
      decreases rest
    {
      var e :| e in rest;
      if first == null || !NotAfter(first.sqEvent.value, e.sqEvent.value) {
        first := e;
      }
      rest := rest - {e};
    }
  }

  class Scheduler {
    var queue: set<TimedEvent>
    const eventCount: array<int>
    var currentEvent: TimedEvent?
    /** next_check_event of each object; an object without an entry has a NULL pointer. */
    var nextCheckEvent: map<CheckedObject, TimedEvent>
    /** next_check and check_options of each object. */
    var nextCheck: map<CheckedObject, int>
    var checkOptions: map<CheckedObject, set<int>>
    /** The latest time at which events were queued. */
    ghost var clock: int

    constructor ()
      ensures Sound() && Linked(null) && queue == {} && fresh(eventCount)
    {
      queue, currentEvent, nextCheckEvent, nextCheck, checkOptions := {}, null, map[], map[], map[];
      eventCount := new int[EVENT_USER_FUNCTION + 1](_ => 0);
      clock := 0;
    }

    /** Queued events know that they are queued, are in step with the clock, and are counted by type. */
    ghost predicate Sound()
      reads this`queue, this`currentEvent, this`clock, eventCount
      reads set e | e in queue :: e`eventType, set e | e in queue :: e`sqEvent, set e | e in queue :: e`runTime
    {
      && (forall e :: e in queue ==> e.InStep(clock))
      && (currentEvent != null ==> currentEvent in queue)
      && eventCount.Length == EVENT_USER_FUNCTION + 1
      && forall t :: 0 <= t < eventCount.Length ==> eventCount[t] == |OfType(queue, t)|
    }

    /**
     Every check event among some events, but for the excepted one, is the one its object points to,
     and every pointer of an object leads to one of them, with the object's options. Check events do
     not recur, and move with the clock.
     */
    ghost predicate LinkedIn(events: set<TimedEvent>, excepted: TimedEvent?)
      reads this`nextCheckEvent, this`checkOptions
      reads set e | e in events :: e`eventType, set e | e in events :: e`eventData, set e | e in events :: e`recurring,
            set e | e in events :: e`compensateForTimeChange, set e | e in events :: e`hasTimingFunction,
            set e | e in events :: e`eventOptions
    {
      && (forall e :: e in events && e.IsCheck() ==> !e.recurring && e.Shifts())
      && (forall e :: e in events && e.IsCheck() && e != excepted ==>
           e.eventData.Some? && e.Checks(e.eventData.value) && e.eventData.value in nextCheckEvent &&
             nextCheckEvent[e.eventData.value] == e)
      && (forall o :: o in nextCheckEvent ==> nextCheckEvent[o] in events && nextCheckEvent[o] != excepted)
      && (forall o :: o in nextCheckEvent && nextCheckEvent[o] in events ==>
           nextCheckEvent[o].Checks(o) && o in checkOptions && checkOptions[o] == nextCheckEvent[o].eventOptions)
    }

    ghost predicate Linked(excepted: TimedEvent?)
      reads this`queue, this`nextCheckEvent, this`checkOptions
      reads set e | e in queue :: e`eventType, set e | e in queue :: e`eventData, set e | e in queue :: e`recurring,
            set e | e in queue :: e`compensateForTimeChange, set e | e in queue :: e`hasTimingFunction,
            set e | e in queue :: e`eventOptions
    {
      LinkedIn(queue, excepted)
    }

    /** Every object with a pending check is to be checked at the time of that check. */
    ghost predicate InTime()
      reads this`nextCheckEvent, this`nextCheck, set o | o in nextCheckEvent :: nextCheckEvent[o]`runTime
    {
      forall o :: o in nextCheckEvent ==> o in nextCheck && nextCheck[o] == nextCheckEvent[o].runTime
    }

    /** The pending event of an object is the only queued check event for it. */
    lemma OnePendingEvent(o: CheckedObject)
      requires Linked(null)
      ensures o in nextCheckEvent <==> exists e :: e in queue && e.Checks(o)
      ensures o in nextCheckEvent ==> forall e :: e in queue && e.Checks(o) <==> e == nextCheckEvent[o]
    {
      if e :| e in queue && e.Checks(o) {
        assert e.IsCheck();
      }
      if o in nextCheckEvent {
        forall e | e in queue && e.Checks(o) ensures e == nextCheckEvent[o] {
          assert e.IsCheck();
        }
      }
    }

    /** So an object has a pending check exactly if one is queued for it, and then no other. */
    lemma PendingEvents()
      requires Linked(null)
      ensures forall o :: o in nextCheckEvent <==> exists e :: e in queue && e.Checks(o)
      ensures forall o, e :: o in nextCheckEvent && e in queue && e.Checks(o) ==> e == nextCheckEvent[o]
    {
      forall o ensures o in nextCheckEvent <==> exists e :: e in queue && e.Checks(o) {
        OnePendingEvent(o);
      }
      forall o, e | o in nextCheckEvent && e in queue && e.Checks(o) ensures e == nextCheckEvent[o] {
        OnePendingEvent(o);
      }
    }

    /** No two objects share a pending event. */
    lemma OwnEvents(o: CheckedObject, excepted: TimedEvent?)
      requires Linked(excepted) && o in nextCheckEvent
      ensures forall p :: p in nextCheckEvent && p != o ==> nextCheckEvent[p] != nextCheckEvent[o]
    {
      forall p | p in nextCheckEvent && p != o ensures nextCheckEvent[p] != nextCheckEvent[o] {
        assert nextCheckEvent[p].Checks(p) && nextCheckEvent[o].Checks(o);
      }
    }

    method TrackEvents(eventType: int, add: int)
      requires eventCount.Length == EVENT_USER_FUNCTION + 1
      modifies eventCount
      ensures forall t :: 0 <= t < eventCount.Length ==>
        eventCount[t] == old(eventCount[t]) + if t == eventType then add else 0
    {
      if 0 <= eventType < eventCount.Length {
        eventCount[eventType] := eventCount[eventType] + add;
      }
    }

    /** Takes an event out of the queue; an event that is not queued stays as it is. */
    method RemoveEvent(e: TimedEvent)
      requires Sound() && (e.sqEvent.Some? <==> e in queue)
      modifies this`queue, this`currentEvent, eventCount, e`sqEvent
      ensures Sound() && queue == old(queue) - {e} && e.sqEvent == None
      ensures currentEvent == if old(currentEvent) == e then null else old(currentEvent)
    {
      if e.sqEvent == None {
        return;
      }
      ghost var before := queue;
      queue := queue - {e};
      TrackEvents(e.eventType, -1);
      e.sqEvent := None;
      if e == currentEvent {
        currentEvent := null;
      }
      forall t | 0 <= t < eventCount.Length ensures eventCount[t] == |OfType(queue, t)| {
        OneMore(queue, e, t);
        assert queue + {e} == before;
      }
    }

    /** Queues an event that is not queued. */
    method Enqueue(e: TimedEvent, when: When)
      requires Sound() && e !in queue
      requires e.runTime <= when.sec && (when.sec <= e.runTime || when.sec <= clock)
      modifies this`queue, eventCount, e`sqEvent
      ensures Sound() && queue == old(queue) + {e} && e.sqEvent == Some(when)
    {
      ghost var before := queue;
      e.sqEvent := Some(when);
      queue := queue + {e};
      TrackEvents(e.eventType, 1);
      forall t | 0 <= t < eventCount.Length ensures eventCount[t] == |OfType(queue, t)| {
        OneMore(before, e, t);
      }
    }

    /** Queues an event under its run time, but not in the past; an event already queued moves. */
    method AddEvent(e: TimedEvent, now: int, usec: int)
      requires Sound() && (e.sqEvent.Some? <==> e in queue)
      modifies this`queue, this`currentEvent, this`clock, eventCount, e`sqEvent
      ensures Sound() && queue == old(queue) + {e} && clock == Later(old(clock), now)
      ensures e.sqEvent == Some(QueueTime(e.runTime, e.priority, now, usec))
      ensures currentEvent == if old(currentEvent) == e then null else old(currentEvent)
    {
      if e.sqEvent != None {
        RemoveEvent(e);
      }
      clock := Later(clock, now);
      var sec := if e.runTime < now then now else e.runTime;
      if e.priority > 0 {
        Enqueue(e, When(sec, e.priority - 1));
      } else {
        Enqueue(e, When(sec, usec));
      }
    }

    /** Puts an event back: a recurring one at its next time, any other at the time it has. */
    method RescheduleEvent(e: TimedEvent, now: int, usec: int, nextTime: int)
      requires Sound() && e !in queue && e.sqEvent == None
      modifies this`queue, this`currentEvent, this`clock, eventCount, e`sqEvent, e`runTime
      ensures Sound() && queue == old(queue) + {e} && currentEvent == old(currentEvent) &&
        clock == Later(old(clock), now)
      ensures e.sqEvent == Some(QueueTime(e.runTime, e.priority, now, usec))
      ensures e.runTime ==
        if !e.recurring then old(e.runTime)
        else if e.hasTimingFunction then nextTime
        else if old(e.runTime) + e.eventInterval < now then now
        else old(e.runTime) + e.eventInterval
    {
      if e.recurring {
        if e.hasTimingFunction {
          e.runTime := nextTime;
        } else {
          e.runTime := e.runTime + e.eventInterval;
          if e.runTime < now {
            e.runTime := now;
          }
        }
      }
      AddEvent(e, now, usec);
    }

    /** The event with the earliest time. */
    method Peek() returns (e: TimedEvent?)
      requires Sound()
      ensures e == null <==> queue == {}
      ensures e != null ==> e in queue && forall f :: f in queue ==> NotAfter(e.sqEvent.value, f.sqEvent.value)
    {
      e := Earliest(queue);
    }

    /** A new event in the queue. */
    method ScheduleNewEvent(eventType: int, highPriority: bool, runTime: int, recurring: bool, eventInterval: nat,
                            hasTimingFunction: bool, compensate: bool, eventData: Option<CheckedObject>,
                            eventOptions: set<int>, now: int, usec: int)
      returns (e: TimedEvent)
      requires Sound()
      modifies this`queue, this`currentEvent, this`clock, eventCount
      ensures fresh(e) && Sound() && queue == old(queue) + {e} && currentEvent == old(currentEvent) &&
        clock == Later(old(clock), now)
      ensures e.eventType == eventType && e.runTime == runTime && e.recurring == recurring
      ensures e.eventInterval == eventInterval && e.hasTimingFunction == hasTimingFunction &&
        e.compensateForTimeChange == compensate
      ensures e.eventData == eventData && e.eventOptions == eventOptions && e.priority == if highPriority then 1 else 0
      ensures e.sqEvent == Some(QueueTime(runTime, e.priority, now, usec))
    {
      e := new TimedEvent(eventType, runTime, recurring, eventInterval, hasTimingFunction, compensate, eventData,
                          eventOptions, if highPriority then 1 else 0);
      AddEvent(e, now, usec);
    }
  }
}
