/**
 The main loop (event_execution_loop): it takes the earliest event, lets commands and check results
 come in, and then runs, nudges or skips that event. Whatever happens on the way, every object
 points to its pending check, which is the only one queued for it, and events are counted right.
 */
module MainLoop {
  import opened Wrappers
  import opened EventQueue
  import opened CheckScheduling
  import opened Smoothing
  import opened TimeChange

  /** What input and event handlers do to the queue. Events of scheduled downtime may be cancelled. */
  datatype Action =
    | RequestCheck(o: CheckedObject, f: Freshness, checkTime: int, options: set<int>)
    | NewEvent(eventType: int, highPriority: bool, runTime: int, recurring: bool, eventInterval: nat,
               hasTimingFunction: bool, compensate: bool)
    | CancelEvent(e: TimedEvent)

  ghost function Cancelled(actions: seq<Action>): set<TimedEvent> {
    set a | a in actions && a.CancelEvent? :: a.e
  }

  function TypeFor(o: CheckedObject): int {
    match o
    case ServiceObject(_) => 0
    case HostObject(_) => 12
  }

  /** The accepted requests for an object among some actions. */
  function RequestsFor(o: CheckedObject, actions: seq<Action>, now: int): seq<Check> {
    if actions == [] then []
    else
      var before, a := RequestsFor(o, actions[..|actions| - 1], now), actions[|actions| - 1];
      if a.RequestCheck? && a.o == o && Accepted(o, a.f, now, a.checkTime, a.options)
      then before + [Check(CHECK_OPTION_FORCE_EXECUTION in a.options, a.checkTime)]
      else before
  }

  /** What counts are the requests for the object itself, at their time, unless they are turned down. */
  lemma {:induction false} RequestsAreForObject(o: CheckedObject, actions: seq<Action>, now: int, r: Check)
    ensures r in RequestsFor(o, actions, now) <==> exists i | 0 <= i < |actions| ::
      var a := actions[i];
      && a.RequestCheck? && a.o == o && r.time == a.checkTime
      && (r.forced <==> 0 in a.options)
      && (a.f.checksEnabled || 0 in a.options)
      && (a.options == {3} ==>
          (o.ServiceObject? && now < a.f.lastCheck) || a.f.lastCheck + a.f.cachedHorizon <= a.checkTime)
  {
    if actions != [] {
      var before := actions[..|actions| - 1];
      RequestsAreForObject(o, before, now, r);
      assert forall i | 0 <= i < |before| :: before[i] == actions[i];
    }
  }

  predicate IsCheckType(eventType: int) {
    eventType == EVENT_SERVICE_CHECK || eventType == EVENT_HOST_CHECK
  }

  /** What one action makes of the pending check of an object. */
  function PendingAfter(pending: Option<Check>, o: CheckedObject, action: Action, now: int): Option<Check> {
    if action.RequestCheck? && action.o == o && Accepted(o, action.f, now, action.checkTime, action.options)
    then Merge(pending, Check(CHECK_OPTION_FORCE_EXECUTION in action.options, action.checkTime))
    else pending
  }

  /** A request for a check; no other object's pending check changes. */
  method Request(s: Scheduler, action: Action, now: When, ghost excepted: TimedEvent?)
    requires s.Sound() && s.Linked(excepted) && action.RequestCheck?
    modifies s`queue, s`currentEvent, s`clock, s.eventCount, s`nextCheckEvent, s`nextCheck, s`checkOptions
    modifies if action.o in s.nextCheckEvent then {s.nextCheckEvent[action.o]} else {}
    ensures s.clock <= Later(old(s.clock), now.sec)
    ensures s.Sound() && s.Linked(excepted) && fresh(s.queue - old(s.queue)) && old(s.queue) <= s.queue
    ensures forall o :: Pending(s, o) == PendingAfter(old(Pending(s, o)), o, action, now.sec)
    ensures s.currentEvent == null || s.currentEvent == old(s.currentEvent)
    ensures s.currentEvent != null ==>
      s.currentEvent.Stands(old(s.currentEvent.eventType), old(s.currentEvent.eventOptions),
                            old(s.currentEvent.sqEvent))
    ensures old(s.InTime()) ==> s.InTime()
  {
    InTimeByPending(s);
    ScheduleOnly(s, action.o, action.f, action.checkTime, action.options, now, excepted);
    InTimeByPending(s);
  }

  /** The event is the one asked for. */
  predicate Asked(e: TimedEvent, action: Action)
    requires action.NewEvent?
    reads e`eventType, e`runTime, e`recurring
  {
    e.eventType == action.eventType && e.runTime == action.runTime && e.recurring == action.recurring
  }

  /** A new event that is not for a check. */
  method AddOther(s: Scheduler, action: Action, now: When, ghost excepted: TimedEvent?)
    requires s.Sound() && s.Linked(excepted) && action.NewEvent? && !IsCheckType(action.eventType)
    modifies s`queue, s`currentEvent, s`clock, s.eventCount
    ensures s.Sound() && s.Linked(excepted) && s.clock <= Later(old(s.clock), now.sec)
    ensures old(s.queue) <= s.queue && fresh(s.queue - old(s.queue)) && s.currentEvent == old(s.currentEvent)
    ensures exists e :: e in s.queue && fresh(e) && Asked(e, action)
  {
    var _ := s.ScheduleNewEvent(action.eventType, action.highPriority, action.runTime, action.recurring,
                                action.eventInterval, action.hasTimingFunction, action.compensate, None, {}, now.sec,
                                now.usec);
  }

  /** Performs one action. */
  method PerformOne(s: Scheduler, action: Action, now: When, ghost excepted: TimedEvent?)
    requires s.Sound() && s.Linked(excepted) && (action.CancelEvent? ==> excepted == null)
    modifies s`queue, s`currentEvent, s`clock, s.eventCount, s`nextCheckEvent, s`nextCheck, s`checkOptions
    modifies set e | e in s.queue && e != excepted
    ensures s.clock <= Later(old(s.clock), now.sec)
    ensures s.Sound() && s.Linked(excepted) && fresh(s.queue - old(s.queue))
    ensures forall o :: Pending(s, o) == PendingAfter(old(Pending(s, o)), o, action, now.sec)
    ensures old(s.queue) - Cancelled([action]) <= s.queue &&
      (s.currentEvent == null || s.currentEvent == old(s.currentEvent))
    ensures s.currentEvent != null ==>
      s.currentEvent.Stands(old(s.currentEvent.eventType), old(s.currentEvent.eventOptions),
                            old(s.currentEvent.sqEvent))
    ensures old(s.InTime()) ==> s.InTime()
    ensures action.CancelEvent? && !old(action.e.IsCheck()) ==> action.e !in s.queue
    ensures action.NewEvent? && !IsCheckType(action.eventType) ==>
      exists e :: e in s.queue && fresh(e) && Asked(e, action)
  {
    match action {
      case RequestCheck(_, _, _, _) =>
        Request(s, action, now, excepted);
      case NewEvent(eventType, _, _, _, _, _, _) =>
        if !IsCheckType(eventType) {
          AddOther(s, action, now, excepted);
        }
      case CancelEvent(e) =>
        if e in s.queue && !e.IsCheck() {
          s.RemoveEvent(e);
        }
    }
  }

  /**
   Performs some actions: no event but the cancelled ones is lost, and every object's pending check
   is what merging its accepted requests makes of the one it had.
   */
  method Perform(s: Scheduler, actions: seq<Action>, now: When, ghost excepted: TimedEvent?)
    requires s.Sound() && s.Linked(excepted) && (excepted != null ==> Cancelled(actions) == {})
    modifies s`queue, s`currentEvent, s`clock, s.eventCount, s`nextCheckEvent, s`nextCheck, s`checkOptions
    modifies set e | e in s.queue && e != excepted
    ensures s.clock <= Later(old(s.clock), now.sec)
    ensures s.Sound() && s.Linked(excepted) && fresh(s.queue - old(s.queue))
    ensures forall o :: Pending(s, o) == MergeAll(old(Pending(s, o)), RequestsFor(o, actions, now.sec))
    ensures old(s.queue) - Cancelled(actions) <= s.queue &&
      (s.currentEvent == null || s.currentEvent == old(s.currentEvent))
    ensures s.currentEvent != null ==>
      s.currentEvent.Stands(old(s.currentEvent.eventType), old(s.currentEvent.eventOptions),
                            old(s.currentEvent.sqEvent))
    ensures old(s.InTime()) ==> s.InTime()
  {
    for i := 0 to |actions|
      invariant s.Sound() && s.Linked(excepted) && fresh(s.queue - old(s.queue)) &&
        s.clock <= Later(old(s.clock), now.sec)
      invariant forall o :: Pending(s, o) == MergeAll(old(Pending(s, o)), RequestsFor(o, actions[..i], now.sec))
      invariant old(s.queue) - Cancelled(actions) <= s.queue &&
        (s.currentEvent == null || s.currentEvent == old(s.currentEvent))
      invariant s.currentEvent != null ==>
        s.currentEvent.Stands(old(s.currentEvent.eventType), old(s.currentEvent.eventOptions),
                              old(s.currentEvent.sqEvent))
      invariant old(s.InTime()) ==> s.InTime()
    {
      assert actions[i].CancelEvent? ==> actions[i].e in Cancelled(actions);
      assert actions[..i + 1][..i] == actions[..i];
      PerformOne(s, actions[i], now, excepted);
    }
    assert actions[..|actions|] == actions;
  }

  /**
   How an attempt to run a check ends: it is not viable at this time, or it fails later, and then is
   tried again if the object is to be checked at all.
   */
  datatype Launch = Launch(viable: bool, failsLater: bool, shouldBeScheduled: bool, f: Freshness, retryTime: int)
  {
    predicate Retried() {
      (!viable || failsLater) && shouldBeScheduled
    }
  }

  /**
   The object forgets its pending check, whose event is about to leave the queue, and the check's options if
   it is really run.
   */
  method Release(s: Scheduler, o: CheckedObject, viable: bool, ghost e: TimedEvent)
    requires s.Linked(null) && o in s.nextCheckEvent && s.nextCheckEvent[o] == e
    modifies s`nextCheckEvent, s`checkOptions
    ensures old(s.InTime()) ==> s.InTime()
    ensures s.Linked(e) && s.nextCheckEvent == old(s.nextCheckEvent) - {o} && Pending(s, o) == None
    ensures s.nextCheckEvent - {o} == s.nextCheckEvent
    ensures s.checkOptions == if viable then old(s.checkOptions)[o := {}] else old(s.checkOptions)
  {
    s.nextCheckEvent := s.nextCheckEvent - {o};
    if viable {
      s.checkOptions := s.checkOptions[o := {}];
    }
  }

  /** What is pending once an attempt to run a check with these options has been made. */
  function PendingAfterLaunch(o: CheckedObject, options: set<int>, launch: Launch, now: int): Option<Check> {
    if launch.Retried() && Accepted(o, launch.f, now, launch.retryTime, options)
    then Some(Check(CHECK_OPTION_FORCE_EXECUTION in options, launch.retryTime)) else None
  }

  /** The options of the objects then: a check that is really run clears them, another try sets them again. */
  function OptionsAfterLaunch(before: map<CheckedObject, set<int>>, o: CheckedObject, options: set<int>, launch: Launch,
                              now: int)
    : map<CheckedObject, set<int>>
  {
    var cleared := if launch.viable then before[o := {}] else before;
    if PendingAfterLaunch(o, options, launch, now).Some? then cleared[o := options] else cleared
  }

  /**
   A check that is run leaves nothing pending and no options; nor does one that cannot be started, or comes to
   nothing, of an object that is not to be scheduled; any other leaves itself, forced or not, at the
   retry time, unless checks have been disabled or its object was checked recently.
   */
  lemma LaunchOutcome(o: CheckedObject, options: set<int>, launch: Launch, now: int, before: map<CheckedObject,
                      set<int>>)
    ensures
      var pending, after := PendingAfterLaunch(o, options, launch, now),
          OptionsAfterLaunch(before, o, options, launch, now);
      && (launch.viable && !launch.failsLater ==> pending == None && after == before[o := {}])
      && (!launch.shouldBeScheduled ==> pending == None && after == if launch.viable then before[o := {}] else before)
      && ((!launch.viable || launch.failsLater) && launch.shouldBeScheduled && launch.f.checksEnabled &&
          options != {3} ==>
          pending == Some(Check(0 in options, launch.retryTime)) && o in after && after[o] == options)
      && ((!launch.viable || launch.failsLater) && !launch.f.checksEnabled && 0 !in options ==> pending == None)
      && (forall p :: p in before && p != o ==> p in after && after[p] == before[p])
  {
  }

  /** Asks again for a check that could not be started. */
  method Retry(s: Scheduler, o: CheckedObject, options: set<int>, launch: Launch, now: When, ghost e: TimedEvent)
    requires s.Sound() && s.Linked(e) && o !in s.nextCheckEvent
    modifies s`queue, s`currentEvent, s`clock, s.eventCount, s`nextCheckEvent, s`nextCheck, s`checkOptions
    ensures s.clock <= Later(old(s.clock), now.sec)
    ensures old(s.InTime()) ==> s.InTime()
    ensures s.Sound() && s.Linked(e) && old(s.queue) <= s.queue && fresh(s.queue - old(s.queue))
    ensures Pending(s, o) ==
      if Accepted(o, launch.f, now.sec, launch.retryTime, options)
      then Some(Check(CHECK_OPTION_FORCE_EXECUTION in options, launch.retryTime)) else None
    ensures s.nextCheckEvent - {o} == old(s.nextCheckEvent)
    ensures s.nextCheck == old(s.nextCheck)[o := launch.retryTime]
    ensures s.checkOptions ==
      if Accepted(o, launch.f, now.sec, launch.retryTime, options) then old(s.checkOptions)[o := options]
      else old(s.checkOptions)
  {
    ghost var before := s.nextCheck;
    s.nextCheck := s.nextCheck[o := launch.retryTime];
    assert s.nextCheck[o := launch.retryTime] == before[o := launch.retryTime];
    ScheduleFirst(s, o, launch.f, launch.retryTime, options, now, e);
  }

  /** Runs the check of an event, which is no longer its object's pending check from then on. */
  method RunScheduledCheck(s: Scheduler, o: CheckedObject, options: set<int>, launch: Launch, now: When,
                           ghost e: TimedEvent)
    requires s.Sound() && s.Linked(null) && o in s.nextCheckEvent && s.nextCheckEvent[o] == e
    modifies s`queue, s`currentEvent, s`clock, s.eventCount, s`nextCheckEvent, s`nextCheck, s`checkOptions
    ensures s.clock <= Later(old(s.clock), now.sec)
    ensures old(s.InTime()) ==> s.InTime()
    ensures s.Sound() && s.Linked(e) && old(s.queue) <= s.queue && fresh(s.queue - old(s.queue))
    ensures Pending(s, o) == PendingAfterLaunch(o, options, launch, now.sec)
    ensures s.nextCheckEvent - {o} == old(s.nextCheckEvent) - {o}
    ensures s.nextCheck == if launch.Retried() then old(s.nextCheck)[o := launch.retryTime] else old(s.nextCheck)
    ensures s.checkOptions == OptionsAfterLaunch(old(s.checkOptions), o, options, launch, now.sec)
  {
    Release(s, o, launch.viable, e);
    assert s.Sound() && s.Linked(e) && Pending(s, o) == None;
    if !launch.Retried() {
      return;
    }
    Retry(s, o, options, launch, now, e);
  }

  /** What decides whether a check may run now. */
  datatype Load = Load(canSpawn: bool, reaped: seq<Action>, maxedOut: bool, nudge: int, executeChecks: bool,
                       checkWindow: int)

  predicate LoadOk(load: Load) {
    5 <= load.nudge <= 17 && forall a :: a in load.reaped ==> !a.CancelEvent?
  }

  /** Whether the object wants its checks to run whatever the load. */
  predicate ForcedByObject(s: Scheduler, o: CheckedObject)
    reads s`checkOptions
  {
    o in s.checkOptions && CHECK_OPTION_FORCE_EXECUTION in s.checkOptions[o]
  }

  /** A service check that comes on top of the most that may run at once. */
  predicate TooMany(e: TimedEvent, load: Load)
    reads e`eventType
  {
    e.eventType == EVENT_SERVICE_CHECK && load.maxedOut
  }

  /** Forced checks run whenever a process can be started, others only if the load and the settings allow. */
  predicate MayRun(s: Scheduler, e: TimedEvent, load: Load)
    reads s`checkOptions, e`eventType, e`eventData
  {
    !e.IsCheck() ||
    (e.eventData.Some? && load.canSpawn &&
     (ForcedByObject(s, e.eventData.value) || (!TooMany(e, load) && load.executeChecks)))
  }

  /**
   What a check that is run tells of the load: a process can be started, and unless it is forced,
   checks are to be executed, and if it is one of a service, there are not too many.
   */
  predicate MayBeHandled(eventType: int, eventOptions: set<int>, load: Load) {
    var forced := CHECK_OPTION_FORCE_EXECUTION in eventOptions;
    && (eventType in {EVENT_SERVICE_CHECK, EVENT_HOST_CHECK} ==> load.canSpawn && (forced || load.executeChecks))
    && (eventType == EVENT_SERVICE_CHECK ==> forced || !load.maxedOut)
  }

  function NextCheckOf(nextCheck: map<CheckedObject, int>, o: CheckedObject): int {
    if o in nextCheck then nextCheck[o] else 0
  }

  /** Takes an event out of the queue and back in at another time. */
  method RunAt(s: Scheduler, e: TimedEvent, runTime: int, now: When)
    requires s.Sound() && e in s.queue && !e.recurring
    modifies s`queue, s`currentEvent, s`clock, s.eventCount, e`sqEvent, e`runTime
    ensures s.clock <= Later(old(s.clock), now.sec)
    ensures s.Sound() && s.queue == old(s.queue) && e.runTime == runTime
  {
    s.RemoveEvent(e);
    e.runTime := runTime;
    s.RescheduleEvent(e, now.sec, now.usec, 0);
  }

  /** Puts a pending check off: by a nudge when too many checks run already, otherwise by the check window. */
  method PutOff(s: Scheduler, e: TimedEvent, o: CheckedObject, delay: int, now: When)
    requires s.Sound() && s.Linked(null) && e in s.queue && e.IsCheck() && e.eventData == Some(o)
    modifies s`queue, s`currentEvent, s`clock, s.eventCount, s`nextCheck, e`sqEvent, e`runTime
    ensures s.clock <= Later(old(s.clock), now.sec)
    ensures old(s.InTime()) ==> s.InTime()
    ensures s.Sound() && s.Linked(null) && s.queue == old(s.queue)
    ensures s.nextCheck == old(s.nextCheck)[o := NextCheckOf(old(s.nextCheck), o) + delay] &&
      e.runTime == s.nextCheck[o]
  {
    s.nextCheck := s.nextCheck[o := NextCheckOf(s.nextCheck, o) + delay];
    RunAt(s, e, s.nextCheck[o], now);
  }

  /** Whether an event is to be handled now; a check that is not stays queued. */
  method ShouldRunEvent(s: Scheduler, e: TimedEvent, load: Load, now: When) returns (run: bool)
    requires s.Sound() && s.Linked(null) && e in s.queue && LoadOk(load)
    modifies s`queue, s`currentEvent, s`clock, s.eventCount, s`nextCheckEvent, s`nextCheck, s`checkOptions, s.queue
    ensures s.clock <= Later(old(s.clock), now.sec)
    ensures old(s.InTime()) ==> s.InTime()
    ensures s.Sound() && s.Linked(null) && old(s.queue) <= s.queue && fresh(s.queue - old(s.queue))
    ensures run <==> old(MayRun(s, e, load))
    ensures old(e.eventType) !in {EVENT_SERVICE_CHECK, EVENT_HOST_CHECK} ==> run
    ensures old(e.eventType) in {EVENT_SERVICE_CHECK, EVENT_HOST_CHECK} && !load.canSpawn ==> !run
    ensures old(e.eventType) == EVENT_SERVICE_CHECK && load.canSpawn ==>
      (run <==> CHECK_OPTION_FORCE_EXECUTION in old(e.eventOptions) || (!load.maxedOut && load.executeChecks))
    ensures old(e.eventType) == EVENT_HOST_CHECK && load.canSpawn ==>
      (run <==> CHECK_OPTION_FORCE_EXECUTION in old(e.eventOptions) || load.executeChecks)
    ensures old(e.IsCheck()) ==>
      old(e.eventData.Some?) && (old(ForcedByObject(s, e.eventData.value)) <==> old(e.Forced()))
    ensures !run && load.canSpawn ==> s.queue == old(s.queue) && e.eventData.Some? && e.eventData.value in s.nextCheck
    ensures !run && load.canSpawn ==> e.runTime == s.nextCheck[e.eventData.value]
    ensures !run && load.canSpawn ==>
      s.nextCheck[e.eventData.value] == NextCheckOf(old(s.nextCheck), e.eventData.value) +
        if old(e.eventType) == EVENT_SERVICE_CHECK && load.maxedOut then load.nudge else load.checkWindow
    ensures old(e.IsCheck()) && !load.canSpawn ==>
      forall o :: Pending(s, o) == MergeAll(old(Pending(s, o)), RequestsFor(o, load.reaped, now.sec))
    ensures run ==> s.queue == old(s.queue) && s.nextCheckEvent == old(s.nextCheckEvent)
    ensures run ==>
      e.eventType == old(e.eventType) && e.eventData == old(e.eventData) && e.recurring == old(e.recurring)
  {
    if !e.IsCheck() {
      return true;
    }
    if !load.canSpawn {
      Perform(s, load.reaped, now, null);
      return false;
    }
    var o := e.eventData.value;
    if ForcedByObject(s, o) {
      return true;
    }
    if TooMany(e, load) {
      PutOff(s, e, o, load.nudge, now);
      return false;
    }
    if !load.executeChecks {
      PutOff(s, e, o, load.checkWindow, now);
      return false;
    }
    return true;
  }

  /** What an event handler meets. */
  datatype Surroundings = Surroundings(launch: Launch, actions: seq<Action>, window: int, interCheckDelay: real,
                                       inPeriod: (CheckedObject, int) -> bool)

  predicate SurroundingsOk(x: Surroundings) {
    x.window > 0 && forall a :: a in x.actions ==> !a.CancelEvent?
  }

  /**
   Handles an event, which stays queued meanwhile: handlers add events, and lose none. Smoothing
   moves only eligible checks, and considers all of them when the clock has not gone back.
   */
  method HandleTimedEvent(s: Scheduler, e: TimedEvent, x: Surroundings, now: When)
    returns (ghost spread: seq<TimedEvent>)
    requires s.Sound() && s.Linked(null) && e in s.queue && SurroundingsOk(x)
    modifies s`queue, s`currentEvent, s`clock, s.eventCount, s`nextCheckEvent, s`nextCheck, s`checkOptions, s.queue
    ensures s.clock <= Later(old(s.clock), now.sec)
    ensures old(s.InTime()) ==> s.InTime()
    ensures s.Sound() && s.Linked(e) && e in s.queue
    ensures old(s.queue) <= s.queue && fresh(s.queue - old(s.queue))
    ensures e.eventType == old(e.eventType) && e.recurring == old(e.recurring)
    ensures e.IsCheck() ==> old(e.eventData).Some?
    ensures e.IsCheck() ==>
      Pending(s, old(e.eventData).value) ==
        PendingAfterLaunch(old(e.eventData).value, old(e.eventOptions), x.launch, now.sec)
    ensures !e.IsCheck() && e.eventType != EVENT_RESCHEDULE_CHECKS ==>
      forall o :: Pending(s, o) == MergeAll(old(Pending(s, o)), RequestsFor(o, x.actions, now.sec))
    ensures e.eventType == EVENT_RESCHEDULE_CHECKS ==>
      s.queue == old(s.queue) &&
        forall f :: f in s.queue && f !in spread ==> f.sqEvent == old(f.sqEvent) && f.runTime == old(f.runTime)
    ensures e.eventType == EVENT_RESCHEDULE_CHECKS && old(s.clock) <= now.sec ==>
      forall f :: f in s.queue ==> (f in spread <==> old(MayMove(f, now.sec, now.sec + x.window)))
  {
    spread := [];
    if e.IsCheck() {
      RunScheduledCheck(s, e.eventData.value, e.eventOptions, x.launch, now, e);
    } else if e.eventType == EVENT_RESCHEDULE_CHECKS {
      var checks, _, _, _, _ := AdjustCheckScheduling(s, now.sec, x.window, x.interCheckDelay, x.inPeriod);
      spread := checks;
    } else {
      Perform(s, x.actions, now, e);
    }
  }

  /**
   What one turn of the loop meets; customTime is what timing functions answer, usecs are the microseconds at
   successive readings.
   */
  datatype Turn = Turn(current: int, usecs: nat -> int, io: seq<Action>, now: When, load: Load, x: Surroundings,
                       customTime: int)

  predicate TurnOk(t: Turn) {
    LoadOk(t.load) && SurroundingsOk(t.x)
  }

  predicate ClockJumped(last: int, current: int, threshold: int) {
    current < last || current - last >= threshold
  }

  /** The handled event leaves the queue, and all links hold again. */
  method Retire(s: Scheduler, e: TimedEvent)
    requires s.Sound() && s.Linked(e) && e in s.queue
    modifies s`queue, s`currentEvent, s.eventCount, e`sqEvent
    ensures s.Sound() && s.Linked(null) && s.queue == old(s.queue) - {e} && e.sqEvent == None
    ensures e.recurring ==> !e.IsCheck()
    ensures forall o :: o in s.nextCheckEvent ==> s.nextCheckEvent[o] != e
  {
    s.RemoveEvent(e);
  }

  /** A recurring event goes back into the queue; checks do not recur. */
  method PutBack(s: Scheduler, e: TimedEvent, now: When, customTime: int)
    requires s.Sound() && s.Linked(null) && e !in s.queue && e.sqEvent == None && !e.IsCheck()
    modifies s`queue, s`currentEvent, s`clock, s.eventCount, e`sqEvent, e`runTime
    ensures s.Sound() && s.Linked(null) && s.queue == old(s.queue) + {e} && s.clock == Later(old(s.clock), now.sec)
  {
    s.RescheduleEvent(e, now.sec, now.usec, customTime);
  }

  /** An event has been handled: it leaves the queue, unless it recurs. */
  method Finish(s: Scheduler, e: TimedEvent, now: When, customTime: int)
    requires s.Sound() && s.Linked(e) && e in s.queue
    modifies s`queue, s`currentEvent, s`clock, s.eventCount, e`sqEvent, e`runTime
    ensures s.clock <= Later(old(s.clock), now.sec)
    ensures old(s.InTime()) ==> s.InTime()
    ensures s.Sound() && s.Linked(null) && s.queue == if e.recurring then old(s.queue) else old(s.queue) - {e}
  {
    Retire(s, e);
    if e.recurring {
      PutBack(s, e, now, customTime);
    }
  }

  /** Runs the event on turn, if it may run now. */
  method RunEvent(s: Scheduler, e: TimedEvent, t: Turn) returns (handled: bool)
    requires s.Sound() && s.Linked(null) && e in s.queue && TurnOk(t)
    modifies s`queue, s`currentEvent, s`clock, s.eventCount, s`nextCheckEvent, s`nextCheck, s`checkOptions, s.queue
    ensures s.clock <= Later(old(s.clock), t.now.sec)
    ensures old(s.InTime()) ==> s.InTime()
    ensures s.Sound() && s.Linked(null) && fresh(s.queue - old(s.queue))
    ensures old(s.queue) - (if handled && !old(e.recurring) then {e} else {}) <= s.queue
    ensures handled ==> (e in s.queue <==> old(e.recurring))
    ensures handled <==> old(MayRun(s, e, t.load))
    ensures handled ==> MayBeHandled(old(e.eventType), old(e.eventOptions), t.load)
  {
    handled := ShouldRunEvent(s, e, t.load, t.now);
    if handled {
      var _ := HandleTimedEvent(s, e, t.x, t.now);
      Finish(s, e, t.now, t.customTime);
    }
  }

  /** Either the clock has not jumped, or the jump cuts none of these times off. */
  predicate Spared(times: map<CheckedObject, int>, last: int, threshold: int, current: int) {
    ClockJumped(last, current, threshold) ==> NoneCutOff(times, last, current)
  }

  /** Brings the queue and the next check times in line with the clock, if it has jumped. */
  method MindTheClock(s: Scheduler, last: int, threshold: int, t: Turn)
    requires s.Sound() && s.Linked(null)
    modifies s`clock, s`nextCheck, s.queue`runTime, s.queue`sqEvent
    ensures s.clock == if ClockJumped(last, t.current, threshold) then t.current else old(s.clock)
    ensures old(s.InTime()) && Spared(old(CheckTimes(s)), last, threshold, t.current) ==> s.InTime()
    ensures s.Sound() && s.Linked(null)
    ensures forall f :: f in s.queue ==>
      if ClockJumped(last, t.current, threshold)
      then f.runTime == NewRunTime(f.compensateForTimeChange, f.hasTimingFunction, old(f.runTime), t.current - last,
                                   t.customTime)
      else f.runTime == old(f.runTime) && f.sqEvent == old(f.sqEvent)
    ensures s.nextCheck ==
      if ClockJumped(last, t.current, threshold)
      then map o | o in old(s.nextCheck) :: Adjust(last, t.current, old(s.nextCheck)[o])
      else old(s.nextCheck)
    ensures last <= t.current < last + threshold ==>
      s.clock == old(s.clock) && s.nextCheck == old(s.nextCheck) &&
      forall f :: f in s.queue ==> f.runTime == old(f.runTime) && f.sqEvent == old(f.sqEvent)
    ensures !(last <= t.current < last + threshold) ==>
      s.clock == t.current && forall f ::
        f in s.queue && f.compensateForTimeChange && !f.hasTimingFunction ==>
        f.runTime == old(f.runTime) + (t.current - last)
  {
    if ClockJumped(last, t.current, threshold) {
      var _ := CompensateForSystemTimeChange(s, last, t.current, t.current, t.usecs, t.customTime);
    }
  }

  /** The earliest event becomes the current one. */
  method Select(s: Scheduler) returns (e: TimedEvent?)
    requires s.Sound()
    modifies s`currentEvent
    ensures s.Sound() && s.currentEvent == e && (e == null <==> s.queue == {})
    ensures e != null ==> e in s.queue && forall f :: f in s.queue ==> NotAfter(e.sqEvent.value, f.sqEvent.value)
  {
    e := s.Peek();
    s.currentEvent := e;
  }

  /** The event on turn. */
  method NextEvent(s: Scheduler, last: int, threshold: int, t: Turn) returns (e: TimedEvent?)
    requires s.Sound() && s.Linked(null)
    modifies s`clock, s`currentEvent, s`nextCheck, s.queue`runTime, s.queue`sqEvent
    ensures s.clock == if ClockJumped(last, t.current, threshold) then t.current else old(s.clock)
    ensures old(s.InTime()) && Spared(old(CheckTimes(s)), last, threshold, t.current) ==> s.InTime()
    ensures s.Sound() && s.Linked(null) && s.currentEvent == e
    ensures e == null <==> s.queue == {}
    ensures e != null ==> e in s.queue && forall f :: f in s.queue ==> NotAfter(e.sqEvent.value, f.sqEvent.value)
    ensures !ClockJumped(last, t.current, threshold) ==> forall f :: f in s.queue ==> f.sqEvent == old(f.sqEvent)
    ensures ClockJumped(last, t.current, threshold) ==> forall f :: f in s.queue ==>
      f.runTime == NewRunTime(f.compensateForTimeChange, f.hasTimingFunction, old(f.runTime), t.current - last,
                              t.customTime)
    ensures s.nextCheck ==
      if ClockJumped(last, t.current, threshold)
      then map o | o in old(s.nextCheck) :: Adjust(last, t.current, old(s.nextCheck)[o])
      else old(s.nextCheck)
  {
    MindTheClock(s, last, threshold, t);
    e := Select(s);
  }

  /**
   Lets input come in while the loop waits for the event on turn. The event is ready afterwards unless
   input has cancelled it or put a check in its place, or it is more than 5 milliseconds early.
   */
  method Poll(s: Scheduler, e: TimedEvent, t: Turn) returns (ready: bool)
    requires s.Sound() && s.Linked(null) && s.currentEvent == e
    modifies s`queue, s`currentEvent, s`clock, s.eventCount, s`nextCheckEvent, s`nextCheck, s`checkOptions, s.queue
    ensures s.clock <= Later(old(s.clock), t.now.sec)
    ensures old(s.InTime()) ==> s.InTime()
    ensures s.Sound() && s.Linked(null) && fresh(s.queue - old(s.queue)) && old(s.queue) - Cancelled(t.io) <= s.queue
    ensures forall o :: Pending(s, o) == MergeAll(old(Pending(s, o)), RequestsFor(o, t.io, t.now.sec))
    ensures ready <==> s.currentEvent != null && e in s.queue && DeltaMsec(t.now, e.sqEvent.value) <= 5
    ensures s.currentEvent == null || s.currentEvent == e
    ensures ready ==> e.Stands(old(e.eventType), old(e.eventOptions), old(e.sqEvent))
  {
    Perform(s, t.io, t.now, null);
    if s.currentEvent == null {
      return false;
    }
    return DeltaMsec(t.now, e.sqEvent.value) <= 5;
  }

  /** The event on turn, once input has come in: it is run if it is ready, not too early, and may run under the load. */
  method TakeUp(s: Scheduler, e: TimedEvent, t: Turn) returns (run: bool)
    requires s.Sound() && s.Linked(null) && s.currentEvent == e && TurnOk(t)
    modifies s`queue, s`currentEvent, s`clock, s.eventCount, s`nextCheckEvent, s`nextCheck, s`checkOptions, s.queue
    ensures old(s.InTime()) ==> s.InTime()
    ensures s.clock <= Later(old(s.clock), t.now.sec)
    ensures s.Sound() && s.Linked(null) && fresh(s.queue - old(s.queue))
    ensures old(s.queue) - Cancelled(t.io) - {e} <= s.queue && (!run ==> old(s.queue) - Cancelled(t.io) <= s.queue)
    ensures run ==> DeltaMsec(t.now, old(e.sqEvent.value)) <= 5
    ensures run ==> MayBeHandled(old(e.eventType), old(e.eventOptions), t.load)
  {
    run := false;
    var ready := Poll(s, e, t);
    if ready {
      run := RunEvent(s, e, t);
    }
  }

  /** At most 5 whole milliseconds ahead. */
  lemma DueIn(now: When, due: When)
    ensures DeltaMsec(now, due) <= 5 <==> (due.sec - now.sec) * 1000000 + (due.usec - now.usec) < 6000
  {
  }

  /**
   One turn of the loop: no event is lost but the one handled and those cancelled. The handled event
   was an earliest one, and stood under a time, due, at most 5 milliseconds ahead: the time it was
   queued under before or, if the clock has jumped, its new run time or one that the clock had reached.
   */
  method LoopTurn(s: Scheduler, last: int, threshold: int, t: Turn)
    returns (more: bool, handled: TimedEvent?, ghost due: When)
    requires s.Sound() && s.Linked(null) && TurnOk(t)
    modifies s`queue, s`currentEvent, s`clock, s.eventCount, s`nextCheckEvent, s`nextCheck, s`checkOptions, s.queue
    ensures old(s.InTime()) && Spared(old(CheckTimes(s)), last, threshold, t.current) ==> s.InTime()
    ensures s.clock <= Later(if ClockJumped(last, t.current, threshold) then t.current else old(s.clock), t.now.sec)
    ensures s.Sound() && s.Linked(null) && fresh(s.queue - old(s.queue))
    ensures old(s.queue) - Cancelled(t.io) - {handled} <= s.queue
    ensures more <==> old(s.queue) != {}
    ensures handled != null ==> handled in old(s.queue)
    ensures handled != null && last <= t.current < last + threshold ==>
      due == old(handled.sqEvent.value) && forall f :: f in old(s.queue) ==> NotAfter(due, old(f.sqEvent.value))
    ensures handled != null && !(last <= t.current < last + threshold) ==>
      var runTime := NewRunTime(old(handled.compensateForTimeChange), old(handled.hasTimingFunction),
                                old(handled.runTime), t.current - last, t.customTime);
      runTime <= due.sec && (due.sec <= runTime || due.sec <= t.current)
    ensures handled != null ==> DeltaMsec(t.now, due) <= 5
    ensures handled != null ==> (due.sec - t.now.sec) * 1000000 + (due.usec - t.now.usec) < 6000
    ensures handled != null ==> MayBeHandled(old(handled.eventType), old(handled.eventOptions), t.load)
  {
    handled, due := null, t.now;
    var e := NextEvent(s, last, threshold, t);
    if e == null {
      more := false;
      return;
    }
    more, due := true, e.sqEvent.value;
    assert e.InStep(s.clock);
    DueIn(t.now, due);
    var run := TakeUp(s, e, t);
    if run {
      handled := e;
    }
  }

  /** The clock does not go back from one turn to the next, nor within one. */
  ghost predicate Forward(clock: int, turns: seq<Turn>) {
    && (forall i | 0 <= i < |turns| :: turns[i].current <= turns[i].now.sec && clock <= turns[i].now.sec)
    && forall i, j | 0 <= i < j < |turns| :: turns[i].now.sec <= turns[j].now.sec
  }

  /**
   At the head of turn i, when the clock goes forward, no later time has been reached than that of any turn to
   come, or of the last.
   */
  ghost predicate KeptUp(clock: int, turns: seq<Turn>, i: nat, now: int) {
    Forward(clock, turns) ==>
      (forall j | i <= j < |turns| :: now <= turns[j].now.sec) && (turns != [] ==> now <= turns[|turns| - 1].now.sec)
  }

  lemma TurnKeepsUp(clock: int, turns: seq<Turn>, i: nat, before: int, after: int, jumped: bool)
    requires i < |turns| && KeptUp(clock, turns, i, before)
    requires after <= Later(if jumped then turns[i].current else before, turns[i].now.sec)
    ensures KeptUp(clock, turns, i, after) && KeptUp(clock, turns, i + 1, after)
  {
  }

  /** The time of the turn before. */
  function LastTime(start: int, turns: seq<Turn>, i: nat): int
    requires i <= |turns|
  {
    if i == 0 then start else turns[i - 1].current
  }

  /** In none of the turns so far did a jump of the clock cut off the time of a pending check. */
  predicate NoneEverCutOff(heads: seq<map<CheckedObject, int>>, start: int, threshold: int, turns: seq<Turn>)
    requires |heads| <= |turns|
  {
    forall i | 0 <= i < |heads| :: Spared(heads[i], LastTime(start, turns, i), threshold, turns[i].current)
  }

  lemma OneMoreHead(heads: seq<map<CheckedObject, int>>, head: map<CheckedObject, int>, start: int, threshold: int,
                    turns: seq<Turn>)
    requires |heads| < |turns|
    ensures NoneEverCutOff(heads + [head], start, threshold, turns) <==>
      NoneEverCutOff(heads, start, threshold, turns) &&
      Spared(head, LastTime(start, turns, |heads|), threshold, turns[|heads|].current)
  {
    var longer := heads + [head];
    assert longer[|heads|] == head && forall i | 0 <= i < |heads| :: longer[i] == heads[i];
  }

  /**
   How a run of the loop began: its times, the clock, the check times, and whether objects and events agreed
   on those.
   */
  datatype Opening = Opening(start: int, threshold: int, clock: int, times: map<CheckedObject, int>, inTime: bool)

  /** What holds at the head of turn i, and at the end; heads gives the check times at the heads of the turns before. */
  ghost predicate Going(s: Scheduler, o: Opening, turns: seq<Turn>, i: nat, heads: seq<map<CheckedObject, int>>)
    requires i <= |turns|
    reads s`clock, s`nextCheckEvent, s`nextCheck, set o | o in s.nextCheckEvent :: s.nextCheckEvent[o]`runTime
  {
    && KeptUp(o.clock, turns, i, s.clock)
    && |heads| == i && (if i == 0 then CheckTimes(s) else heads[0]) == o.times
    && (o.inTime && NoneEverCutOff(heads, o.start, o.threshold, turns) ==> s.InTime())
  }

  /** Takes one turn. */
  method TakeTurn(s: Scheduler, last: int, turns: seq<Turn>, i: nat, ghost o: Opening, threshold: int,
                  ghost heads: seq<map<CheckedObject, int>>)
    returns (more: bool, ghost heads': seq<map<CheckedObject, int>>)
    requires s.Sound() && s.Linked(null) && i < |turns| && TurnOk(turns[i]) && Going(s, o, turns, i, heads)
    requires last == LastTime(o.start, turns, i) && threshold == o.threshold
    modifies s`queue, s`currentEvent, s`clock, s.eventCount, s`nextCheckEvent, s`nextCheck, s`checkOptions, s.queue
    ensures s.Sound() && s.Linked(null) && fresh(s.queue - old(s.queue)) && Going(s, o, turns, i + 1, heads')
  {
    ghost var head, clock := CheckTimes(s), s.clock;
    OneMoreHead(heads, head, o.start, threshold, turns);
    heads' := heads + [head];
    var m, _, _ := LoopTurn(s, last, threshold, turns[i]);
    more := m;
    TurnKeepsUp(o.clock, turns, i, clock, s.clock, ClockJumped(last, turns[i].current, threshold));
  }

  /** Takes the turns, as long as there are events. */
  method TakeTurns(s: Scheduler, start: int, threshold: int, turns: seq<Turn>, ghost o: Opening)
    returns (ghost heads: seq<map<CheckedObject, int>>)
    requires s.Sound() && s.Linked(null) && forall t :: t in turns ==> TurnOk(t)
    requires o == Opening(start, threshold, s.clock, CheckTimes(s), s.InTime())
    modifies s`queue, s`currentEvent, s`clock, s.eventCount, s`nextCheckEvent, s`nextCheck, s`checkOptions, s.queue
    ensures s.Sound() && s.Linked(null) && |heads| <= |turns| && (turns != [] ==> heads != []) &&
      Going(s, o, turns, |heads|, heads)
  {
    var last := start;
    ghost var queue := s.queue;
    heads := [];
    for i := 0 to |turns|
      invariant s.Sound() && s.Linked(null) && forall e :: e in s.queue ==> e in queue || fresh(e)
      invariant last == LastTime(start, turns, i) && |heads| == i && Going(s, o, turns, i, heads)
    {
      var more;
      more, heads := TakeTurn(s, last, turns, i, o, threshold, heads);
      if !more {
        break;
      }
      last := turns[i].current;
    }
  }

  /**
   The loop: whatever happened, every object has a pending check exactly if one is queued for it, and then no
   other; and objects go on to be checked at the times of their pending checks as long as no jump of the clock cuts
   one of these times off. heads gives them as they were at the head of each turn.
   */
  method EventExecutionLoop(s: Scheduler, start: int, threshold: int, turns: seq<Turn>)
    returns (ghost heads: seq<map<CheckedObject, int>>)
    requires s.Sound() && s.Linked(null) && forall t :: t in turns ==> TurnOk(t)
    modifies s`queue, s`currentEvent, s`clock, s.eventCount, s`nextCheckEvent, s`nextCheck, s`checkOptions, s.queue
    ensures s.Sound() && s.Linked(null)
    ensures forall o :: o in s.nextCheckEvent <==>
      exists e :: e in s.queue && e.eventData == Some(o) && e.eventType == TypeFor(o)
    ensures forall o, e :: o in s.nextCheckEvent && e in s.queue ==>
      (e == s.nextCheckEvent[o] <==> e.eventData == Some(o) && e.eventType == TypeFor(o))
    ensures Forward(old(s.clock), turns) && turns != [] ==> s.clock <= turns[|turns| - 1].now.sec
    ensures |heads| <= |turns| && (turns != [] ==> heads != [] && heads[0] == old(CheckTimes(s)))
    ensures old(s.InTime()) && NoneEverCutOff(heads, start, threshold, turns) ==> s.InTime()
  {
    heads := TakeTurns(s, start, threshold, turns, Opening(start, threshold, s.clock, CheckTimes(s), s.InTime()));
    s.PendingEvents();
  }
}
