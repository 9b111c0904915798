/**
 Service notifications (base/notifications.c): the filters, the delivery and the bookkeeping.
 */
module Notifications {
  import opened Wrappers
  import opened ServiceState
  import opened NotificationLog
  import opened Objects
  import opened ContactList

  const SECONDS_PER_YEAR := 60 * 60 * 24 * 365

  /** The whole part of a number of intervals in seconds, the way a time is computed from it. */
  function Seconds(intervals: real, w: World): (s: int)
    ensures intervals >= 0.0 ==> s >= 0
  {
    (intervals * w.intervalLength as real).Floor
  }

  predicate InDowntime(svc: Service, w: World)
    reads svc
  {
    svc.scheduledDowntimeDepth > 0 || w.hostDowntimeDepth > 0
  }

  predicate InNotificationPeriod(svc: Service, w: World) {
    w.InPeriod(if svc.config.notificationPeriod.Some? then svc.config.notificationPeriod else w.hostNotificationPeriod)
  }

  /** A first notification that still has to wait. */
  predicate TooEarly(svc: Service, w: World, t: NotificationType)
    reads svc
  {
    && t == NOTIFICATION_NORMAL && svc.config.firstNotificationDelay > 0.0
    && svc.currentNotificationNumber == 0 && svc.currentState != STATE_OK
    && w.now < (if svc.lastHardStateChange > 0 then svc.lastHardStateChange else w.programStart) +
       Seconds(svc.config.firstNotificationDelay, w)
  }

  predicate NoParentUp(w: World) {
    w.hostParentStates != [] && forall i :: 0 <= i < |w.hostParentStates| ==> w.hostParentStates[i] != HOST_UP
  }

  /** What a problem or recovery notification needs, apart from the general filters. */
  predicate ProblemFilters(svc: Service, w: World, t: NotificationType)
    reads svc
  {
    && svc.stateType == HARD_STATE && !svc.problemHasBeenAcknowledged
    && !w.serviceDependenciesFailed && !w.hostDependenciesFailed
    && svc.currentState in svc.config.notificationOptions
    && (svc.currentState == STATE_OK ==> svc.notifiedOn != {})
    && !TooEarly(svc, w, t)
    && !svc.isFlapping && !InDowntime(svc, w) && !w.serviceStartsFlexDowntime && !w.hostStartsFlexDowntime
    && !svc.noMoreNotifications
    && (w.hostState == HOST_UP || w.hostStateType == SOFT_STATE) && !NoParentUp(w)
    && (svc.config.isVolatile || svc.nextNotification <= w.now)
  }

  /** When a notification passes all filters of the service. */
  predicate Viable(svc: Service, w: World, t: NotificationType, options: NotificationOptions)
    reads svc
  {
    options.forced ||
    (&& w.notificationsEnabled && svc.notificationsEnabled && InNotificationPeriod(svc, w)
     && match t
        case NOTIFICATION_CUSTOM => !InDowntime(svc, w)
        case NOTIFICATION_ACKNOWLEDGEMENT => svc.currentState != STATE_OK
        case NOTIFICATION_FLAPPINGSTART | NOTIFICATION_FLAPPINGSTOP | NOTIFICATION_FLAPPINGDISABLED =>
          OPT_FLAPPING in svc.config.notificationOptions && !InDowntime(svc, w)
        case NOTIFICATION_DOWNTIMESTART | NOTIFICATION_DOWNTIMEEND | NOTIFICATION_DOWNTIMECANCELLED =>
          OPT_DOWNTIME in svc.config.notificationOptions && svc.scheduledDowntimeDepth <= 0
        case _ => ProblemFilters(svc, w, t))
  }

  /** The program, the service and the period allow notifications. */
  predicate Allowed(svc: Service, w: World)
    reads svc
  {
    && w.notificationsEnabled && svc.notificationsEnabled
    && match svc.config.notificationPeriod
       case Some(own) => own in w.validNow
       case None => w.hostNotificationPeriod.Some? ==> w.hostNotificationPeriod.value in w.validNow
  }

  /** Nothing that is known of the service keeps a problem or a recovery from being notified. */
  predicate Undisturbed(svc: Service, w: World)
    reads svc
  {
    && svc.stateType.HARD_STATE? && !svc.problemHasBeenAcknowledged && !svc.isFlapping && !svc.noMoreNotifications
    && svc.scheduledDowntimeDepth <= 0 && w.hostDowntimeDepth <= 0
    && !w.serviceStartsFlexDowntime && !w.hostStartsFlexDowntime
    && !w.serviceDependenciesFailed && !w.hostDependenciesFailed
    && !(w.hostState != 0 && w.hostStateType.HARD_STATE?)
    && (w.hostParentStates == [] || 0 in w.hostParentStates)
    && svc.currentState in svc.config.notificationOptions
  }

  /**
   A recovery goes out exactly if it is allowed and undisturbed, somebody was notified, and it is time; the time
   does not count for volatile services.
   */
  lemma RecoveryViableIff(svc: Service, w: World, options: NotificationOptions)
    requires svc.currentState == 0 && !options.forced
    ensures Viable(svc, w, NOTIFICATION_RECOVERY, options) <==>
      && Allowed(svc, w) && Undisturbed(svc, w) && svc.notifiedOn != {}
      && (svc.config.isVolatile || w.now >= svc.nextNotification)
  {
  }

  /** A problem does under the same conditions, once the delay of the first notification is over. */
  lemma ProblemViableIff(svc: Service, w: World, options: NotificationOptions)
    requires svc.currentState != 0 && !options.forced
    ensures
      var since := if svc.lastHardStateChange > 0 then svc.lastHardStateChange else w.programStart;
      var delayed := svc.config.firstNotificationDelay > 0.0 && svc.currentNotificationNumber == 0 &&
                     w.now < since + Seconds(svc.config.firstNotificationDelay, w);
      Viable(svc, w, NOTIFICATION_NORMAL, options) <==>
        && Allowed(svc, w) && Undisturbed(svc, w) && !delayed
        && (svc.config.isVolatile || w.now >= svc.nextNotification)
  {
  }

  /** Other notifications pass fewer filters, and forced ones none. */
  lemma OthersViableIff(svc: Service, w: World, t: NotificationType, options: NotificationOptions)
    ensures options.forced ==> Viable(svc, w, t, options)
    ensures !options.forced ==>
      var outOfDowntime := svc.scheduledDowntimeDepth <= 0 && w.hostDowntimeDepth <= 0;
      && (t == NOTIFICATION_CUSTOM ==> (Viable(svc, w, t, options) <==> Allowed(svc, w) && outOfDowntime))
      && (t == NOTIFICATION_ACKNOWLEDGEMENT ==>
          (Viable(svc, w, t, options) <==> Allowed(svc, w) && svc.currentState != 0))
      && (t in {NOTIFICATION_FLAPPINGSTART, NOTIFICATION_FLAPPINGSTOP, NOTIFICATION_FLAPPINGDISABLED} ==>
          (Viable(svc, w, t, options) <==> Allowed(svc, w) && 11 in svc.config.notificationOptions && outOfDowntime))
      && (t in {NOTIFICATION_DOWNTIMESTART, NOTIFICATION_DOWNTIMEEND, NOTIFICATION_DOWNTIMECANCELLED} ==>
          (Viable(svc, w, t, options) <==>
           Allowed(svc, w) && 12 in svc.config.notificationOptions && svc.scheduledDowntimeDepth <= 0))
  {
  }

  /** A whole number of intervals is that many interval lengths. */
  lemma WholeIntervals(n: nat, w: World)
    ensures Seconds(n as real, w) == n * w.intervalLength
  {
    assert n as real * w.intervalLength as real == (n * w.intervalLength) as real;
  }

  /**
   When a problem is tried again that came outside the notification period: at the next valid time of
   the service's own period, even where the period that was consulted is the one inherited from the host.
   */
  function NextStart(svc: Service, w: World): int {
    var start := w.nextValidTime(svc.config.notificationPeriod);
    if start == 0 then w.now + SECONDS_PER_YEAR else start
  }

  /** A problem notification outside its timeperiod moves the next one. */
  function PeriodDeferral(h: History, svc: Service, w: World, t: NotificationType,
                          options: NotificationOptions): History {
    if !options.forced && w.notificationsEnabled && !InNotificationPeriod(svc, w) && t == NOTIFICATION_NORMAL then
      Then(h, Deferred(NextStart(svc, w)))
    else h
  }

  /** Counts the parents of the host that are not up. */
  method AllParentsBad(w: World) returns (bad: bool)
    ensures bad <==> NoParentUp(w)
  {
    if w.hostParentStates == [] {
      return false;
    }
    var badParents := 0;
    for i := 0 to |w.hostParentStates|
      invariant badParents <= i
      invariant badParents == i <==> forall j :: 0 <= j < i ==> w.hostParentStates[j] != HOST_UP
    {
      if w.hostParentStates[i] != HOST_UP {
        badParents := badParents + 1;
      }
    }
    return badParents == |w.hostParentStates|;
  }

  /** Moves the next notification to the next time that the service's own period allows. */
  method DeferToPeriod(svc: Service, w: World)
    requires svc.NotesOk()
    modifies svc`nextNotification, svc`history
    ensures svc.NotesOk() && svc.history == Then(old(svc.history), Deferred(NextStart(svc, w)))
  {
    var start := w.nextValidTime(svc.config.notificationPeriod);
    if start == 0 {
      svc.nextNotification := w.now + SECONDS_PER_YEAR;
    } else {
      svc.nextNotification := start;
    }
    svc.history := Then(svc.history, Deferred(svc.nextNotification));
  }

  method CheckServiceNotificationViability(svc: Service, w: World, t: NotificationType, options: NotificationOptions)
    returns (ok: bool)
    requires svc.NotesOk()
    modifies svc`nextNotification, svc`history
    ensures svc.NotesOk()
    ensures ok <==> old(Viable(svc, w, t, options))
    ensures svc.history == PeriodDeferral(old(svc.history), svc, w, t, options)
  {
    if options.forced {
      return true;
    }
    if !w.notificationsEnabled {
      return false;
    }
    var period := svc.config.notificationPeriod;
    if period.None? {
      period := w.hostNotificationPeriod;
    }
    if !w.InPeriod(period) {
      if t == NOTIFICATION_NORMAL {
        DeferToPeriod(svc, w);
      }
      return false;
    }
    if !svc.notificationsEnabled {
      return false;
    }
    if t == NOTIFICATION_CUSTOM {
      return !(svc.scheduledDowntimeDepth > 0 || w.hostDowntimeDepth > 0);
    }
    if t == NOTIFICATION_ACKNOWLEDGEMENT {
      return svc.currentState != STATE_OK;
    }
    if t == NOTIFICATION_FLAPPINGSTART || t == NOTIFICATION_FLAPPINGSTOP || t == NOTIFICATION_FLAPPINGDISABLED {
      if OPT_FLAPPING !in svc.config.notificationOptions {
        return false;
      }
      return !(svc.scheduledDowntimeDepth > 0 || w.hostDowntimeDepth > 0);
    }
    if t == NOTIFICATION_DOWNTIMESTART || t == NOTIFICATION_DOWNTIMEEND || t == NOTIFICATION_DOWNTIMECANCELLED {
      if OPT_DOWNTIME !in svc.config.notificationOptions {
        return false;
      }
      return !(svc.scheduledDowntimeDepth > 0);
    }
    if svc.stateType == SOFT_STATE || svc.problemHasBeenAcknowledged {
      return false;
    }
    if w.serviceDependenciesFailed || w.hostDependenciesFailed {
      return false;
    }
    if svc.currentState !in svc.config.notificationOptions {
      return false;
    }
    if svc.currentState == STATE_OK && svc.notifiedOn == {} {
      return false;
    }
    if t == NOTIFICATION_NORMAL && svc.config.firstNotificationDelay > 0.0 && svc.currentNotificationNumber == 0 &&
      svc.currentState != STATE_OK {
      var lastProblemTime := if svc.lastHardStateChange > 0 then svc.lastHardStateChange else w.programStart;
      if w.now < lastProblemTime + Seconds(svc.config.firstNotificationDelay, w) {
        return false;
      }
    }
    if svc.isFlapping || svc.scheduledDowntimeDepth > 0 || w.hostDowntimeDepth > 0 {
      return false;
    }
    if w.serviceStartsFlexDowntime || w.hostStartsFlexDowntime {
      return false;
    }
    if svc.noMoreNotifications {
      return false;
    }
    if w.hostState != HOST_UP && w.hostStateType == HARD_STATE {
      return false;
    }
    var badParents := AllParentsBad(w);
    if badParents {
      return false;
    }
    if w.now < svc.nextNotification && !svc.config.isVolatile {
      return false;
    }
    return true;
  }

  /** What a notification that does not pass the filters leaves in the history. */
  function AfterBlock(h: History, svc: Service, w: World, t: NotificationType): History
    reads svc
  {
    var h := if t == NOTIFICATION_RECOVERY && OPT_RECOVERY !in svc.config.notificationOptions
      then Then(h, RecoveryUnwanted) else h;
    if svc.config.notificationInterval == 0.0 && InDowntime(svc, w) then Then(h, Deferred(w.now)) else h
  }

  predicate Counts(t: NotificationType, options: NotificationOptions) {
    t == NOTIFICATION_NORMAL || options.increment
  }

  /** The notification as the contact list sees it: with the number it will have. */
  function OccasionFor(svc: Service, w: World, t: NotificationType, options: NotificationOptions): Occasion
    reads svc
  {
    Occasion(w, svc.config, svc.currentState, svc.notifiedOn,
             svc.currentNotificationNumber + (if Counts(t, options) then 1 else 0), t, options)
  }

  /** What a notification that reaches somebody leaves in the history. */
  ghost function AfterSending(h: History, svc: Service, w: World, t: NotificationType, options: NotificationOptions,
                              interval: real): History
    requires interval >= 0.0
    reads svc
  {
    if t == NOTIFICATION_NORMAL || t == NOTIFICATION_RECOVERY then
      Then(h, Sent(if t == NOTIFICATION_NORMAL then Problem else Recovery, svc.currentState, w.now,
                   Seconds(interval, w), interval == 0.0 && !svc.config.isVolatile, options.forced))
    else if options.increment then Then(h, Incremented)
    else h
  }

  /**
   What is left of the fields when a notification is blocked: an unwanted recovery settles the problems, a
   problem outside its period waits for the period's next time, or a year if it has none, and an interval of
   0 does not outlast a downtime.
   */
  lemma FieldsWhenBlocked(h: History, svc: Service, w: World, t: NotificationType)
    ensures
      var before, after := After(h),
          After(AfterBlock(PeriodDeferral(h, svc, w, t, NOTIFICATION_OPTION_NONE), svc, w, t));
      var settled := t == NOTIFICATION_RECOVERY && 0 !in svc.config.notificationOptions;
      var start := w.nextValidTime(svc.config.notificationPeriod);
      && after.number == (if settled then 0 else before.number)
      && after.notifiedOn == (if settled then {} else before.notifiedOn)
      && after.last == before.last && after.closed == before.closed
      && after.next ==
        (if svc.config.notificationInterval == 0.0 && (svc.scheduledDowntimeDepth > 0 || w.hostDowntimeDepth > 0)
         then w.now
         else if t == NOTIFICATION_NORMAL && w.notificationsEnabled && !InNotificationPeriod(svc, w)
         then (if start == 0 then w.now + 365 * 24 * 3600 else start)
         else before.next)
  {
  }

  /** What a delivery makes of them. */
  lemma FieldsWhenSent(h: History, svc: Service, w: World, t: NotificationType, options: NotificationOptions,
                       interval: real)
    requires interval >= 0.0
    ensures
      var before, after := After(h), After(AfterSending(h, svc, w, t, options, interval));
      && (t == NOTIFICATION_NORMAL ==>
          after.number == before.number + 1 && after.notifiedOn == before.notifiedOn + {svc.currentState})
      && (t == NOTIFICATION_RECOVERY ==> after.number == 0 && after.notifiedOn == {})
      && (t in {NOTIFICATION_NORMAL, NOTIFICATION_RECOVERY} ==>
          after.last == w.now && after.next == w.now + Seconds(interval, w) &&
          (after.closed <==> interval == 0.0 && !svc.config.isVolatile))
      && (t !in {NOTIFICATION_NORMAL, NOTIFICATION_RECOVERY} ==>
          after == before.(number := before.number + if options.increment then 1 else 0))
  {
  }

  /** The number that escalations go by counts the problem at hand. */
  lemma NumberOfOccasion(svc: Service, w: World)
    ensures OccasionFor(svc, w, NOTIFICATION_NORMAL, NOTIFICATION_OPTION_NONE).number == svc.currentNotificationNumber +
      1
    ensures OccasionFor(svc, w, NOTIFICATION_RECOVERY, NOTIFICATION_OPTION_NONE).number == svc.currentNotificationNumber
  {
  }

  /** The time of the next notification, counted from offset; interval 0 means there is none. */
  method GetNextServiceNotificationTime(svc: Service, o: Occasion, offset: int)
    returns (next: int, ghost interval: real)
    requires svc.ConfigOk() && o.config == svc.config
    modifies svc`noMoreNotifications
    ensures IsInterval(o, interval) && interval >= 0.0
    ensures next == offset + Seconds(interval, o.w)
    ensures svc.noMoreNotifications <==> interval == 0.0 && !svc.config.isVolatile
  {
    var chosen := ChooseInterval(o);
    if chosen == 0.0 && !svc.config.isVolatile {
      svc.noMoreNotifications := true;
    } else {
      svc.noMoreNotifications := false;
    }
    next, interval := offset + Seconds(chosen, o.w), chosen;
  }

  /** A recovery that nobody wants still settles the problems before it. */
  method SettleUnwanted(svc: Service)
    requires svc.NotesOk()
    modifies svc`currentNotificationNumber, svc`notifiedOn, svc`history
    ensures svc.NotesOk() && svc.history == Then(old(svc.history), RecoveryUnwanted)
  {
    svc.notifiedOn := {};
    svc.currentNotificationNumber := 0;
    svc.history := Then(svc.history, RecoveryUnwanted);
  }

  /** During downtime a service with interval 0 is left to be tried again. */
  method LeaveForLater(svc: Service, now: int)
    requires svc.NotesOk()
    modifies svc`nextNotification, svc`history
    ensures svc.NotesOk() && svc.history == Then(old(svc.history), Deferred(now))
  {
    svc.nextNotification := now;
    svc.history := Then(svc.history, Deferred(now));
  }

  method HandleBlocked(svc: Service, w: World, t: NotificationType)
    requires svc.NotesOk()
    modifies svc`currentNotificationNumber, svc`notifiedOn, svc`nextNotification, svc`history
    ensures svc.NotesOk()
    ensures svc.history == old(AfterBlock(svc.history, svc, w, t))
  {
    if t == NOTIFICATION_RECOVERY && OPT_RECOVERY !in svc.config.notificationOptions {
      SettleUnwanted(svc);
    }
    if svc.config.notificationInterval == 0.0 {
      if w.hostDowntimeDepth > 0 || svc.scheduledDowntimeDepth > 0 {
        LeaveForLater(svc, w.now);
      }
    }
  }

  /** The fields after a delivery: a problem adds its state, a recovery settles all. */
  method RecordDelivery(svc: Service, t: NotificationType, now: int, next: int)
    modifies svc`currentNotificationNumber, svc`notifiedOn, svc`lastNotification, svc`nextNotification
    ensures svc.Notes() ==
      if t == NOTIFICATION_NORMAL
      then NotificationLog.Notes(old(svc.currentNotificationNumber), old(svc.notifiedOn) + {svc.currentState}, now,
                                 next, svc.noMoreNotifications)
      else NotificationLog.Notes(0, {}, now, next, svc.noMoreNotifications)
  {
    svc.nextNotification := next;
    svc.lastNotification := now;
    if t == NOTIFICATION_NORMAL {
      svc.notifiedOn := svc.notifiedOn + {svc.currentState};
    } else {
      svc.notifiedOn := {};
      svc.currentNotificationNumber := 0;
    }
  }

  /** Contacts were notified of a problem or a recovery; the number already counts the problem. */
  method HandleDelivered(svc: Service, o: Occasion) returns (ghost interval: real)
    requires svc.ConfigOk() && o.config == svc.config && o.state == svc.currentState &&
      o.number == svc.currentNotificationNumber
    requires o.notificationType in {NOTIFICATION_NORMAL, NOTIFICATION_RECOVERY}
    requires Legal(svc.history, svc.config.isVolatile)
    requires svc.Notes() == After(svc.history).(number := svc.currentNotificationNumber)
    requires o.notificationType == NOTIFICATION_NORMAL ==>
      svc.currentNotificationNumber == After(svc.history).number + 1
    requires o.options.forced ||
      (&& !svc.noMoreNotifications && (svc.config.isVolatile || svc.nextNotification <= o.w.now)
       && (svc.currentState == STATE_OK ==> svc.notifiedOn != {}))
    requires o.notificationType == NOTIFICATION_RECOVERY ==> svc.currentState == STATE_OK
    modifies svc`currentNotificationNumber, svc`notifiedOn, svc`lastNotification, svc`nextNotification,
             svc`noMoreNotifications, svc`history
    ensures svc.NotesOk() && interval >= 0.0 && IsInterval(o, interval)
    ensures svc.history == old(AfterSending(svc.history, svc, o.w, o.notificationType, o.options, interval))
  {
    var next;
    next, interval := GetNextServiceNotificationTime(svc, o, o.w.now);
    RecordDelivery(svc, o.notificationType, o.w.now, next);
    ghost var sent := Sent(if o.notificationType == NOTIFICATION_NORMAL then Problem else Recovery, svc.currentState,
                           o.w.now, Seconds(interval, o.w),
                           interval == 0.0 && !svc.config.isVolatile, o.options.forced);
    assert svc.Notes() == Advance(After(svc.history), sent);
    svc.history := Then(svc.history, sent);
  }

  /** The part of a notification that comes after the filters. */
  method NotifyContacts(svc: Service, w: World, t: NotificationType, options: NotificationOptions)
    returns (notified: seq<nat>, ghost interval: real)
    requires svc.ConfigOk() && svc.NotesOk() && w.Serves(svc.config) && Viable(svc, w, t, options)
    requires t == NOTIFICATION_RECOVERY ==> svc.currentState == STATE_OK
    modifies svc`currentNotificationNumber, svc`notifiedOn, svc`lastNotification, svc`nextNotification,
             svc`noMoreNotifications, svc`history
    ensures svc.NotesOk() && interval >= 0.0
    ensures Lists(notified, old(OccasionFor(svc, w, t, options)).Wanted())
    ensures notified == [] ==> svc.history == old(svc.history)
    ensures notified != [] ==>
      && svc.history == old(AfterSending(svc.history, svc, w, t, options, interval))
      && (t in {NOTIFICATION_NORMAL, NOTIFICATION_RECOVERY} ==>
          IsInterval(old(OccasionFor(svc, w, t, options)), interval))
  {
    interval := 0.0;
    var increment := t == NOTIFICATION_NORMAL || options.increment;
    if increment {
      svc.currentNotificationNumber := svc.currentNotificationNumber + 1;
    }
    var list := new NotificationList();
    var o := Occasion(w, svc.config, svc.currentState, svc.notifiedOn, svc.currentNotificationNumber, t, options);
    assert o == old(OccasionFor(svc, w, t, options));
    var escalated := list.Create(o);
    notified := list.contacts;
    if notified != [] {
      if t == NOTIFICATION_NORMAL || t == NOTIFICATION_RECOVERY {
        interval := HandleDelivered(svc, o);
      } else if increment {
        svc.history := Then(svc.history, Incremented);
      }
    } else {
      if increment {
        svc.currentNotificationNumber := svc.currentNotificationNumber - 1;
      }
    }
  }

  /**
   Tries to notify the contacts of a service.  It is blocked exactly by the filters; otherwise the
   wanted contacts are notified, and the history grows by what that means.  Recoveries are only
   ever sent for services in an OK state (base/checks.c, base/flapping.c, base/commands.c).
   */
  method ServiceNotification(svc: Service, w: World, t: NotificationType, options: NotificationOptions)
    returns (ok: bool, notified: seq<nat>, ghost interval: real)
    requires svc.ConfigOk() && svc.NotesOk() && w.Serves(svc.config)
    requires t == NOTIFICATION_RECOVERY ==> svc.currentState == STATE_OK
    modifies svc`currentNotificationNumber, svc`notifiedOn, svc`lastNotification, svc`nextNotification,
             svc`noMoreNotifications, svc`history
    ensures svc.NotesOk() && interval >= 0.0
    ensures ok <==> old(Viable(svc, w, t, options))
    ensures !ok ==>
      notified == [] && svc.history == old(AfterBlock(PeriodDeferral(svc.history, svc, w, t, options), svc, w, t))
    ensures ok ==> Lists(notified, old(OccasionFor(svc, w, t, options)).Wanted())
    ensures ok && notified == [] ==> svc.history == old(svc.history)
    ensures ok && notified != [] ==>
      && svc.history == old(AfterSending(svc.history, svc, w, t, options, interval))
      && (t in {NOTIFICATION_NORMAL, NOTIFICATION_RECOVERY} ==>
          IsInterval(old(OccasionFor(svc, w, t, options)), interval))
  {
    notified, interval := [], 0.0;
    ok := CheckServiceNotificationViability(svc, w, t, options);
    if ok {
      notified, interval := NotifyContacts(svc, w, t, options);
    } else {
      HandleBlocked(svc, w, t);
    }
  }

  /**
   Asks for a notification without options, and reports what was asked for. Only problems add to the
   states that somebody was notified of, and only recoveries clear them.
   */
  method Ask(svc: Service, w: World, t: NotificationType) returns (asked: seq<NotificationType>)
    requires svc.ConfigOk() && svc.NotesOk() && w.Serves(svc.config)
    requires t == NOTIFICATION_RECOVERY ==> svc.currentState == STATE_OK
    modifies svc`currentNotificationNumber, svc`notifiedOn, svc`lastNotification, svc`nextNotification,
             svc`noMoreNotifications, svc`history
    ensures svc.NotesOk() && Continues(svc.history, old(svc.history)) && asked == [t]
    ensures !old(Viable(svc, w, t, NOTIFICATION_OPTION_NONE)) ==>
      svc.history == old(AfterBlock(PeriodDeferral(svc.history, svc, w, t, NOTIFICATION_OPTION_NONE), svc, w, t))
    ensures t != NOTIFICATION_NORMAL ==> NoProblemSince(svc.history, old(svc.history))
    ensures t !in {NOTIFICATION_NORMAL, NOTIFICATION_RECOVERY} ==> NoResetSince(svc.history, old(svc.history))
    ensures old(Viable(svc, w, t, NOTIFICATION_OPTION_NONE)) && t in {NOTIFICATION_NORMAL, NOTIFICATION_RECOVERY} ==>
      if old(OccasionFor(svc, w, t, NOTIFICATION_OPTION_NONE)).Wanted() == {} then svc.history == old(svc.history)
      else svc.history.Then? && svc.history.before == old(svc.history)
           && svc.history.latest.Sent? && svc.history.latest.time == w.now
  {
    var ok, notified, _ := ServiceNotification(svc, w, t, NOTIFICATION_OPTION_NONE);
    asked := [t];
    assert notified != [] ==> notified[0] in notified;
  }
}
