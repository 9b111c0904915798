/**
 Who is notified (base/notifications.c): escalations, contact filters, and the list of contacts
 without duplicates.
 */
module ContactList {
  import opened Wrappers
  import opened ServiceState
  import opened Objects

  /** One notification about a service, as the list of its contacts is being made. */
  datatype Occasion = Occasion(
    w: World, config: Config, state: int, notifiedOn: set<int>, number: int,
    notificationType: NotificationType, options: NotificationOptions)
  {
    /** The filters of a single contact. */
    predicate Accepts(c: Contact) {
      options.forced ||
      (&& c.minimumValue <= config.hourlyValue
       && c.serviceNotificationsEnabled
       && w.InPeriod(c.period)
       && match notificationType
          case NOTIFICATION_CUSTOM => true
          case NOTIFICATION_FLAPPINGSTART | NOTIFICATION_FLAPPINGSTOP | NOTIFICATION_FLAPPINGDISABLED =>
            OPT_FLAPPING in c.options
          case NOTIFICATION_DOWNTIMESTART | NOTIFICATION_DOWNTIMEEND | NOTIFICATION_DOWNTIMECANCELLED =>
            OPT_DOWNTIME in c.options
          case _ =>
            state in c.options && (state == STATE_OK ==> OPT_RECOVERY in c.options && notifiedOn * c.options != {}))
    }

    /** Whether an escalation entry applies to this notification. */
    predicate Applies(e: Escalation, broadcast: bool) {
      var n := if state == STATE_OK then number - 1 else number;
      && e.service == Some(config.id)
      && (broadcast ||
          (&& e.firstNotification <= n
           && (e.lastNotification == 0 || n <= e.lastNotification)
           && state in e.options
           && w.InPeriod(e.period)))
    }

    ghost predicate Escalated() {
      exists i :: 0 <= i < |config.escalations| && Applies(config.escalations[i], false)
    }

    /** The contacts that r names, itself or through a group. */
    ghost predicate Names(r: Recipients, c: nat)
      requires w.Resolves(r)
    {
      Some(c) in r.contacts || exists i ::
        0 <= i < |r.groups| && r.groups[i].Some? && Some(c) in w.groups[r.groups[i].value]
    }

    /** Who should be notified. */
    ghost predicate Wants(c: nat)
      requires w.Serves(config)
    {
      && c < |w.contacts| && Accepts(w.contacts[c])
      && (|| ((Escalated() || options.broadcast) &&
              exists i :: 0 <= i < |config.escalations| && Applies(config.escalations[i], options.broadcast) &&
                Names(config.escalations[i].recipients, c))
          || ((!Escalated() || options.broadcast) && Names(config.recipients, c)))
    }

    ghost function Wanted(): set<nat>
      requires w.Serves(config)
    {
      set c: nat | c < |w.contacts| && Wants(c)
    }
  }

  /** The filters of a contact, one after the other. */
  method CheckContactViability(o: Occasion, c: Contact) returns (ok: bool)
    ensures ok <==> o.Accepts(c)
    ensures !o.options.forced && ok ==>
      c.serviceNotificationsEnabled && c.minimumValue <= o.config.hourlyValue &&
      (c.period.Some? ==> c.period.value in o.w.validNow)
  {
    if o.options.forced {
      return true;
    }
    if c.minimumValue > o.config.hourlyValue {
      return false;
    }
    if !c.serviceNotificationsEnabled {
      return false;
    }
    if !o.w.InPeriod(c.period) {
      return false;
    }
    if o.notificationType == NOTIFICATION_CUSTOM {
      return true;
    }
    if o.notificationType == NOTIFICATION_FLAPPINGSTART || o.notificationType == NOTIFICATION_FLAPPINGSTOP ||
       o.notificationType == NOTIFICATION_FLAPPINGDISABLED {
      return OPT_FLAPPING in c.options;
    }
    if o.notificationType == NOTIFICATION_DOWNTIMESTART || o.notificationType == NOTIFICATION_DOWNTIMEEND ||
       o.notificationType == NOTIFICATION_DOWNTIMECANCELLED {
      return OPT_DOWNTIME in c.options;
    }
    if o.state !in c.options {
      return false;
    }
    if o.state == STATE_OK {
      if OPT_RECOVERY !in c.options {
        return false;
      }
      if o.notifiedOn * c.options == {} {
        return false;
      }
    }
    return true;
  }

  /** Whether an escalation entry is one for this notification. */
  method IsValidEscalation(o: Occasion, e: Escalation, broadcast: bool) returns (applies: bool)
    ensures applies <==> o.Applies(e, broadcast)
  {
    var number := if o.state == STATE_OK then o.number - 1 else o.number;
    if e.service.None? || e.service.value != o.config.id {
      return false;
    }
    if broadcast {
      return true;
    }
    if e.firstNotification > number {
      return false;
    }
    if e.lastNotification != 0 && e.lastNotification < number {
      return false;
    }
    if o.state !in e.options {
      return false;
    }
    return o.w.InPeriod(e.period);
  }

  /**
   Who is told of a problem or a recovery that is not forced: contacts that get notifications at this
   time, for services of this value, about this state; of a recovery, those among them who also want to
   know of recoveries and of some state that was notified.
   */
  lemma AcceptedForProblem(o: Occasion, c: Contact)
    requires !o.options.forced && o.notificationType in {NOTIFICATION_NORMAL, NOTIFICATION_RECOVERY}
    ensures o.Accepts(c) <==>
      && c.serviceNotificationsEnabled && c.minimumValue <= o.config.hourlyValue
      && (c.period == None || c.period.value in o.w.validNow)
      && o.state in c.options
      && (o.state == 0 ==> exists s :: s in o.notifiedOn && s in c.options)
  {
    if forall s :: s in o.notifiedOn ==> s !in c.options {
      assert o.notifiedOn * c.options == {};
    }
    if s :| s in o.notifiedOn && s in c.options {
      assert s in o.notifiedOn * c.options;
    }
  }

  /** Forced notifications accept everybody; those of other kinds go by an option of their own, or by none. */
  lemma AcceptedOtherwise(o: Occasion, c: Contact)
    ensures o.options.forced ==> o.Accepts(c)
    ensures !o.options.forced ==>
      var able := c.serviceNotificationsEnabled && c.minimumValue <= o.config.hourlyValue &&
                  (c.period == None || c.period.value in o.w.validNow);
      && (o.notificationType == NOTIFICATION_CUSTOM ==> (o.Accepts(c) <==> able))
      && (o.notificationType in {NOTIFICATION_FLAPPINGSTART, NOTIFICATION_FLAPPINGSTOP,
                                 NOTIFICATION_FLAPPINGDISABLED} ==>
          (o.Accepts(c) <==> able && 11 in c.options))
      && (o.notificationType in {NOTIFICATION_DOWNTIMESTART, NOTIFICATION_DOWNTIMEEND,
                                 NOTIFICATION_DOWNTIMECANCELLED} ==>
          (o.Accepts(c) <==> able && 12 in c.options))
      && (o.notificationType == NOTIFICATION_ACKNOWLEDGEMENT && o.state != 0 ==>
          (o.Accepts(c) <==> able && o.state in c.options))
  {
  }

  /**
   An escalation of the service applies from its first to its last notification, 0 standing for no
   last one, where a recovery counts as the problem before it; and in its states and its period only.
   A broadcast goes to all of the service's escalations.
   */
  lemma EscalationApplies(o: Occasion, e: Escalation)
    ensures o.Applies(e, true) <==> e.service == Some(o.config.id)
    ensures o.Applies(e, false) <==>
      && e.service == Some(o.config.id) && o.state in e.options && (e.period == None || e.period.value in o.w.validNow)
      && e.firstNotification + (if o.state == 0 then 1 else 0) <= o.number
      && (e.lastNotification == 0 || o.number <= e.lastNotification + if o.state == 0 then 1 else 0)
  {
  }

  /** The lists of recipients that count: those of the escalations that apply, the service's own, or both. */
  function RecipientsInForce(o: Occasion): (rs: seq<Recipients>)
    ensures forall r :: r in rs <==>
      || (exists i | 0 <= i < |o.config.escalations| ::
            r == o.config.escalations[i].recipients && o.Applies(o.config.escalations[i], o.options.broadcast))
      || (r == o.config.recipients && (o.options.broadcast || NoneApplies(o, |o.config.escalations|)))
  {
    OfEscalations(o, |o.config.escalations|) +
      if o.options.broadcast || NoneApplies(o, |o.config.escalations|) then [o.config.recipients] else []
  }

  function OfEscalations(o: Occasion, k: nat): (rs: seq<Recipients>)
    requires k <= |o.config.escalations|
    ensures forall r :: r in rs <==> exists i | 0 <= i < k ::
      r == o.config.escalations[i].recipients && o.Applies(o.config.escalations[i], o.options.broadcast)
  {
    if k == 0 then []
    else
      var e := o.config.escalations[k - 1];
      OfEscalations(o, k - 1) + if o.Applies(e, o.options.broadcast) then [e.recipients] else []
  }

  /** None of the first k escalations applies on its own account. */
  predicate NoneApplies(o: Occasion, k: nat)
    requires k <= |o.config.escalations|
  {
    k == 0 || (!o.Applies(o.config.escalations[k - 1], false) && NoneApplies(o, k - 1))
  }

  lemma {:induction false} NoneAppliesIff(o: Occasion, k: nat)
    requires k <= |o.config.escalations|
    ensures NoneApplies(o, k) <==> forall i | 0 <= i < k :: !o.Applies(o.config.escalations[i], false)
  {
    if k > 0 {
      NoneAppliesIff(o, k - 1);
    }
  }

  /** The list names the contact, itself or in a group. */
  predicate IsNamed(w: World, r: Recipients, c: nat) {
    Some(c) in r.contacts ||
    exists i | 0 <= i < |r.groups| ::
      r.groups[i].Some? && r.groups[i].value < |w.groups| && Some(c) in w.groups[r.groups[i].value]
  }

  /** Wanted are the accepted contacts that a list in force names, itself or as members of a group. */
  lemma WantedAreInForce(o: Occasion, c: nat)
    requires o.w.Serves(o.config)
    ensures o.Wants(c) <==>
      && c < |o.w.contacts| && o.Accepts(o.w.contacts[c])
      && exists r :: r in RecipientsInForce(o) && IsNamed(o.w, r, c)
  {
    NoneAppliesIff(o, |o.config.escalations|);
    assert o.Escalated() <==> !NoneApplies(o, |o.config.escalations|);
    if o.Wants(c) {
      var es := o.config.escalations;
      if i :| 0 <= i < |es| && o.Applies(es[i], o.options.broadcast) && o.Names(es[i].recipients, c) {
        assert es[i].recipients in RecipientsInForce(o);
      } else {
        assert o.config.recipients in RecipientsInForce(o);
      }
    }
  }

  /** s lists the contacts in wanted, each one once. */
  ghost predicate Lists(s: seq<nat>, wanted: set<nat>) {
    NoDuplicates(s) && forall c: nat :: c in s <==> c in wanted
  }

  ghost predicate NoDuplicates(s: seq<nat>) {
    forall i, j :: 0 <= i < j < |s| ==> s[i] != s[j]
  }

  /** The notification list; a new entry goes to its head. */
  class NotificationList {
    var contacts: seq<nat>

    constructor ()
      ensures contacts == []
    {
      contacts := [];
    }

    /** Looks for a contact in the list. */
    method Find(c: nat) returns (found: bool)
      ensures found <==> c in contacts
    {
      for i := 0 to |contacts|
        invariant c !in contacts[..i]
      {
        if contacts[i] == c {
          return true;
        }
      }
      return false;
    }

    method Add(c: nat)
      requires NoDuplicates(contacts)
      modifies this
      ensures NoDuplicates(contacts)
      ensures contacts == if c in old(contacts) then old(contacts) else [c] + old(contacts)
    {
      var found := Find(c);
      if !found {
        contacts := [c] + contacts;
      }
    }

    /** Adds the accepted ones among the contacts of a list. */
    method AddAccepted(o: Occasion, ids: seq<Option<nat>>)
      requires NoDuplicates(contacts)
      requires forall i :: 0 <= i < |ids| && ids[i].Some? ==> ids[i].value < |o.w.contacts|
      modifies this
      ensures NoDuplicates(contacts)
      ensures forall c: nat :: c in contacts <==>
        c in old(contacts) || (Some(c) in ids && c < |o.w.contacts| && o.Accepts(o.w.contacts[c]))
    {
      for i := 0 to |ids|
        invariant NoDuplicates(contacts)
        invariant forall c: nat :: c in contacts <==>
          c in old(contacts) || (Some(c) in ids[..i] && c < |o.w.contacts| && o.Accepts(o.w.contacts[c]))
      {
        assert ids[..i + 1] == ids[..i] + [ids[i]];
        if ids[i].Some? {
          var accepted := CheckContactViability(o, o.w.contacts[ids[i].value]);
          if accepted {
            Add(ids[i].value);
          }
        }
      }
      assert ids[..|ids|] == ids;
    }

    /** Adds the accepted ones among the contacts and the group members that r names. */
    method AddRecipients(o: Occasion, r: Recipients)
      requires NoDuplicates(contacts) && o.w.Serves(o.config) && o.w.Resolves(r)
      modifies this
      ensures NoDuplicates(contacts)
      ensures forall c: nat :: c in contacts <==>
        c in old(contacts) || (o.Names(r, c) && c < |o.w.contacts| && o.Accepts(o.w.contacts[c]))
    {
      AddAccepted(o, r.contacts);
      for i := 0 to |r.groups|
        invariant NoDuplicates(contacts)
        invariant forall c: nat :: c in contacts <==>
          c in old(contacts) || (c < |o.w.contacts| && o.Accepts(o.w.contacts[c]) &&
            (Some(c) in r.contacts ||
             exists j :: 0 <= j < i && r.groups[j].Some? && Some(c) in o.w.groups[r.groups[j].value]))
      {
        if r.groups[i].Some? {
          AddAccepted(o, o.w.groups[r.groups[i].value]);
        }
      }
    }

    /** The contacts of a notification: no duplicates, and exactly those who should be notified. */
    method Create(o: Occasion) returns (escalated: bool)
      requires o.w.Serves(o.config)
      modifies this
      ensures escalated <==> o.Escalated()
      ensures Lists(contacts, o.Wanted())
      ensures !o.options.forced ==> forall c :: c in contacts ==>
        var k := o.w.contacts[c];
        k.serviceNotificationsEnabled && k.minimumValue <= o.config.hourlyValue &&
        (k.period.Some? ==> k.period.value in o.w.validNow)
    {
      escalated := ShouldBeEscalated(o);
      contacts := [];
      if escalated || o.options.broadcast {
        for i := 0 to |o.config.escalations|
          invariant NoDuplicates(contacts)
          invariant forall c: nat :: c in contacts <==>
            c < |o.w.contacts| && o.Accepts(o.w.contacts[c]) &&
            exists j :: 0 <= j < i && o.Applies(o.config.escalations[j], o.options.broadcast) &&
              o.Names(o.config.escalations[j].recipients, c)
        {
          var applies := IsValidEscalation(o, o.config.escalations[i], o.options.broadcast);
          if !applies {
            continue;
          }
          AddRecipients(o, o.config.escalations[i].recipients);
        }
      }
      if !escalated || o.options.broadcast {
        AddRecipients(o, o.config.recipients);
      }
    }
  }

  method ShouldBeEscalated(o: Occasion) returns (escalated: bool)
    ensures escalated <==> o.Escalated()
  {
    for i := 0 to |o.config.escalations|
      invariant forall j :: 0 <= j < i ==> !o.Applies(o.config.escalations[j], false)
    {
      var applies := IsValidEscalation(o, o.config.escalations[i], false);
      if applies {
        return true;
      }
    }
    return false;
  }

  // ---------- when the next notification is due ----------

  /** e decides the interval: it applies, and it sets one (a negative one means the default). */
  predicate SetsInterval(o: Occasion, e: Escalation) {
    0.0 <= e.interval && o.Applies(e, false)
  }

  /** The shortest interval among the escalations that set one, or else the service's own. */
  ghost predicate IsInterval(o: Occasion, interval: real) {
    var es := o.config.escalations;
    if exists i :: 0 <= i < |es| && SetsInterval(o, es[i]) then
      && (exists i :: 0 <= i < |es| && SetsInterval(o, es[i]) && es[i].interval == interval)
      && (forall i :: 0 <= i < |es| && SetsInterval(o, es[i]) ==> interval <= es[i].interval)
    else
      interval == o.config.notificationInterval
  }

  /**
   No escalation that applies and sets an interval sets a shorter one, and some does set this one, unless none
   does.
   */
  lemma ShortestInterval(o: Occasion, interval: real, i: nat)
    requires IsInterval(o, interval) && i < |o.config.escalations|
    ensures
      var e := o.config.escalations[i];
      o.Applies(e, false) && e.interval >= 0.0 ==> interval <= e.interval
    ensures interval == o.config.notificationInterval || exists e :: e in o.config.escalations && e.interval == interval
    ensures (forall e :: e in o.config.escalations ==> !o.Applies(e, false) || e.interval < 0.0) ==>
      interval == o.config.notificationInterval
  {
  }

  lemma IntervalIsUnique(o: Occasion, a: real, b: real)
    requires IsInterval(o, a) && IsInterval(o, b)
    ensures a == b
  {
    var es := o.config.escalations;
    if exists i :: 0 <= i < |es| && SetsInterval(o, es[i]) {
      var i :| 0 <= i < |es| && SetsInterval(o, es[i]) && es[i].interval == a;
      var j :| 0 <= j < |es| && SetsInterval(o, es[j]) && es[j].interval == b;
      assert a <= es[j].interval && b <= es[i].interval;
    }
  }

  /** Scans the escalations for the interval to use until the next notification. */
  method ChooseInterval(o: Occasion) returns (interval: real)
    requires o.config.notificationInterval >= 0.0
    ensures IsInterval(o, interval) && interval >= 0.0
  {
    interval := o.config.notificationInterval;
    var haveEscalatedInterval := false;
    var es := o.config.escalations;
    for i := 0 to |es|
      invariant interval >= 0.0
      invariant haveEscalatedInterval <==> exists j :: 0 <= j < i && SetsInterval(o, es[j])
      invariant !haveEscalatedInterval ==> interval == o.config.notificationInterval
      invariant haveEscalatedInterval ==>
        && (exists j :: 0 <= j < i && SetsInterval(o, es[j]) && es[j].interval == interval)
        && (forall j :: 0 <= j < i && SetsInterval(o, es[j]) ==> interval <= es[j].interval)
    {
      if es[i].interval < 0.0 {
        continue;
      }
      var applies := IsValidEscalation(o, es[i], false);
      if !applies {
        continue;
      }
      if !haveEscalatedInterval {
        haveEscalatedInterval := true;
        interval := es[i].interval;
      } else if es[i].interval < interval {
        interval := es[i].interval;
      }
    }
  }
}
