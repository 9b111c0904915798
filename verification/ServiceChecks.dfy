/**
 Handling of a service check result (base/checks.c), from the raw result to the request for a
 notification, and the acknowledgement commands (base/commands.c).
 */
module ServiceChecks {
  import opened Wrappers
  import opened ServiceState
  import opened NotificationLog
  import opened Objects
  import opened Notifications
  import opened Flapping

  const STATE_CRITICAL := 2

  datatype CheckResult = CheckResult(active: bool, returnCode: int, earlyTimeout: bool, exitedOk: bool, startTime: int)

  datatype Settings = Settings(acceptPassiveChecks: bool, executeHostChecks: bool, serviceCheckTimeoutState: int)

  /** The state a result stands for. */
  function ReturnCode(cr: CheckResult, s: Settings): (rc: int)
    ensures !cr.active || (cr.exitedOk && !cr.earlyTimeout && 0 <= cr.returnCode <= 3) ==> rc == cr.returnCode
    ensures cr.active && cr.earlyTimeout ==> rc == s.serviceCheckTimeoutState
    ensures cr.active && !cr.earlyTimeout && !(cr.exitedOk && 0 <= cr.returnCode <= 3) ==> rc == STATE_CRITICAL
  {
    if !cr.active then cr.returnCode
    else if cr.earlyTimeout then s.serviceCheckTimeoutState
    else if !cr.exitedOk || cr.returnCode == 126 || cr.returnCode == 127 || cr.returnCode < 0 || cr.returnCode > 3
    then STATE_CRITICAL
    else cr.returnCode
  }

  /** Notifications start afresh: nothing was sent yet, and nothing holds the next one back. */
  method StartNotificationsAfresh(svc: Service)
    requires svc.NotesOk()
    modifies svc`lastNotification, svc`nextNotification, svc`noMoreNotifications, svc`history
    ensures svc.NotesOk() && svc.history == Then(old(svc.history), StateChange)
  {
    svc.lastNotification := 0;
    svc.nextNotification := 0;
    svc.noMoreNotifications := false;
    svc.history := Then(svc.history, StateChange);
  }

  /** A change drops a normal acknowledgement when the state is another, and a sticky one at a recovery. */
  predicate DropsAcknowledgement(ack: AckType, stateChange: bool, isOk: bool) {
    (ack == ACKNOWLEDGEMENT_NORMAL && stateChange) || (ack == ACKNOWLEDGEMENT_STICKY && isOk)
  }

  method ReviewAcknowledgement(svc: Service, stateChange: bool, hardStateChange: bool)
    requires stateChange || hardStateChange
    modifies svc`problemHasBeenAcknowledged, svc`acknowledgementType
    ensures
      var dropped := DropsAcknowledgement(old(svc.acknowledgementType), stateChange, svc.currentState == STATE_OK);
      && svc.problemHasBeenAcknowledged == (old(svc.problemHasBeenAcknowledged) && !dropped)
      && svc.acknowledgementType == if dropped then ACKNOWLEDGEMENT_NONE else old(svc.acknowledgementType)
  {
    if (svc.acknowledgementType == ACKNOWLEDGEMENT_NORMAL && (stateChange || !hardStateChange)) ||
       (svc.acknowledgementType == ACKNOWLEDGEMENT_STICKY && svc.currentState == STATE_OK) {
      svc.problemHasBeenAcknowledged := false;
      svc.acknowledgementType := ACKNOWLEDGEMENT_NONE;
    }
  }

  /** The new state and, for a hard change, its date; a problem that begins gets an id. */
  method EnterState(svc: Service, ids: ProblemIds, stateChange: bool, hardStateChange: bool)
    returns (stateOrTypeChange: bool)
    modifies ids, svc`currentProblemId, svc`stateType, svc`lastHardStateChange, svc`lastHardState
    ensures stateOrTypeChange <==> stateChange || hardStateChange
    ensures ids.next == old(ids.next) + (if stateChange && svc.lastState == STATE_OK then 1 else 0)
    ensures svc.currentProblemId ==
      if stateChange && svc.lastState == STATE_OK then old(ids.next) else old(svc.currentProblemId)
    ensures svc.stateType ==
      if hardStateChange then HARD_STATE else if stateChange then SOFT_STATE else old(svc.stateType)
    ensures svc.lastHardState == if hardStateChange then svc.currentState else old(svc.lastHardState)
    ensures svc.lastHardStateChange == if hardStateChange then svc.lastCheck else old(svc.lastHardStateChange)
  {
    stateOrTypeChange := false;
    if stateChange {
      if svc.lastState == STATE_OK {
        svc.currentProblemId := ids.next;
        ids.next := ids.next + 1;
      }
      svc.stateType := SOFT_STATE;
      stateOrTypeChange := true;
    }
    if hardStateChange {
      svc.lastHardStateChange := svc.lastCheck;
      svc.lastHardState := svc.currentState;
      svc.stateType := HARD_STATE;
      stateOrTypeChange := true;
    }
  }

  /** A notable change: new ids, a fresh start for notifications, and what becomes of the acknowledgement. */
  method StateOrHardStateTypeChange(svc: Service, ids: ProblemIds, stateChange: bool, hardStateChange: bool)
    requires svc.NotesOk()
    modifies ids, svc`currentProblemId, svc`stateType, svc`lastHardStateChange, svc`lastHardState,
             svc`lastNotification, svc`nextNotification, svc`noMoreNotifications, svc`history,
             svc`problemHasBeenAcknowledged, svc`acknowledgementType
    ensures svc.NotesOk()
    ensures svc.history ==
      if stateChange || hardStateChange then Then(old(svc.history), StateChange) else old(svc.history)
    ensures ids.next == old(ids.next) + (if stateChange && svc.lastState == STATE_OK then 1 else 0)
    ensures svc.currentProblemId ==
      if stateChange && svc.lastState == STATE_OK then old(ids.next) else old(svc.currentProblemId)
    ensures svc.stateType ==
      if hardStateChange then HARD_STATE else if stateChange then SOFT_STATE else old(svc.stateType)
    ensures svc.lastHardState == if hardStateChange then svc.currentState else old(svc.lastHardState)
    ensures svc.lastHardStateChange == if hardStateChange then svc.lastCheck else old(svc.lastHardStateChange)
    ensures
      var dropped := (stateChange || hardStateChange) &&
        DropsAcknowledgement(old(svc.acknowledgementType), stateChange, svc.currentState == STATE_OK);
      && svc.problemHasBeenAcknowledged == (old(svc.problemHasBeenAcknowledged) && !dropped)
      && svc.acknowledgementType == if dropped then ACKNOWLEDGEMENT_NONE else old(svc.acknowledgementType)
  {
    var stateOrTypeChange := EnterState(svc, ids, stateChange, hardStateChange);
    if stateOrTypeChange {
      StartNotificationsAfresh(svc);
      ReviewAcknowledgement(svc, stateChange, hardStateChange);
    }
  }

  /** The result as an input of the state table. */
  function AsInput(cr: CheckResult, s: Settings, hst: Host): Input
    reads hst
  {
    Input(ReturnCode(cr, s), hst.currentState == HOST_UP, hst.hasBeenChecked)
  }

  /** The service has the state c, except that the state of a new result is already recorded. */
  ghost predicate Recording(svc: Service, c: Core, r: Input)
    reads svc`lastState, svc`currentState, svc`stateType, svc`currentAttempt, svc`lastHardState,
          svc`hostProblemAtLastCheck
  {
    && svc.lastState == c.state && svc.currentState == r.state && svc.stateType == c.kind
    && svc.currentAttempt == c.attempt && svc.lastHardState == c.lastHard && svc.hostProblemAtLastCheck == c.hostProblem
  }

  /** The notification to ask for; somebodyNotified says that the latest problem was sent and no recovery yet. */
  function Outgoing(state: int, kind: StateType, sendNotification: bool, isVolatile: bool,
                    somebodyNotified: bool): Option<NotificationType> {
    if state == STATE_OK && kind == HARD_STATE && somebodyNotified then Some(NOTIFICATION_RECOVERY)
    else if sendNotification || (state != STATE_OK && kind == HARD_STATE && isVolatile) then Some(NOTIFICATION_NORMAL)
    else None
  }

  /** The same from the state table. */
  function RequestFor(c: Core, m: int, r: Input, isVolatile: bool, somebodyNotified: bool): Option<NotificationType> {
    if r.state != STATE_OK then (if AsksToNotify(c, m, r, isVolatile) then Some(NOTIFICATION_NORMAL) else None)
    else if somebodyNotified && (c.state == STATE_OK || HardRecovery(c, m, r)) then Some(NOTIFICATION_RECOVERY)
    else if HardRecovery(c, m, r) then Some(NOTIFICATION_NORMAL)
    else None
  }

  /**
   What the state table says about a result besides the new state: whether the service turns hard,
   and what to ask for if somebody was notified and if not.
   */
  datatype Verdict = Verdict(hard: bool, ifNotified: Option<NotificationType>, ifNot: Option<NotificationType>)
  {
    function Request(somebodyNotified: bool): Option<NotificationType> {
      if somebodyNotified then ifNotified else ifNot
    }
  }

  function VerdictOn(c: Core, m: int, r: Input, isVolatile: bool): Verdict {
    Verdict(TurnsHard(c, m, r), RequestFor(c, m, r, isVolatile, true), RequestFor(c, m, r, isVolatile, false))
  }

  /**
   What is asked for while the host is up, once the service was OK: for a problem, a notification from the
   m-th in a row on; for a recovery from that many, a recovery, or a notification if nobody knew; and
   for further OK results a recovery, as long as somebody still waits for one.
   */
  lemma RequestsOverRun(start: Core, m: int, results: seq<int>, isVolatile: bool, somebodyNotified: bool, ids: nat)
    requires Inv(start, m) && results != [] && BeganOk(start, results[..|results| - 1])
    ensures
      var before, last := results[..|results| - 1], results[|results| - 1];
      VerdictOn(UpRun(start, m, before, ids), m, Input(last, true, true), isVolatile).Request(somebodyNotified) ==
        if last != STATE_OK then (if Streak(results) >= m then Some(NOTIFICATION_NORMAL) else None)
        else if somebodyNotified && (Streak(before) == 0 || Streak(before) >= m) then Some(NOTIFICATION_RECOVERY)
        else if Streak(before) >= m then Some(NOTIFICATION_NORMAL)
        else None
  {
    var before, last := results[..|results| - 1], results[|results| - 1];
    if last == STATE_OK {
      HardAfterMaxAttempts(start, m, before, ids);
      HardRecoveryFromMaxAttempts(start, m, before, ids);
    } else {
      NotifiesFromMaxAttempts(start, m, results, isVolatile, ids);
    }
  }

  /** A recovery that flapping held back is owed. */
  predicate OwesRecovery(svc: Service)
    reads svc`isFlapping, svc`checkFlappingRecoveryNotification
  {
    svc.isFlapping && svc.checkFlappingRecoveryNotification
  }

  /** A problem on a host that is not up and was never checked counts as a check of the host. */
  predicate FakesHostCheck(c: Core, r: Input, s: Settings) {
    r.state != STATE_OK && !r.hostUp && !r.hostChecked && (!s.executeHostChecks || r.state == c.state)
  }

  /** What the state of the host means for the result. */
  method ConsiderHost(svc: Service, hst: Host, s: Settings, ghost c: Core, ghost r: Input)
    returns (hardStateChange: bool, newLastHardState: int)
    requires Recording(svc, c, r) && r.hostUp == (hst.currentState == HOST_UP) && r.hostChecked == hst.hasBeenChecked
    modifies svc`hostProblemAtLastCheck, svc`currentAttempt, svc`stateType, hst`hasBeenChecked, hst`lastCheck
    ensures svc.hostProblemAtLastCheck ==
      if r.state != STATE_OK then !r.hostUp else if r.hostChecked && !r.hostUp then true else c.hostProblem
    ensures hardStateChange <==> ForcedHard(c, r)
    ensures newLastHardState == if ForcedHard(c, r) then r.state else c.lastHard
    ensures svc.stateType == if ForcedHard(c, r) then HARD_STATE else c.kind
    ensures svc.currentAttempt ==
      if ForcedHard(c, r) then svc.config.maxAttempts
      else if r.state != STATE_OK && r.hostUp && c.hostProblem && c.kind == SOFT_STATE then 1
      else c.attempt
    ensures hst.hasBeenChecked == (r.hostChecked || FakesHostCheck(c, r, s))
    ensures hst.lastCheck == if FakesHostCheck(c, r, s) then svc.lastCheck else old(hst.lastCheck)
  {
    hardStateChange, newLastHardState := false, svc.lastHardState;
    if svc.currentState == STATE_OK {
      if hst.hasBeenChecked && hst.currentState != HOST_UP {
        svc.hostProblemAtLastCheck := true;
      }
    } else if hst.currentState == HOST_UP {
      if svc.hostProblemAtLastCheck && svc.stateType == SOFT_STATE {
        svc.currentAttempt := 1;
      }
      svc.hostProblemAtLastCheck := false;
    } else {
      if (!s.executeHostChecks || svc.currentState == svc.lastState) && !hst.hasBeenChecked {
        hst.hasBeenChecked := true;
        hst.lastCheck := svc.lastCheck;
      }
      svc.hostProblemAtLastCheck := true;
    }
    if hst.currentState != HOST_UP && newLastHardState != svc.currentState {
      hardStateChange := true;
      svc.stateType := HARD_STATE;
      newLastHardState := svc.currentState;
      svc.currentAttempt := svc.config.maxAttempts;
    }
  }

  /** What the last and the new state mean together: the type, the attempt, and what follows. */
  method CompareStates(svc: Service, hardStateChange: bool, newLastHardState: int)
    returns (stateChange: bool, hardStateChange': bool, sendNotification: bool)
    modifies svc`currentAttempt, svc`stateType
    ensures
      var m, wasOk, isOk := svc.config.maxAttempts, svc.lastState == STATE_OK, svc.currentState == STATE_OK;
      var kind :=
        if wasOk && isOk then HARD_STATE
        else if wasOk && !svc.hostProblemAtLastCheck && !hardStateChange then SOFT_STATE
        else old(svc.stateType);
      var attempt :=
        if wasOk || (isOk && kind == HARD_STATE) then 1 else old(svc.currentAttempt);
      var attempt' :=
        if kind == HARD_STATE || (wasOk && !isOk) then attempt
        else if attempt < m then attempt + 1
        else if svc.currentState != svc.lastState && !isOk then 1
        else attempt;
      var promoted := attempt' >= m && (svc.currentState != newLastHardState || (kind == SOFT_STATE && !isOk));
      && svc.stateType == kind && svc.currentAttempt == attempt'
      && stateChange == (svc.currentState != svc.lastState)
      && hardStateChange' == (hardStateChange || (!wasOk && isOk && kind == HARD_STATE) || promoted)
      && sendNotification ==
        (promoted || (!wasOk && kind == HARD_STATE && (isOk || !svc.hostProblemAtLastCheck)))
  {
    stateChange, hardStateChange', sendNotification := false, hardStateChange, false;
    if svc.lastState == STATE_OK {
      if svc.currentState == STATE_OK {
        svc.stateType := HARD_STATE;
        svc.currentAttempt := 1;
      } else {
        if !svc.hostProblemAtLastCheck && !hardStateChange {
          svc.stateType := SOFT_STATE;
        }
        svc.currentAttempt := 1;
      }
    } else if svc.currentState == STATE_OK {
      if svc.stateType == HARD_STATE {
        sendNotification := true;
        hardStateChange' := true;
        svc.currentAttempt := 1;
      }
      stateChange := true;
    } else if svc.stateType == HARD_STATE && !svc.hostProblemAtLastCheck {
      sendNotification := true;
    }

    if svc.currentState != svc.lastState || (svc.currentState == STATE_OK && svc.stateType == SOFT_STATE) {
      stateChange := true;
    }

    if svc.stateType == SOFT_STATE {
      if svc.lastState != STATE_OK && svc.currentAttempt < svc.config.maxAttempts {
        svc.currentAttempt := svc.currentAttempt + 1;
      } else if stateChange && svc.currentState != STATE_OK {
        svc.currentAttempt := 1;
      } else if svc.currentAttempt < svc.config.maxAttempts {
        // the code would count the attempt here, but no result gets this far
        assert false;
      }
    }

    if svc.currentAttempt >= svc.config.maxAttempts &&
       (svc.currentState != newLastHardState || (svc.stateType == SOFT_STATE && svc.currentState != STATE_OK)) {
      hardStateChange' := true;
      sendNotification := true;
    }
  }

  /** The two parts together are the state table. */
  method Assess(svc: Service, hst: Host, s: Settings, ghost c: Core, ghost r: Input)
    returns (stateChange: bool, hardStateChange: bool, sendNotification: bool, newLastHardState: int)
    requires Recording(svc, c, r) && r.hostUp == (hst.currentState == HOST_UP) && r.hostChecked == hst.hasBeenChecked
    requires Inv(c, svc.config.maxAttempts)
    modifies svc`hostProblemAtLastCheck, svc`currentAttempt, svc`stateType, hst`hasBeenChecked, hst`lastCheck
    ensures
      var m := svc.config.maxAttempts;
      && (stateChange <==> r.state != c.state)
      && (hardStateChange <==>
          if r.state == STATE_OK then HardRecovery(c, m, r) else NextKind(c, m, r) == HARD_STATE && Changed(c, m, r))
      && newLastHardState == (if ForcedHard(c, r) then r.state else c.lastHard)
      && (!stateChange ==> svc.currentAttempt == NextAttempt(c, m, r))
      && (r.state != STATE_OK ==> svc.currentAttempt == NextAttempt(c, m, r))
      && (!stateChange && !hardStateChange ==> svc.stateType == NextKind(c, m, r))
      && svc.hostProblemAtLastCheck ==
        (if r.state != STATE_OK then !r.hostUp else if r.hostChecked && !r.hostUp then true else c.hostProblem)
      && (r.state != STATE_OK ==>
          (sendNotification <==>
           (r.hostUp && c.state != STATE_OK && c.kind == HARD_STATE) ||
           (NextKind(c, m, r) == HARD_STATE && !ForcedHard(c, r) && Changed(c, m, r))))
      && (r.state == STATE_OK ==> (sendNotification <==> HardRecovery(c, m, r)))
      && (!stateChange && r.state == STATE_OK ==> svc.stateType == HARD_STATE)
    ensures hst.hasBeenChecked == (r.hostChecked || FakesHostCheck(c, r, s))
    ensures hst.lastCheck == if FakesHostCheck(c, r, s) then svc.lastCheck else old(hst.lastCheck)
  {
    hardStateChange, newLastHardState := ConsiderHost(svc, hst, s, c, r);
    stateChange, hardStateChange, sendNotification := CompareStates(svc, hardStateChange, newLastHardState);
  }

  /** Carries the change out, keeping the last hard state back until the end. */
  method ApplyChange(svc: Service, ids: ProblemIds, stateChange: bool, hardStateChange: bool, newLastHardState: int)
    returns (newLastHardState': int)
    requires svc.NotesOk()
    modifies ids, svc`currentProblemId, svc`stateType, svc`lastHardStateChange, svc`lastHardState,
             svc`lastNotification, svc`nextNotification, svc`noMoreNotifications, svc`history,
             svc`problemHasBeenAcknowledged, svc`acknowledgementType
    ensures svc.NotesOk()
    ensures svc.history ==
      if stateChange || hardStateChange then Then(old(svc.history), StateChange) else old(svc.history)
    ensures ids.next == old(ids.next) + (if stateChange && svc.lastState == STATE_OK then 1 else 0)
    ensures svc.currentProblemId ==
      if stateChange && svc.lastState == STATE_OK then old(ids.next) else old(svc.currentProblemId)
    ensures svc.stateType ==
      if hardStateChange then HARD_STATE else if stateChange then SOFT_STATE else old(svc.stateType)
    ensures svc.lastHardStateChange == if hardStateChange then svc.lastCheck else old(svc.lastHardStateChange)
    ensures svc.lastHardState == old(svc.lastHardState)
    ensures newLastHardState' ==
      if hardStateChange && svc.currentState != old(svc.lastHardState) then svc.currentState else newLastHardState
    ensures
      var dropped := (stateChange || hardStateChange) &&
        DropsAcknowledgement(old(svc.acknowledgementType), stateChange, svc.currentState == STATE_OK);
      && svc.problemHasBeenAcknowledged == (old(svc.problemHasBeenAcknowledged) && !dropped)
      && svc.acknowledgementType == if dropped then ACKNOWLEDGEMENT_NONE else old(svc.acknowledgementType)
  {
    newLastHardState' := newLastHardState;
    var originalLastHardState := svc.lastHardState;
    StateOrHardStateTypeChange(svc, ids, stateChange, hardStateChange);
    if originalLastHardState != svc.lastHardState {
      newLastHardState' := svc.lastHardState;
      svc.lastHardState := originalLastHardState;
    }
  }

  /**
   The service is n but for its problem id, except that a recovery is not settled and the last hard state not
   written.
   */
  ghost predicate Unsettled(svc: Service, n: Core, stateChange: bool, hardStateChange: bool, newLastHardState: int)
    reads svc`currentState, svc`stateType, svc`currentAttempt, svc`hostProblemAtLastCheck,
          svc`problemHasBeenAcknowledged, svc`acknowledgementType
  {
    var recovered := n.state == STATE_OK && stateChange;
    && svc.currentState == n.state
    && (if recovered then n.kind == HARD_STATE && n.attempt == 1 && n.lastHard == STATE_OK
        else svc.stateType == n.kind && svc.currentAttempt == n.attempt && newLastHardState == n.lastHard)
    && (svc.hostProblemAtLastCheck && !(recovered && hardStateChange)) == n.hostProblem
    && svc.problemHasBeenAcknowledged == n.acknowledged && svc.acknowledgementType == n.ack
  }

  /** Notifications start afresh when a result changes the state or its type. */
  function Started(h: History, c: Core, m: int, r: Input): History {
    if Changed(c, m, r) then Then(h, StateChange) else h
  }

  /** The service with the state c and a new result recorded becomes what the table says, recoveries not yet settled. */
  method MoveState(svc: Service, hst: Host, ids: ProblemIds, s: Settings, ghost c: Core, ghost r: Input)
    returns (stateChange: bool, hardStateChange: bool, sendNotification: bool, newLastHardState: int)
    requires svc.NotesOk() && Recording(svc, c, r) && r.hostUp == (hst.currentState == HOST_UP) &&
      r.hostChecked == hst.hasBeenChecked
    requires Inv(c, svc.config.maxAttempts)
    requires svc.currentProblemId == c.problemId && svc.problemHasBeenAcknowledged == c.acknowledged &&
      svc.acknowledgementType == c.ack
    modifies svc`hostProblemAtLastCheck, svc`currentAttempt, svc`stateType, hst`hasBeenChecked, hst`lastCheck,
             ids, svc`currentProblemId, svc`lastHardStateChange, svc`lastHardState,
             svc`lastNotification, svc`nextNotification, svc`noMoreNotifications, svc`history,
             svc`problemHasBeenAcknowledged, svc`acknowledgementType
    ensures svc.NotesOk()
    ensures svc.history == Started(old(svc.history), c, svc.config.maxAttempts, r)
    ensures ids.next == old(ids.next) + if TakesId(c, r) then 1 else 0
    ensures stateChange <==> r.state != c.state
    ensures Unsettled(svc, Next(c, svc.config.maxAttempts, r, old(ids.next)), stateChange, hardStateChange,
                      newLastHardState)
    ensures r.state != STATE_OK ==>
      ((sendNotification || (svc.stateType == HARD_STATE && svc.config.isVolatile)) <==>
       AsksToNotify(c, svc.config.maxAttempts, r, svc.config.isVolatile))
    ensures r.state == STATE_OK ==> (sendNotification <==> HardRecovery(c, svc.config.maxAttempts, r))
    ensures r.state == STATE_OK ==>
      (svc.stateType == HARD_STATE <==> c.state == STATE_OK || HardRecovery(c, svc.config.maxAttempts, r))
    ensures hst.hasBeenChecked == (r.hostChecked || FakesHostCheck(c, r, s))
    ensures hst.lastCheck == if FakesHostCheck(c, r, s) then svc.lastCheck else old(hst.lastCheck)
    ensures svc.lastHardStateChange == if hardStateChange then svc.lastCheck else old(svc.lastHardStateChange)
    ensures svc.currentProblemId == (if TakesId(c, r) then old(ids.next) else c.problemId) &&
      svc.lastHardState == c.lastHard
    ensures r.state != STATE_OK || !stateChange ==> (hardStateChange <==> TurnsHard(c, svc.config.maxAttempts, r))
  {
    stateChange, hardStateChange, sendNotification, newLastHardState := Assess(svc, hst, s, c, r);
    newLastHardState := ApplyChange(svc, ids, stateChange, hardStateChange, newLastHardState);
  }

  method DetectFlapping(svc: Service, w: World, newCommentId: nat)
    requires Ready(svc) && w.Serves(svc.config)
    modifies svc`stateHistoryIndex, svc.stateHistory, svc`percentStateChange,
             svc`isFlapping, svc`flappingCommentId, svc`checkFlappingRecoveryNotification,
             svc`currentNotificationNumber, svc`notifiedOn, svc`lastNotification, svc`nextNotification,
             svc`noMoreNotifications, svc`history
    ensures Ready(svc) && NoProblemSince(svc.history, old(svc.history))
    ensures !old(OwesRecovery(svc)) ==> NoResetSince(svc.history, old(svc.history))
  {
    var asked := CheckForServiceFlapping(svc, w, true, true, newCommentId);
  }

  /** A problem that ends loses its id. */
  method CloseProblem(svc: Service, stateChange: bool)
    modifies svc`currentProblemId, svc`lastProblemId
    ensures svc.currentProblemId == if svc.currentState == STATE_OK && stateChange then 0 else old(svc.currentProblemId)
    ensures svc.lastProblemId ==
      if svc.currentState == STATE_OK && stateChange then old(svc.currentProblemId) else old(svc.lastProblemId)
  {
    if svc.currentState == STATE_OK && stateChange {
      svc.lastProblemId := svc.currentProblemId;
      svc.currentProblemId := 0;
    }
  }

  /** Asks for the notification that is due: volatile problems and recoveries that were not sent have it their way. */
  method ChooseNotification(svc: Service, w: World, sendNotification: bool)
    returns (requested: Option<NotificationType>)
    requires Ready(svc) && w.Serves(svc.config)
    modifies svc`currentNotificationNumber, svc`notifiedOn, svc`lastNotification, svc`nextNotification,
             svc`noMoreNotifications, svc`history
    ensures Ready(svc) && Continues(svc.history, old(svc.history))
    ensures requested == Outgoing(svc.currentState, svc.stateType, sendNotification, svc.config.isVolatile,
                                  old(svc.notifiedOn) != {})
  {
    requested := None;
    var notificationType, send := NOTIFICATION_NORMAL, sendNotification;
    if svc.currentState != STATE_OK && svc.stateType == HARD_STATE && svc.config.isVolatile {
      send := true;
    }
    if svc.notifiedOn != {} && svc.currentState == STATE_OK && svc.stateType == HARD_STATE {
      notificationType := NOTIFICATION_RECOVERY;
      send := true;
    }
    if send {
      var asked := Ask(svc, w, notificationType);
      requested := Some(asked[0]);
    }
  }

  /** What is to be asked for is as the verdict says. */
  ghost predicate Follows(svc: Service, v: Verdict, sendNotification: bool)
    reads svc`currentState, svc`stateType
  {
    && Outgoing(svc.currentState, svc.stateType, sendNotification, svc.config.isVolatile, true) == v.ifNotified
    && Outgoing(svc.currentState, svc.stateType, sendNotification, svc.config.isVolatile, false) == v.ifNot
  }

  /** Flap detection, which sends no problem, leads the history from g to midway, and the notification due then to h. */
  ghost predicate Leads(g: History, midway: History, h: History) {
    NoProblemSince(midway, g) && Continues(h, midway)
  }

  /** Flap detection, the end of a problem's id, and the notification. */
  method FlapAndNotify(svc: Service, w: World, stateChange: bool, sendNotification: bool, newCommentId: nat,
                       ghost v: Verdict)
    returns (requested: Option<NotificationType>, ghost midway: History)
    requires Ready(svc) && w.Serves(svc.config) && Follows(svc, v, sendNotification)
    modifies svc`stateHistoryIndex, svc.stateHistory, svc`percentStateChange,
             svc`isFlapping, svc`flappingCommentId, svc`checkFlappingRecoveryNotification, svc`currentProblemId,
             svc`lastProblemId, svc`currentNotificationNumber, svc`notifiedOn, svc`lastNotification,
             svc`nextNotification, svc`noMoreNotifications, svc`history
    ensures Ready(svc) && Leads(old(svc.history), midway, svc.history)
    ensures svc.currentProblemId == if svc.currentState == STATE_OK && stateChange then 0 else old(svc.currentProblemId)
    ensures requested == v.Request(After(midway).notifiedOn != {})
    ensures !old(OwesRecovery(svc)) ==> NoResetSince(midway, old(svc.history))
    ensures svc.lastProblemId ==
      if svc.currentState == STATE_OK && stateChange then old(svc.currentProblemId) else old(svc.lastProblemId)
  {
    DetectFlapping(svc, w, newCommentId);
    midway := svc.history;
    CloseProblem(svc, stateChange);
    requested := ChooseNotification(svc, w, sendNotification);
  }

  /**
   The times a result leaves: a hard change is dated by the result, and the first result dates a service that
   has no date.
   */
  ghost predicate Stamped(svc: Service, startTime: int, lastState: int, hard: bool, dated: int, checked: int)
    reads svc`lastCheck, svc`lastState, svc`lastHardStateChange
  {
    && svc.lastCheck == startTime && svc.lastState == lastState
    && svc.lastHardStateChange == if hard then startTime else if dated == 0 then checked else dated
  }

  /** An OK state ends up hard with everything reset, and the last hard state is written at last. */
  method Settle(svc: Service, stateChange: bool, hardStateChange: bool, newLastHardState: int, ghost n: Core)
    requires Unsettled(svc, n, stateChange, hardStateChange, newLastHardState) && svc.currentProblemId == n.problemId
    modifies svc`hostProblemAtLastCheck, svc`lastHardStateChange, svc`currentAttempt, svc`stateType, svc`lastHardState
    ensures svc.Core() == n
    ensures svc.lastHardStateChange ==
      if svc.currentState == STATE_OK && stateChange then svc.lastCheck else old(svc.lastHardStateChange)
  {
    var lastHardState := newLastHardState;
    if svc.currentState == STATE_OK && stateChange {
      if hardStateChange {
        svc.hostProblemAtLastCheck := false;
      }
      svc.lastHardStateChange := svc.lastCheck;
      lastHardState := svc.currentState;
      svc.currentAttempt := 1;
      svc.stateType := HARD_STATE;
    }
    svc.lastHardState := lastHardState;
  }

  /** What follows once the state has moved: flap detection, notification, and the settling of a recovery. */
  method Conclude(svc: Service, w: World, stateChange: bool, hardStateChange: bool, sendNotification: bool,
                  newLastHardState: int, newCommentId: nat, ghost n: Core, ghost v: Verdict, ghost dated: int,
                  ghost checked: int)
    returns (requested: Option<NotificationType>, ghost midway: History)
    requires Ready(svc) && w.Serves(svc.config) && Unsettled(svc, n, stateChange, hardStateChange, newLastHardState) &&
      Follows(svc, v, sendNotification)
    requires n.problemId == if svc.currentState == STATE_OK && stateChange then 0 else svc.currentProblemId
    requires if svc.currentState == STATE_OK && stateChange then v.hard
      else Stamped(svc, svc.lastCheck, svc.lastState, v.hard, dated, checked)
    modifies svc`stateHistoryIndex, svc.stateHistory, svc`percentStateChange,
             svc`isFlapping, svc`flappingCommentId, svc`checkFlappingRecoveryNotification, svc`currentProblemId,
             svc`lastProblemId, svc`currentNotificationNumber, svc`notifiedOn, svc`lastNotification,
             svc`nextNotification, svc`noMoreNotifications, svc`history, svc`hostProblemAtLastCheck,
             svc`lastHardStateChange, svc`currentAttempt, svc`stateType, svc`lastHardState
    ensures Ready(svc) && Leads(old(svc.history), midway, svc.history) && svc.Core() == n
    ensures requested == v.Request(After(midway).notifiedOn != {})
    ensures !old(OwesRecovery(svc)) ==> NoResetSince(midway, old(svc.history))
    ensures Stamped(svc, svc.lastCheck, svc.lastState, v.hard, dated, checked)
  {
    requested, midway := FlapAndNotify(svc, w, stateChange, sendNotification, newCommentId, v);
    Settle(svc, stateChange, hardStateChange, newLastHardState, n);
  }

  method RecordResult(svc: Service, cr: CheckResult, s: Settings)
    modifies svc`lastHardStateChange, svc`lastCheck, svc`lastState, svc`currentState
    ensures svc.lastState == old(svc.currentState) && svc.currentState == ReturnCode(cr, s) &&
      svc.lastCheck == cr.startTime
    ensures svc.lastHardStateChange ==
      if old(svc.lastHardStateChange) == 0 then old(svc.lastCheck) else old(svc.lastHardStateChange)
  {
    if svc.lastHardStateChange == 0 {
      svc.lastHardStateChange := svc.lastCheck;
    }
    svc.lastCheck := cr.startTime;
    svc.lastState := svc.currentState;
    svc.currentState := ReturnCode(cr, s);
  }

  /** The problem id after a result: dropped by a recovery, otherwise the one taken or kept. */
  lemma NextProblemId(c: Core, m: int, r: Input, newId: nat)
    ensures Next(c, m, r, newId).problemId ==
      if r.state == STATE_OK && r.state != c.state then 0 else if TakesId(c, r) then newId else c.problemId
    ensures Next(c, m, r, newId).state == r.state
  {
  }

  /** Records an accepted result and moves the state; c is the service's state before it, r the result. */
  method TakeResult(svc: Service, hst: Host, ids: ProblemIds, cr: CheckResult, s: Settings, ghost c: Core,
                    ghost r: Input, ghost v: Verdict)
    returns (stateChange: bool, hardStateChange: bool, sendNotification: bool, newLastHardState: int)
    requires svc.NotesOk() && c == svc.Core() && r == AsInput(cr, s, hst) && Inv(c, svc.config.maxAttempts)
    requires v == VerdictOn(c, svc.config.maxAttempts, r, svc.config.isVolatile)
    modifies svc`lastCheck, svc`lastState, svc`currentState, svc`hostProblemAtLastCheck, svc`currentAttempt,
             svc`stateType, hst`hasBeenChecked, hst`lastCheck, ids, svc`currentProblemId, svc`lastHardStateChange,
             svc`lastHardState, svc`lastNotification, svc`nextNotification, svc`noMoreNotifications, svc`history,
             svc`problemHasBeenAcknowledged, svc`acknowledgementType
    ensures svc.NotesOk()
    ensures svc.history == Started(old(svc.history), c, svc.config.maxAttempts, r)
    ensures ids.next == old(ids.next) + if TakesId(c, r) then 1 else 0
    ensures Unsettled(svc, Next(c, svc.config.maxAttempts, r, old(ids.next)), stateChange, hardStateChange,
                      newLastHardState)
    ensures Follows(svc, v, sendNotification) && (OwesRecovery(svc) <==> old(OwesRecovery(svc)))
    ensures hst.hasBeenChecked == (r.hostChecked || FakesHostCheck(c, r, s))
    ensures hst.lastCheck == if FakesHostCheck(c, r, s) then cr.startTime else old(hst.lastCheck)
    ensures svc.lastCheck == cr.startTime && svc.lastState == c.state
    ensures if svc.currentState == STATE_OK && stateChange then v.hard
            else Stamped(svc, svc.lastCheck, svc.lastState, v.hard, old(svc.lastHardStateChange), old(svc.lastCheck))
    ensures Next(c, svc.config.maxAttempts, r, old(ids.next)).problemId ==
      if svc.currentState == STATE_OK && stateChange then 0 else svc.currentProblemId
  {
    RecordResult(svc, cr, s);
    stateChange, hardStateChange, sendNotification, newLastHardState := MoveState(svc, hst, ids, s, c, r);
    NextProblemId(c, svc.config.maxAttempts, r, old(ids.next));
  }

  /** Handles a result that is accepted. */
  method HandleAccepted(svc: Service, hst: Host, ids: ProblemIds, cr: CheckResult, s: Settings, w: World,
                        newCommentId: nat, ghost c: Core, ghost r: Input)
    returns (requested: Option<NotificationType>, ghost midway: History, ghost v: Verdict)
    requires Ready(svc) && w.Serves(svc.config)
    requires c == svc.Core() && r == AsInput(cr, s, hst) && Inv(c, svc.config.maxAttempts)
    modifies svc, svc.stateHistory, ids, hst`hasBeenChecked, hst`lastCheck
    ensures Ready(svc)
    ensures svc.Core() == Next(c, svc.config.maxAttempts, r, old(ids.next))
    ensures ids.next == old(ids.next) + if TakesId(c, r) then 1 else 0
    ensures Leads(Started(old(svc.history), c, svc.config.maxAttempts, r), midway, svc.history)
    ensures v == VerdictOn(c, svc.config.maxAttempts, r, svc.config.isVolatile) &&
      requested == v.Request(After(midway).notifiedOn != {})
    ensures !old(OwesRecovery(svc)) ==> NoResetSince(midway, Started(old(svc.history), c, svc.config.maxAttempts, r))
    ensures Stamped(svc, svc.lastCheck, svc.lastState, v.hard, old(svc.lastHardStateChange), old(svc.lastCheck))
    ensures svc.lastCheck == cr.startTime && svc.lastState == c.state
    ensures hst.hasBeenChecked == (r.hostChecked || FakesHostCheck(c, r, s))
    ensures hst.lastCheck == if FakesHostCheck(c, r, s) then cr.startTime else old(hst.lastCheck)
  {
    ghost var n := Next(c, svc.config.maxAttempts, r, ids.next);
    v := VerdictOn(c, svc.config.maxAttempts, r, svc.config.isVolatile);
    var stateChange, hardStateChange, sendNotification, newLastHardState := TakeResult(svc, hst, ids, cr, s, c, r, v);
    requested, midway := Conclude(svc, w, stateChange, hardStateChange, sendNotification, newLastHardState,
                                  newCommentId, n, v, old(svc.lastHardStateChange), old(svc.lastCheck));
  }

  /**
   Handles one result.  A rejected passive result changes nothing; every other one moves the
   service as the state table says, starts its notifications afresh exactly when the table says
   that the state or its type changed, and asks for the notification the table asks for. midway is the
   history after flap detection, which on its way may have sent a recovery that was owed.
   */
  method HandleAsyncServiceCheckResult(svc: Service, hst: Host, ids: ProblemIds, cr: CheckResult, s: Settings, w: World,
                                       newCommentId: nat)
    returns (ok: bool, requested: Option<NotificationType>, ghost midway: History)
    requires Ready(svc) && w.Serves(svc.config) && w.hostState == hst.currentState
    requires Inv(svc.Core(), svc.config.maxAttempts)
    modifies svc, svc.stateHistory, ids, hst`hasBeenChecked, hst`lastCheck
    ensures ok <==> cr.active || s.acceptPassiveChecks
    ensures !ok ==> unchanged(svc) && unchanged(svc.stateHistory) && unchanged(ids) && unchanged(hst) && requested.None?
    ensures Ready(svc) && Inv(svc.Core(), svc.config.maxAttempts)
    ensures
      ok ==>
        var c, r, m := old(svc.Core()), old(AsInput(cr, s, hst)), svc.config.maxAttempts;
        var started, v := Started(old(svc.history), c, m, r), VerdictOn(c, m, r, svc.config.isVolatile);
        && svc.Core() == Next(c, m, r, old(ids.next))
        && ids.next == old(ids.next) + (if TakesId(c, r) then 1 else 0)
        && Leads(started, midway, svc.history)
        && (!old(OwesRecovery(svc)) ==> NoResetSince(midway, started))
        && requested == v.Request(old(svc.notifiedOn) != {} && NoResetSince(midway, started))
    ensures
      ok ==>
        var c, r := old(svc.Core()), old(AsInput(cr, s, hst));
        var v := VerdictOn(c, svc.config.maxAttempts, r, svc.config.isVolatile);
        && Stamped(svc, cr.startTime, c.state, v.hard, old(svc.lastHardStateChange), old(svc.lastCheck))
    ensures ok && (!cr.active || (cr.exitedOk && !cr.earlyTimeout && 0 <= cr.returnCode <= 3)) ==>
      svc.currentState == cr.returnCode
    ensures ok && cr.active && cr.earlyTimeout ==> svc.currentState == s.serviceCheckTimeoutState
    ensures ok && cr.active && !cr.earlyTimeout && !(cr.exitedOk && 0 <= cr.returnCode <= 3) ==>
      svc.currentState == STATE_CRITICAL
    ensures ok ==> svc.lastCheck == cr.startTime && svc.lastState == old(svc.currentState)
    ensures ok ==>
      ids.next == old(ids.next) + if old(svc.currentState) == STATE_OK && svc.currentState != STATE_OK then 1 else 0
    ensures
      ok ==>
        var problemOnDownHost := svc.currentState != STATE_OK && old(hst.currentState) != HOST_UP;
        var faked := problemOnDownHost && (!s.executeHostChecks || svc.currentState == old(svc.currentState));
        && hst.hasBeenChecked == (old(hst.hasBeenChecked) || faked)
        && hst.lastCheck == (if faked && !old(hst.hasBeenChecked) then cr.startTime else old(hst.lastCheck))
    ensures
      ok ==>
        (old(svc.isFlapping) && old(svc.checkFlappingRecoveryNotification)) || NoResetSince(midway, Started(
          old(svc.history), old(svc.Core()), svc.config.maxAttempts, old(AsInput(cr, s, hst))))
    ensures
      ok ==>
        NoProblemSince(midway, if svc.currentState != old(svc.currentState) || svc.stateType != old(svc.stateType)
                               then Then(old(svc.history), StateChange) else old(svc.history))
  {
    if !cr.active && !s.acceptPassiveChecks {
      return false, None, svc.history;
    }
    ok := true;
    NextKeepsInv(svc.Core(), svc.config.maxAttempts, AsInput(cr, s, hst), ids.next);
    ghost var v;
    requested, midway, v := HandleAccepted(svc, hst, ids, cr, s, w, newCommentId, svc.Core(), AsInput(cr, s, hst));
    OnlyResetsForget(midway, Started(old(svc.history), old(svc.Core()), svc.config.maxAttempts,
                                     old(AsInput(cr, s, hst))));
  }

  method MarkAcknowledged(svc: Service, sticky: bool)
    requires svc.currentState != STATE_OK
    modifies svc`problemHasBeenAcknowledged, svc`acknowledgementType
    ensures svc.Core() == old(Acknowledge(svc.Core(), sticky))
  {
    svc.problemHasBeenAcknowledged := true;
    svc.acknowledgementType := if sticky then ACKNOWLEDGEMENT_STICKY else ACKNOWLEDGEMENT_NORMAL;
  }

  /** Tells the contacts of an acknowledgement, if that is wished for. */
  method TellOfAcknowledgement(svc: Service, w: World, notify: bool)
    requires Ready(svc) && w.Serves(svc.config)
    modifies svc`currentNotificationNumber, svc`notifiedOn, svc`lastNotification, svc`nextNotification,
             svc`noMoreNotifications, svc`history
    ensures Ready(svc) && Continues(svc.history, old(svc.history))
  {
    if notify {
      var _ := Ask(svc, w, NOTIFICATION_ACKNOWLEDGEMENT);
    }
  }

  /** Acknowledging a problem; the notification about it goes out first. */
  method AcknowledgeServiceProblem(svc: Service, w: World, sticky: bool, notify: bool)
    requires Ready(svc) && w.Serves(svc.config) && Inv(svc.Core(), svc.config.maxAttempts)
    modifies svc`problemHasBeenAcknowledged, svc`acknowledgementType,
             svc`currentNotificationNumber, svc`notifiedOn, svc`lastNotification, svc`nextNotification,
             svc`noMoreNotifications, svc`history
    ensures Ready(svc) && Inv(svc.Core(), svc.config.maxAttempts)
    ensures svc.Core() == old(Acknowledge(svc.Core(), sticky)) && Continues(svc.history, old(svc.history))
  {
    ghost var c := svc.Core();
    if svc.currentState == STATE_OK {
      return;
    }
    TellOfAcknowledgement(svc, w, notify);
    assert svc.Core() == c;
    MarkAcknowledged(svc, sticky);
  }

  method RemoveServiceAcknowledgement(svc: Service)
    requires Inv(svc.Core(), svc.config.maxAttempts)
    modifies svc`problemHasBeenAcknowledged
    ensures Inv(svc.Core(), svc.config.maxAttempts)
    ensures svc.Core() == old(RemoveAcknowledgement(svc.Core()))
  {
    svc.problemHasBeenAcknowledged := false;
  }
}
