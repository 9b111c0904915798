/**
 Flap detection for services (base/flapping.c and the command that clears it, base/commands.c).
 */
module Flapping {
  import opened ServiceState
  import opened NotificationLog
  import opened Objects
  import opened Notifications
  import opened FlapHistory

  function LowThreshold(svc: Service, w: World): real {
    if svc.config.lowFlapThreshold <= 0.0 then w.lowFlapThreshold else svc.config.lowFlapThreshold
  }

  function HighThreshold(svc: Service, w: World): real {
    if svc.config.highFlapThreshold <= 0.0 then w.highFlapThreshold else svc.config.highFlapThreshold
  }

  ghost predicate Ready(svc: Service)
    reads svc`history, svc`currentNotificationNumber, svc`notifiedOn, svc`lastNotification, svc`nextNotification,
          svc`noMoreNotifications, svc`stateHistoryIndex, svc`isFlapping, svc`flappingCommentId,
          svc`checkFlappingRecoveryNotification
  {
    svc.ConfigOk() && svc.NotesOk() && svc.FlapOk()
  }

  /** The service starts to flap: a comment, and a note to send the recovery that flapping may swallow. */
  method SetServiceFlap(svc: Service, w: World, allowNotification: bool, newCommentId: nat)
    returns (asked: seq<NotificationType>)
    requires Ready(svc) && w.Serves(svc.config)
    modifies svc`isFlapping, svc`flappingCommentId, svc`checkFlappingRecoveryNotification,
             svc`currentNotificationNumber, svc`notifiedOn, svc`lastNotification, svc`nextNotification,
             svc`noMoreNotifications, svc`history
    ensures Ready(svc) && svc.isFlapping && NoProblemSince(svc.history, old(svc.history))
    ensures svc.flappingCommentId ==
      if old(svc.flappingCommentId) == 0 then newCommentId else old(svc.flappingCommentId)
    ensures svc.checkFlappingRecoveryNotification <==> old(svc.currentNotificationNumber) > 0
    ensures asked == if allowNotification then [NOTIFICATION_FLAPPINGSTART] else []
    ensures NOTIFICATION_RECOVERY !in asked ==> NoResetSince(svc.history, old(svc.history))
  {
    asked := [];
    if svc.flappingCommentId == 0 {
      svc.flappingCommentId := newCommentId;
    }
    svc.isFlapping := true;
    if svc.currentNotificationNumber > 0 {
      svc.checkFlappingRecoveryNotification := true;
    } else {
      svc.checkFlappingRecoveryNotification := false;
    }
    if allowNotification {
      asked := Ask(svc, w, NOTIFICATION_FLAPPINGSTART);
    }
  }

  /** The notifications that the end of flapping asks for. */
  function AskedAtEnd(svc: Service, end: NotificationType): seq<NotificationType>
    reads svc`checkFlappingRecoveryNotification, svc`currentState
  {
    [end] + if svc.checkFlappingRecoveryNotification && svc.currentState == STATE_OK then [NOTIFICATION_RECOVERY]
      else []
  }

  /** At the end the owed recovery is asked for after the notification of the end, if the service is OK. */
  lemma RecoveryAskedAtEnd(svc: Service, end: NotificationType)
    ensures
      var asked := AskedAtEnd(svc, end);
      && asked != [] && asked[0] == end
      && (svc.checkFlappingRecoveryNotification && svc.currentState == 0 ==> asked[1..] == [NOTIFICATION_RECOVERY])
      && (!svc.checkFlappingRecoveryNotification || svc.currentState != 0 ==> |asked| == 1)
  {
  }

  method NotifyEnd(svc: Service, w: World, end: NotificationType) returns (asked: seq<NotificationType>)
    requires svc.ConfigOk() && svc.NotesOk() && w.Serves(svc.config)
    requires end in {NOTIFICATION_FLAPPINGSTOP, NOTIFICATION_FLAPPINGDISABLED}
    modifies svc`currentNotificationNumber, svc`notifiedOn, svc`lastNotification, svc`nextNotification,
             svc`noMoreNotifications, svc`history
    ensures svc.NotesOk() && NoProblemSince(svc.history, old(svc.history))
    ensures asked == AskedAtEnd(svc, end)
    ensures NOTIFICATION_RECOVERY !in asked ==> NoResetSince(svc.history, old(svc.history))
  {
    asked := Ask(svc, w, end);
    if svc.checkFlappingRecoveryNotification && svc.currentState == STATE_OK {
      ghost var h := svc.history;
      var more := Ask(svc, w, NOTIFICATION_RECOVERY);
      asked := asked + more;
      NoProblemTransitively(svc.history, h, old(svc.history));
    }
  }

  method ClearServiceFlap(svc: Service, w: World, isDisabled: bool) returns (asked: seq<NotificationType>)
    requires Ready(svc) && w.Serves(svc.config)
    modifies svc`isFlapping, svc`flappingCommentId, svc`checkFlappingRecoveryNotification,
             svc`currentNotificationNumber, svc`notifiedOn, svc`lastNotification, svc`nextNotification,
             svc`noMoreNotifications, svc`history
    ensures Ready(svc) && !svc.isFlapping && NoProblemSince(svc.history, old(svc.history))
    ensures asked == if isDisabled then [] else old(AskedAtEnd(svc, NOTIFICATION_FLAPPINGSTOP))
    ensures NOTIFICATION_RECOVERY !in asked ==> NoResetSince(svc.history, old(svc.history))
  {
    asked := [];
    svc.flappingCommentId := 0;
    svc.isFlapping := false;
    if !isDisabled {
      asked := NotifyEnd(svc, w, NOTIFICATION_FLAPPINGSTOP);
    }
    svc.checkFlappingRecoveryNotification := false;
  }

  /** Soft problems are not looked at; every other state is recorded if the options ask for it. */
  predicate Ignored(svc: Service)
    reads svc`stateType, svc`currentState
  {
    svc.stateType == SOFT_STATE && svc.currentState != STATE_OK
  }

  predicate Recorded(svc: Service, update: bool)
    reads svc`currentState
  {
    update && svc.currentState in svc.config.flapOptions
  }

  /** The walk around the ring is the weighted count over the recorded states, oldest first. */
  method CurvedPercentChange(svc: Service) returns (percent: real)
    requires svc.FlapOk()
    ensures percent == Percent(svc.StateHistory())
  {
    ghost var h := svc.StateHistory();
    var curvedChanges, last := 0.0, STATE_OK;
    var y := svc.stateHistoryIndex;
    for x := 0 to MAX_STATE_HISTORY_ENTRIES
      invariant 0 <= y < MAX_STATE_HISTORY_ENTRIES
      invariant y == if svc.stateHistoryIndex + x < MAX_STATE_HISTORY_ENTRIES then svc.stateHistoryIndex + x
                     else svc.stateHistoryIndex + x - MAX_STATE_HISTORY_ENTRIES
      invariant x > 0 ==> last == h[x - 1]
      invariant curvedChanges == CurvedChanges(h, x)
    {
      assert h[x] == svc.stateHistory[y];
      if x == 0 {
        last := svc.stateHistory[y];
      } else {
        if last != svc.stateHistory[y] {
          curvedChanges := curvedChanges +
            ((x - 1) as real * (HIGH_CURVE_VALUE - LOW_CURVE_VALUE)) / (MAX_STATE_HISTORY_ENTRIES - 2) as real +
              LOW_CURVE_VALUE;
        }
        last := svc.stateHistory[y];
      }
      y := y + 1;
      if y >= MAX_STATE_HISTORY_ENTRIES {
        y := 0;
      }
    }
    percent := curvedChanges * 100.0 / (MAX_STATE_HISTORY_ENTRIES - 1) as real;
  }

  /** Puts the current state into the next slot of the ring. */
  method RecordState(svc: Service, update: bool)
    requires svc.FlapOk()
    modifies svc`stateHistoryIndex, svc.stateHistory
    ensures svc.FlapOk()
    ensures svc.StateHistory() ==
      if Recorded(svc, update) then Record(old(svc.StateHistory()), svc.currentState) else old(svc.StateHistory())
  {
    var updateHistory := update;
    if updateHistory {
      if svc.currentState !in svc.config.flapOptions {
        updateHistory := false;
      }
    }
    if updateHistory {
      RecordInRing(svc.stateHistory[..], svc.stateHistoryIndex, svc.currentState);
      svc.stateHistory[svc.stateHistoryIndex] := svc.currentState;
      svc.stateHistoryIndex := svc.stateHistoryIndex + 1;
      if svc.stateHistoryIndex >= MAX_STATE_HISTORY_ENTRIES {
        svc.stateHistoryIndex := 0;
      }
    }
  }

  /** What a check makes of the current state. */
  function LookAt(svc: Service, update: bool): Look
    reads svc`stateType, svc`currentState
  {
    if Ignored(svc) then Look.Ignored else if Recorded(svc, update) then Look.Recorded(svc.currentState) else Unrecorded
  }

  /** The recorded states and the percentage after a check, given the states before it. */
  ghost predicate Remembered(svc: Service, look: Look, before: seq<int>)
    requires before != []
    reads svc`stateHistoryIndex, svc`percentStateChange, svc.stateHistory
  {
    && svc.stateHistory.Length == MAX_STATE_HISTORY_ENTRIES && svc.stateHistoryIndex < MAX_STATE_HISTORY_ENTRIES
    && svc.StateHistory() == HistoryAfter(before, look)
    && (!look.Ignored? ==> svc.percentStateChange == Percent(svc.StateHistory()))
  }

  /** The flag after a check, given the states and the flag before it. */
  ghost predicate Decided(svc: Service, w: World, look: Look, before: seq<int>, wasFlapping: bool)
    requires |before| >= 3
    reads svc`isFlapping, svc`flapDetectionEnabled
  {
    svc.isFlapping ==
      if w.flapDetectionEnabled && svc.flapDetectionEnabled
      then FlagAfterLook(before, wasFlapping, LowThreshold(svc, w), HighThreshold(svc, w), look)
      else look.Ignored? && wasFlapping
  }

  /**
   After a check that looks at the state the flag is down at or below low, up at or above high, and else as it
   was.
   */
  ghost predicate Hysteresis(svc: Service, was: bool, percent: real, low: real, high: real, detection: bool)
    reads svc`stateType, svc`currentState, svc`isFlapping, svc`flapDetectionEnabled
  {
    svc.stateType == HARD_STATE || svc.currentState == STATE_OK ==>
      if detection && svc.flapDetectionEnabled then
        && (percent <= low ==> !svc.isFlapping)
        && (low < percent && high <= percent ==> svc.isFlapping)
        && (low < percent < high ==> svc.isFlapping == was)
      else !svc.isFlapping
  }

  /**
   What that means after a check that updates, for the states and the flag before it. A soft problem changes
   nothing. Any other state is appended if the service's options name it, and the flag is then down at or
   below the low threshold, up at or above the high one, and else as it was; the service's own
   thresholds count if they are positive.
   */
  lemma AfterCheck(svc: Service, w: World, before: seq<int>, was: bool)
    requires |before| >= 3 && Remembered(svc, LookAt(svc, true), before) &&
      Decided(svc, w, LookAt(svc, true), before, was)
    ensures svc.stateType == SOFT_STATE && svc.currentState != STATE_OK ==>
      svc.StateHistory() == before && svc.isFlapping == was
    ensures svc.stateType == HARD_STATE || svc.currentState == STATE_OK ==>
      svc.StateHistory() == if svc.currentState in svc.config.flapOptions then before[1..] + [svc.currentState]
        else before
    ensures Hysteresis(svc, was, svc.percentStateChange,
                       if svc.config.lowFlapThreshold > 0.0 then svc.config.lowFlapThreshold else w.lowFlapThreshold,
                       if svc.config.highFlapThreshold > 0.0 then svc.config.highFlapThreshold else w.highFlapThreshold,
                       w.flapDetectionEnabled)
  {
  }

  /** Records the current state and works out the percentage anew. */
  method Measure(svc: Service, update: bool)
    requires svc.FlapOk() && !Ignored(svc)
    modifies svc`stateHistoryIndex, svc.stateHistory, svc`percentStateChange
    ensures svc.FlapOk() && Remembered(svc, LookAt(svc, update), old(svc.StateHistory()))
  {
    RecordState(svc, update);
    var percent := CurvedPercentChange(svc);
    svc.percentStateChange := percent;
  }

  /**
   Records the current state and decides whether the service flaps: above the history, the
   percentage and the flag are the functions of FlapHistory.
   */
  method CheckForServiceFlapping(svc: Service, w: World, update: bool, allowStartNotification: bool, newCommentId: nat)
    returns (asked: seq<NotificationType>)
    requires Ready(svc) && w.Serves(svc.config)
    modifies svc`stateHistoryIndex, svc.stateHistory, svc`percentStateChange,
             svc`isFlapping, svc`flappingCommentId, svc`checkFlappingRecoveryNotification,
             svc`currentNotificationNumber, svc`notifiedOn, svc`lastNotification, svc`nextNotification,
             svc`noMoreNotifications, svc`history
    ensures Ready(svc) && NoProblemSince(svc.history, old(svc.history))
    ensures Remembered(svc, LookAt(svc, update), old(svc.StateHistory()))
    ensures Decided(svc, w, LookAt(svc, update), old(svc.StateHistory()), old(svc.isFlapping))
    ensures asked ==
      if !old(svc.isFlapping) && svc.isFlapping
      then (if allowStartNotification then [NOTIFICATION_FLAPPINGSTART] else [])
      else if old(svc.isFlapping) && !svc.isFlapping && w.flapDetectionEnabled && svc.flapDetectionEnabled then
        old(AskedAtEnd(svc, NOTIFICATION_FLAPPINGSTOP))
      else []
    ensures NOTIFICATION_RECOVERY !in asked ==> NoResetSince(svc.history, old(svc.history))
  {
    asked := [];
    if svc.stateType == SOFT_STATE && svc.currentState != STATE_OK {
      return;
    }
    var low, high := LowThreshold(svc, w), HighThreshold(svc, w);
    ghost var before, look := svc.StateHistory(), LookAt(svc, update);
    Measure(svc, update);
    assert svc.percentStateChange == Percent(HistoryAfter(before, look));
    asked := UpdateFlag(svc, w, low, high, allowStartNotification, newCommentId);
  }

  method UpdateFlag(svc: Service, w: World, low: real, high: real, allowStartNotification: bool, newCommentId: nat)
    returns (asked: seq<NotificationType>)
    requires Ready(svc) && w.Serves(svc.config)
    modifies svc`isFlapping, svc`flappingCommentId, svc`checkFlappingRecoveryNotification,
             svc`currentNotificationNumber, svc`notifiedOn, svc`lastNotification, svc`nextNotification,
             svc`noMoreNotifications, svc`history
    ensures Ready(svc) && NoProblemSince(svc.history, old(svc.history))
    ensures svc.isFlapping <==>
      w.flapDetectionEnabled && svc.flapDetectionEnabled &&
        Decide(old(svc.isFlapping), svc.percentStateChange, low, high)
    ensures asked ==
      if !old(svc.isFlapping) && svc.isFlapping
      then (if allowStartNotification then [NOTIFICATION_FLAPPINGSTART] else [])
      else if old(svc.isFlapping) && !svc.isFlapping && w.flapDetectionEnabled && svc.flapDetectionEnabled then
        old(AskedAtEnd(svc, NOTIFICATION_FLAPPINGSTOP))
      else []
    ensures NOTIFICATION_RECOVERY !in asked ==> NoResetSince(svc.history, old(svc.history))
  {
    asked := [];
    if !w.flapDetectionEnabled || !svc.flapDetectionEnabled {
      if svc.isFlapping {
        asked := ClearServiceFlap(svc, w, true);
      }
      return;
    }
    var isFlapping := false;
    if svc.percentStateChange > low && svc.percentStateChange < high {
      return;
    } else if svc.percentStateChange <= low {
      isFlapping := false;
    } else if svc.percentStateChange >= high {
      isFlapping := true;
    }
    if isFlapping && !svc.isFlapping {
      asked := SetServiceFlap(svc, w, allowStartNotification, newCommentId);
    } else if !isFlapping && svc.isFlapping {
      asked := ClearServiceFlap(svc, w, false);
    }
  }

  /** Flap detection has been switched off: a flapping service stops flapping. */
  method HandleServiceFlapDetectionDisabled(svc: Service, w: World) returns (asked: seq<NotificationType>)
    requires Ready(svc) && w.Serves(svc.config)
    modifies svc`isFlapping, svc`flappingCommentId, svc`checkFlappingRecoveryNotification,
             svc`currentNotificationNumber, svc`notifiedOn, svc`lastNotification, svc`nextNotification,
             svc`noMoreNotifications, svc`history
    ensures Ready(svc) && !svc.isFlapping && NoProblemSince(svc.history, old(svc.history))
    ensures asked == if old(svc.isFlapping) then old(AskedAtEnd(svc, NOTIFICATION_FLAPPINGDISABLED)) else []
  {
    asked := [];
    if svc.isFlapping {
      svc.isFlapping := false;
      svc.flappingCommentId := 0;
      asked := NotifyEnd(svc, w, NOTIFICATION_FLAPPINGDISABLED);
      svc.checkFlappingRecoveryNotification := false;
    }
  }

  /** Every recorded state becomes OK. */
  method ForgetStates(svc: Service)
    requires svc.FlapOk()
    modifies svc`stateHistoryIndex, svc.stateHistory, svc`percentStateChange
    ensures svc.FlapOk() && svc.percentStateChange == 0.0 && forall s :: s in svc.StateHistory() ==> s == STATE_OK
  {
    for i := 0 to MAX_STATE_HISTORY_ENTRIES
      invariant forall j :: 0 <= j < i ==> svc.stateHistory[j] == STATE_OK
      modifies svc.stateHistory
    {
      svc.stateHistory[i] := STATE_OK;
    }
    svc.stateHistoryIndex := 0;
    svc.percentStateChange := 0.0;
  }

  method ForgetFlapping(svc: Service)
    requires svc.FlapOk()
    modifies svc`stateHistoryIndex, svc.stateHistory, svc`percentStateChange,
             svc`isFlapping, svc`flappingCommentId, svc`checkFlappingRecoveryNotification
    ensures svc.FlapOk() && !svc.isFlapping && svc.percentStateChange == 0.0 &&
      forall s :: s in svc.StateHistory() ==> s == STATE_OK
  {
    ForgetStates(svc);
    svc.flappingCommentId := 0;
    svc.isFlapping := false;
    svc.checkFlappingRecoveryNotification := false;
  }

  /** The command that makes a service forget its flapping and its recorded states. */
  method ClearServiceFlappingState(svc: Service, w: World) returns (asked: seq<NotificationType>)
    requires Ready(svc) && w.Serves(svc.config)
    modifies svc`stateHistoryIndex, svc.stateHistory, svc`percentStateChange,
             svc`isFlapping, svc`flappingCommentId, svc`checkFlappingRecoveryNotification,
             svc`currentNotificationNumber, svc`notifiedOn, svc`lastNotification, svc`nextNotification,
             svc`noMoreNotifications, svc`history
    ensures Ready(svc) && NoProblemSince(svc.history, old(svc.history))
    ensures
      var active := w.flapDetectionEnabled && svc.flapDetectionEnabled;
      && (active ==>
          !svc.isFlapping && svc.percentStateChange == 0.0 && forall s :: s in svc.StateHistory() ==> s == STATE_OK)
      && (!active ==> svc.isFlapping == old(svc.isFlapping) && svc.StateHistory() == old(svc.StateHistory()))
      && (!active ==> svc.percentStateChange == old(svc.percentStateChange))
      && asked == if active && old(svc.isFlapping) then old(AskedAtEnd(svc, NOTIFICATION_FLAPPINGSTOP)) else []
  {
    asked := [];
    if !w.flapDetectionEnabled || !svc.flapDetectionEnabled {
      return;
    }
    if svc.isFlapping {
      asked := NotifyEnd(svc, w, NOTIFICATION_FLAPPINGSTOP);
    }
    ForgetFlapping(svc);
  }
}
