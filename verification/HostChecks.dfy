/**
 Handling of a host check result (base/checks.c): translation of the raw result, the way of the
 host to a hard state, its problem id and its acknowledgement.
 */
module HostChecks {
  import opened Wrappers
  import opened ServiceState
  import opened HostState
  import opened Objects

  const STATE_WARNING := 1

  datatype HostCheckResult = HostCheckResult(active: bool, returnCode: int, earlyTimeout: bool, exitedOk: bool,
                                             startTime: int)

  datatype HostSettings = HostSettings(
    acceptPassiveChecks: bool, hasCheckCommand: bool, useAggressiveHostChecking: bool,
    translatePassiveHostChecks: bool, passiveHostChecksAreSoft: bool)

  /** UP or DOWN for an active result; a passive one says itself what it means. */
  function HostReturnCode(cr: HostCheckResult, s: HostSettings): (rc: int)
    ensures !cr.active ==> rc == cr.returnCode
    ensures cr.active ==> rc in {HOST_UP, HOST_DOWN}
    ensures cr.active && !s.hasCheckCommand ==> rc == HOST_UP
    ensures cr.active && s.hasCheckCommand ==>
      (rc == HOST_UP <==>
       cr.exitedOk && !cr.earlyTimeout && (cr.returnCode == 0 || (cr.returnCode == 1 && !s.useAggressiveHostChecking)))
  {
    if !cr.active then cr.returnCode
    else
      var rc :=
        if cr.earlyTimeout || !cr.exitedOk || cr.returnCode == 126 || cr.returnCode == 127 || cr.returnCode < 0 ||
          cr.returnCode > 3
        then HOST_UNREACHABLE else cr.returnCode;
      if !s.hasCheckCommand then HOST_UP
      else if !s.useAggressiveHostChecking && rc == STATE_WARNING then HOST_UP
      else if rc != HOST_UP then HOST_DOWN
      else rc
  }

  /** Whether a host that is not up is down itself, or only cut off by parents that are not up. */
  method DetermineHostReachability(active: bool, state: int, parentStates: seq<int>) returns (r: int)
    ensures r == Reachability(active, state, parentStates)
  {
    if state == HOST_UP {
      return HOST_UP;
    }
    if !active && state == HOST_UNREACHABLE {
      return HOST_UNREACHABLE;
    } else if parentStates == [] {
      return HOST_DOWN;
    } else {
      for i := 0 to |parentStates|
        invariant forall j :: 0 <= j < i ==> parentStates[j] != HOST_UP
      {
        if parentStates[i] == HOST_UP {
          return HOST_DOWN;
        }
      }
    }
    return HOST_UNREACHABLE;
  }

  function Reachability(active: bool, state: int, parentStates: seq<int>): int {
    if state == HOST_UP then HOST_UP
    else if !active && state == HOST_UNREACHABLE then HOST_UNREACHABLE
    else if parentStates != [] && (forall i :: 0 <= i < |parentStates| ==> parentStates[i] != HOST_UP)
    then HOST_UNREACHABLE
    else HOST_DOWN
  }

  /** The result as an input of the state table. */
  function AsHostInput(cr: HostCheckResult, s: HostSettings, parentStates: seq<int>): HostInput {
    var rc := HostReturnCode(cr, s);
    HostInput(if rc != HOST_UP && (cr.active || s.translatePassiveHostChecks)
              then Reachability(cr.active, rc, parentStates) else rc, !cr.active && !s.passiveHostChecksAreSoft)
  }

  /** The last and the new state, the translation, and the attempt. */
  method CompareStates(hst: Host, cr: HostCheckResult, s: HostSettings, parentStates: seq<int>, ghost c: HostCore)
    returns (stateChange: bool, hardStateChange: bool, sendNotification: bool)
    requires hst.lastState == c.state && hst.currentState == HostReturnCode(cr, s) && hst.stateType == c.kind &&
      hst.currentAttempt == c.attempt
    requires hst.lastHardState == c.lastHard && HostInv(c, hst.maxAttempts)
    modifies hst`currentState, hst`stateType, hst`currentAttempt
    ensures
      var m, r := hst.maxAttempts, AsHostInput(cr, s, parentStates);
      && hst.currentState == r.state
      && stateChange == (r.state != c.state)
      && hst.currentAttempt == CountedAttempt(c, m, r)
      && hst.stateType == (if r.state == c.state == HOST_UP then HARD_STATE
                           else if c.state == HOST_UP then SOFT_STATE else c.kind)
      && hardStateChange ==
        ((CountedAttempt(c, m, r) >= m && r.state != c.lastHard) ||
         (r.state == HOST_UP && c.state != HOST_UP && c.kind == HARD_STATE))
      && sendNotification == (hardStateChange || (c.state != HOST_UP && r.state != HOST_UP && c.kind == HARD_STATE))
  {
    stateChange, hardStateChange, sendNotification := false, false, false;
    if hst.lastState == HOST_UP {
      if hst.currentState == HOST_UP {
        hst.stateType := HARD_STATE;
        hst.currentAttempt := 1;
      } else {
        hst.stateType := SOFT_STATE;
        hst.currentAttempt := 1;
      }
    } else if hst.currentState == HOST_UP {
      if hst.stateType == HARD_STATE {
        sendNotification := true;
        hardStateChange := true;
        hst.currentAttempt := 1;
      }
    } else if hst.stateType == HARD_STATE {
      sendNotification := true;
    }

    if hst.currentState != HOST_UP && (cr.active || s.translatePassiveHostChecks) {
      hst.currentState := DetermineHostReachability(cr.active, hst.currentState, parentStates);
    }

    if hst.currentState != hst.lastState || (hst.currentState == HOST_UP && hst.stateType == SOFT_STATE) {
      stateChange := true;
    }

    if hst.stateType == SOFT_STATE {
      if hst.lastState != HOST_UP && hst.currentState != HOST_UP && hst.currentAttempt < hst.maxAttempts {
        hst.currentAttempt := hst.currentAttempt + 1;
      } else if stateChange || hst.currentState == HOST_UP {
        hst.currentAttempt := 1;
      } else if hst.currentAttempt < hst.maxAttempts {
        // the code would count the attempt here, but no result gets this far
        assert false;
      }
    }

    if hst.currentAttempt >= hst.maxAttempts && hst.currentState != hst.lastHardState {
      hardStateChange := true;
      sendNotification := true;
    }
  }

  /** A notable change; a passive result that counts as hard makes every change a hard one. */
  method StateOrHardStateTypeChange(hst: Host, ids: ProblemIds, countsAsHard: bool, stateChange: bool,
                                    hardStateChange: bool, sendNotification: bool)
    returns (sendNotification': bool)
    modifies ids, hst`stateType, hst`currentAttempt, hst`lastHardState, hst`currentProblemId, hst`lastProblemId,
             hst`problemHasBeenAcknowledged, hst`acknowledgementType
    ensures
      var hard := hardStateChange || (countsAsHard && stateChange);
      var lost :=
        (old(hst.acknowledgementType) == ACKNOWLEDGEMENT_NORMAL && stateChange) ||
        (old(hst.acknowledgementType) == ACKNOWLEDGEMENT_STICKY && hst.currentState == HOST_UP &&
         (stateChange || hard));
      && hst.currentAttempt == (if countsAsHard && stateChange then 1 else old(hst.currentAttempt))
      && hst.stateType == (if hard then HARD_STATE
                           else if stateChange then SOFT_STATE
                           else if countsAsHard then HARD_STATE else old(hst.stateType))
      && hst.lastHardState == (if hard then hst.currentState else old(hst.lastHardState))
      && hst.currentProblemId ==
         (if !stateChange then old(hst.currentProblemId) else if hst.lastState == HOST_UP then old(ids.next) else 0)
      && hst.lastProblemId == (if stateChange && hst.lastState != HOST_UP then old(hst.currentProblemId)
                               else old(hst.lastProblemId))
      && ids.next == old(ids.next) + (if stateChange && hst.lastState == HOST_UP then 1 else 0)
      && hst.problemHasBeenAcknowledged == (old(hst.problemHasBeenAcknowledged) && !lost)
      && hst.acknowledgementType == (if lost then ACKNOWLEDGEMENT_NONE else old(hst.acknowledgementType))
      && sendNotification' == (sendNotification || hard)
  {
    sendNotification' := sendNotification;
    var hard, stateOrTypeChange := hardStateChange, false;
    if countsAsHard {
      if stateChange {
        hst.currentAttempt := 1;
        hard := true;
      }
      hst.stateType := HARD_STATE;
    }
    if stateChange {
      if hst.lastState == HOST_UP {
        hst.currentProblemId := ids.next;
        ids.next := ids.next + 1;
      } else {
        hst.lastProblemId := hst.currentProblemId;
        hst.currentProblemId := 0;
      }
      hst.stateType := SOFT_STATE;
      stateOrTypeChange := true;
    }
    if hard {
      hst.lastHardState := hst.currentState;
      hst.stateType := HARD_STATE;
      stateOrTypeChange := true;
      sendNotification' := true;
    }
    if stateOrTypeChange {
      if (hst.acknowledgementType == ACKNOWLEDGEMENT_NORMAL && (stateChange || !hard)) ||
         (hst.acknowledgementType == ACKNOWLEDGEMENT_STICKY && hst.currentState == HOST_UP) {
        hst.problemHasBeenAcknowledged := false;
        hst.acknowledgementType := ACKNOWLEDGEMENT_NONE;
      }
    }
  }

  /** The notification to ask for; a hard host that is up owes a recovery to whoever was notified. */
  function HostRequestFor(c: HostCore, m: int, r: HostInput, somebodyNotified: bool): Option<NotificationType> {
    if somebodyNotified && r.state == HOST_UP && NextHost(c, m, r, 0).kind == HARD_STATE
    then Some(NOTIFICATION_RECOVERY)
    else if AsksToNotifyHost(c, m, r) then Some(NOTIFICATION_NORMAL)
    else None
  }

  method ChooseHostNotification(hst: Host, sendNotification: bool, somebodyNotified: bool)
    returns (requested: Option<NotificationType>)
    ensures requested ==
      if somebodyNotified && hst.currentState == HOST_UP && hst.stateType == HARD_STATE then Some(NOTIFICATION_RECOVERY)
      else if sendNotification then Some(NOTIFICATION_NORMAL)
      else None
  {
    var notificationType, send := NOTIFICATION_NORMAL, sendNotification;
    if somebodyNotified && hst.currentState == HOST_UP && hst.stateType == HARD_STATE {
      notificationType := NOTIFICATION_RECOVERY;
      send := true;
    }
    return if send then Some(notificationType) else None;
  }

  /** Records the result and moves the host. */
  method MoveHost(hst: Host, ids: ProblemIds, cr: HostCheckResult, s: HostSettings, parentStates: seq<int>)
    returns (sendNotification: bool)
    requires HostInv(hst.Core(), hst.maxAttempts)
    modifies hst, ids
    ensures
      var c, r := old(hst.Core()), AsHostInput(cr, s, parentStates);
      && hst.Core() == NextHost(c, hst.maxAttempts, r, old(ids.next))
      && ids.next == old(ids.next) + (if TakesHostId(c, r) then 1 else 0)
      && sendNotification == AsksToNotifyHost(c, hst.maxAttempts, r)
      && hst.lastCheck == cr.startTime && hst.lastState == c.state
      && hst.lastProblemId == (if r.state != c.state && c.state != HOST_UP then c.problemId else old(hst.lastProblemId))
  {
    ghost var c := hst.Core();
    hst.lastCheck := cr.startTime;
    hst.lastState := hst.currentState;
    hst.currentState := HostReturnCode(cr, s);
    var stateChange, hardStateChange;
    stateChange, hardStateChange, sendNotification := CompareStates(hst, cr, s, parentStates, c);
    sendNotification := StateOrHardStateTypeChange(hst, ids, !cr.active && !s.passiveHostChecksAreSoft, stateChange,
                                                   hardStateChange, sendNotification);
  }

  /**
   Handles one result: the host moves as the state table says. Flap detection may send a recovery
   on the way; somebodyNotified says whether, after it, somebody still waits for one.
   */
  method HandleAsyncHostCheckResult(hst: Host, ids: ProblemIds, cr: HostCheckResult, s: HostSettings,
                                    parentStates: seq<int>, somebodyNotified: bool)
    returns (ok: bool, requested: Option<NotificationType>)
    requires HostInv(hst.Core(), hst.maxAttempts)
    modifies hst, ids
    ensures ok <==> cr.active || s.acceptPassiveChecks
    ensures !ok ==> unchanged(hst) && unchanged(ids) && requested.None?
    ensures HostInv(hst.Core(), hst.maxAttempts)
    ensures
      ok ==>
        var c, r := old(hst.Core()), AsHostInput(cr, s, parentStates);
        && hst.Core() == NextHost(c, hst.maxAttempts, r, old(ids.next))
        && ids.next == old(ids.next) + (if TakesHostId(c, r) then 1 else 0)
        && requested == HostRequestFor(c, hst.maxAttempts, r, somebodyNotified)
        && hst.hasBeenChecked && hst.lastCheck == cr.startTime && hst.lastState == c.state
        && hst.lastProblemId == (if r.state != c.state && c.state != HOST_UP then c.problemId
                                 else old(hst.lastProblemId))
    ensures ok ==>
      ids.next == old(ids.next) + if old(hst.currentState) == HOST_UP && hst.currentState != HOST_UP then 1 else 0
    ensures ok && cr.active && !s.hasCheckCommand ==> hst.currentState == HOST_UP
    ensures ok && cr.active && s.hasCheckCommand ==>
      (hst.currentState == HOST_UP <==>
       cr.exitedOk && !cr.earlyTimeout && (cr.returnCode == 0 || (cr.returnCode == 1 && !s.useAggressiveHostChecking)))
    ensures ok && !cr.active ==> (hst.currentState == HOST_UP <==> cr.returnCode == HOST_UP)
    ensures ok && !cr.active && !s.translatePassiveHostChecks ==> hst.currentState == cr.returnCode
    ensures
      ok && hst.currentState != HOST_UP && (cr.active || s.translatePassiveHostChecks) ==>
        var cutOff := parentStates != [] && forall i :: 0 <= i < |parentStates| ==> parentStates[i] != HOST_UP;
        hst.currentState ==
          if cutOff || (!cr.active && cr.returnCode == HOST_UNREACHABLE) then HOST_UNREACHABLE else HOST_DOWN
    ensures ok && !cr.active && !s.passiveHostChecksAreSoft && hst.currentState != old(hst.currentState) ==>
      hst.stateType == HARD_STATE && hst.currentAttempt == 1
    ensures ok && (cr.active || s.passiveHostChecksAreSoft) && hst.maxAttempts > 1 ==>
      old(hst.currentState) == HOST_UP && hst.currentState != HOST_UP ==> hst.stateType == SOFT_STATE
  {
    if !cr.active && !s.acceptPassiveChecks {
      return false, None;
    }
    NextHostKeepsInv(hst.Core(), hst.maxAttempts, AsHostInput(cr, s, parentStates), ids.next);
    ok := true;
    var sendNotification := MoveHost(hst, ids, cr, s, parentStates);
    if hst.currentAttempt == HOST_UP {
      // the code would reset the attempt here, but no attempt is ever 0
      assert false;
    }
    requested := ChooseHostNotification(hst, sendNotification, somebodyNotified);
    hst.hasBeenChecked := true;
  }

  /**
   What is asked for in runs of results that do not count as hard, once the host was up: as for
   services, for a problem from the m-th in a row on, for a recovery from that many, and for a
   recovery at further UP results as long as somebody still waits for one.
   */
  lemma HostRequestsOverRun(start: HostCore, m: int, results: seq<HostInput>, somebodyNotified: bool, ids: nat)
    requires Orderly(start, m) && start.kind == HARD_STATE && NoneCountsAsHard(results)
    requires results != [] && BeganUp(start, results[..|results| - 1])
    ensures
      var before, last := results[..|results| - 1], results[|results| - 1];
      HostRequestFor(HostRun(start, m, before, ids), m, last, somebodyNotified) ==
        if last.state != HOST_UP then (if HostStreak(results) >= m then Some(NOTIFICATION_NORMAL) else None)
        else if somebodyNotified && (HostStreak(before) == 0 || HostStreak(before) >= m)
        then Some(NOTIFICATION_RECOVERY)
        else if HostStreak(before) >= m then Some(NOTIFICATION_NORMAL)
        else None
  {
    HostNotifiesFromMaxAttempts(start, m, results, ids);
    HostHardAfterMaxAttempts(start, m, results[..|results| - 1], ids);
    var before, last := HostRun(start, m, results[..|results| - 1], ids), results[|results| - 1];
    KindDoesNotDependOnId(before, m, last, 0, ids + |results|);
    HostHardAfterMaxAttempts(start, m, results, ids);
  }

  lemma KindDoesNotDependOnId(c: HostCore, m: int, r: HostInput, a: nat, b: nat)
    ensures NextHost(c, m, r, a).kind == NextHost(c, m, r, b).kind
  {
  }

  /**
   The case that the state table alone misses: a host that recovered while its notifications were
   held back asks for the recovery at every further result that finds it up, until it is sent.
   */
  lemma OwedRecoveryIsAskedForAgain(c: HostCore, m: int, r: HostInput)
    requires HostInv(c, m) && c.state == HOST_UP && c.lastHard == HOST_UP && r.state == HOST_UP
    ensures !AsksToNotifyHost(c, m, r) && HostRequestFor(c, m, r, true) == Some(NOTIFICATION_RECOVERY)
  {
  }
}
