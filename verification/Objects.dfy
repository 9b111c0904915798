/**
 The objects that the engine updates in place (include/objects.h), and what surrounds a service
 at the moment something happens to it.
 */
module Objects {
  import opened Wrappers
  import opened ServiceState
  import opened HostState
  import opened NotificationLog
  import FlapHistory

  const MAX_STATE_HISTORY_ENTRIES := 21

  // Bit numbers in option masks; the numbers 0 to 3 stand for the service states.
  const OPT_RECOVERY := 0
  const OPT_FLAPPING := 11
  const OPT_DOWNTIME := 12

  datatype NotificationType =
    | NOTIFICATION_NORMAL | NOTIFICATION_ACKNOWLEDGEMENT
    | NOTIFICATION_FLAPPINGSTART | NOTIFICATION_FLAPPINGSTOP | NOTIFICATION_FLAPPINGDISABLED
    | NOTIFICATION_DOWNTIMESTART | NOTIFICATION_DOWNTIMEEND | NOTIFICATION_DOWNTIMECANCELLED
    | NOTIFICATION_CUSTOM | NOTIFICATION_RECOVERY

  datatype NotificationOptions = NotificationOptions(broadcast: bool, forced: bool, increment: bool)

  const NOTIFICATION_OPTION_NONE := NotificationOptions(false, false, false)

  datatype Contact = Contact(minimumValue: int, serviceNotificationsEnabled: bool, period: Option<nat>,
                             options: set<int>)

  /** Contacts and contact groups by id; a pointer that was never resolved is None. */
  datatype Recipients = Recipients(contacts: seq<Option<nat>>, groups: seq<Option<nat>>)

  datatype Escalation = Escalation(
    service: Option<nat>, firstNotification: int, lastNotification: int, interval: real,
    options: set<int>, period: Option<nat>, recipients: Recipients)

  /** The configuration of a service. */
  datatype Config = Config(
    id: nat, maxAttempts: int, isVolatile: bool, hourlyValue: int,
    notificationInterval: real, firstNotificationDelay: real, notificationOptions: set<int>,
    notificationPeriod: Option<nat>, recipients: Recipients, escalations: seq<Escalation>,
    flapOptions: set<int>, lowFlapThreshold: real, highFlapThreshold: real)

  /**
   The surroundings at one moment: the clock, the timeperiods valid then, the next valid time of each
   timeperiod (0 for none, and an answer also where there is no timeperiod), program-wide settings, the contacts,
   and what other parts of the engine report about the service and its host.
   */
  datatype World = World(
    now: int, validNow: set<nat>, nextValidTime: Option<nat> -> int, programStart: int, intervalLength: nat,
    notificationsEnabled: bool, flapDetectionEnabled: bool, lowFlapThreshold: real, highFlapThreshold: real,
    contacts: seq<Contact>, groups: seq<seq<Option<nat>>>,
    serviceDependenciesFailed: bool, hostDependenciesFailed: bool,
    serviceStartsFlexDowntime: bool, hostStartsFlexDowntime: bool,
    hostDowntimeDepth: int, hostState: int, hostStateType: StateType, hostParentStates: seq<int>,
    hostNotificationPeriod: Option<nat>)
  {
    predicate InPeriod(period: Option<nat>) {
      period.Some? ==> period.value in validNow
    }

    ghost predicate Resolves(r: Recipients) {
      && (forall i :: 0 <= i < |r.contacts| && r.contacts[i].Some? ==> r.contacts[i].value < |contacts|)
      && (forall i :: 0 <= i < |r.groups| && r.groups[i].Some? ==> r.groups[i].value < |groups|)
    }

    ghost predicate Serves(config: Config) {
      && (forall g, i :: 0 <= g < |groups| && 0 <= i < |groups[g]| && groups[g][i].Some? ==>
          groups[g][i].value < |contacts|)
      && Resolves(config.recipients)
      && forall i :: 0 <= i < |config.escalations| ==> Resolves(config.escalations[i].recipients)
    }
  }

  /** The counter that hosts and services share (base/utils.c). */
  class ProblemIds {
    var next: nat

    constructor ()
      ensures next == 1
    {
      next := 1;
    }
  }

  class Host {
    const maxAttempts: int
    var currentState: int
    var lastState: int
    var stateType: StateType
    var currentAttempt: int
    var lastHardState: int
    var currentProblemId: nat
    var lastProblemId: nat
    var problemHasBeenAcknowledged: bool
    var acknowledgementType: AckType
    var hasBeenChecked: bool
    var lastCheck: int

    /** A host as it is when its definition has been read (common/objects.c). */
    constructor (maxAttempts: int, initialState: int)
      requires maxAttempts >= 1
      ensures this.maxAttempts == maxAttempts && Core() == HostState.Defined(initialState, maxAttempts) &&
        !hasBeenChecked
      ensures Orderly(Core(), maxAttempts) && currentState == lastState == initialState && stateType == HARD_STATE
    {
      this.maxAttempts := maxAttempts;
      currentState, lastState, lastHardState, stateType := initialState, initialState, initialState, HARD_STATE;
      currentAttempt := if initialState == HOST_UP then 1 else maxAttempts;
      currentProblemId, lastProblemId := 0, 0;
      problemHasBeenAcknowledged, acknowledgementType := false, ACKNOWLEDGEMENT_NONE;
      hasBeenChecked, lastCheck := false, 0;
    }

    /** The state machine's fields as one value. */
    ghost function Core(): HostCore
      reads this`currentState, this`stateType, this`currentAttempt, this`lastHardState, this`currentProblemId,
            this`problemHasBeenAcknowledged, this`acknowledgementType
    {
      HostCore(currentState, stateType, currentAttempt, lastHardState, currentProblemId, problemHasBeenAcknowledged,
               acknowledgementType)
    }
  }

  class Service {
    const config: Config
    const stateHistory: array<int>

    // the state machine
    var currentState: int
    var lastState: int
    var stateType: StateType
    var currentAttempt: int
    var lastHardState: int
    var hostProblemAtLastCheck: bool
    var currentProblemId: nat
    var lastProblemId: nat
    var problemHasBeenAcknowledged: bool
    var acknowledgementType: AckType
    var lastCheck: int
    var lastHardStateChange: int

    // notifications
    var notificationsEnabled: bool
    var scheduledDowntimeDepth: int
    var currentNotificationNumber: nat
    var notifiedOn: set<int>
    var lastNotification: int
    var nextNotification: int
    var noMoreNotifications: bool
    ghost var history: History

    // flap detection
    var flapDetectionEnabled: bool
    var stateHistoryIndex: nat
    var percentStateChange: real
    var isFlapping: bool
    var flappingCommentId: nat
    var checkFlappingRecoveryNotification: bool

    /** A service as it is when its definition has been read (common/objects.c). */
    constructor (config: Config, initialState: int, notificationsEnabled: bool, flapDetectionEnabled: bool)
      requires config.maxAttempts >= 1 && config.notificationInterval >= 0.0
      ensures this.config == config && NotesOk() && FlapOk() && ConfigOk() && fresh(stateHistory)
      ensures Core() == ServiceState.Defined(initialState, config.maxAttempts) && Inv(Core(), config.maxAttempts)
      ensures currentState == lastState == initialState && stateType == HARD_STATE && currentProblemId == 0
      ensures this.notificationsEnabled == notificationsEnabled && this.flapDetectionEnabled == flapDetectionEnabled
    {
      this.config := config;
      stateHistory := new int[MAX_STATE_HISTORY_ENTRIES](_ => STATE_OK);
      currentState, lastState, lastHardState, stateType := initialState, initialState, initialState, HARD_STATE;
      currentAttempt := if initialState == STATE_OK then 1 else config.maxAttempts;
      hostProblemAtLastCheck, currentProblemId, lastProblemId := false, 0, 0;
      problemHasBeenAcknowledged, acknowledgementType := false, ACKNOWLEDGEMENT_NONE;
      lastCheck, lastHardStateChange := 0, 0;
      this.notificationsEnabled, scheduledDowntimeDepth := notificationsEnabled, 0;
      currentNotificationNumber, notifiedOn := 0, {};
      lastNotification, nextNotification, noMoreNotifications := 0, 0, false;
      history := Start;
      this.flapDetectionEnabled, stateHistoryIndex, percentStateChange := flapDetectionEnabled, 0, 0.0;
      isFlapping, flappingCommentId, checkFlappingRecoveryNotification := false, 0, false;
    }

    ghost predicate ConfigOk() {
      config.maxAttempts >= 1 && config.notificationInterval >= 0.0
    }

    /** The state machine's fields as one value. */
    ghost function Core(): Core
      reads this`currentState, this`stateType, this`currentAttempt, this`lastHardState, this`hostProblemAtLastCheck,
            this`currentProblemId, this`problemHasBeenAcknowledged, this`acknowledgementType
    {
      ServiceState.Core(currentState, stateType, currentAttempt, lastHardState, hostProblemAtLastCheck,
                        currentProblemId, problemHasBeenAcknowledged, acknowledgementType)
    }

    ghost function Notes(): Notes
      reads this`currentNotificationNumber, this`notifiedOn, this`lastNotification, this`nextNotification,
            this`noMoreNotifications
    {
      NotificationLog.Notes(currentNotificationNumber, notifiedOn, lastNotification, nextNotification,
                            noMoreNotifications)
    }

    /** The notification fields are what the history of notifications makes them. */
    ghost predicate NotesOk()
      reads this`history, this`currentNotificationNumber, this`notifiedOn, this`lastNotification, this`nextNotification,
            this`noMoreNotifications
    {
      Legal(history, config.isVolatile) && Notes() == After(history)
    }

    /** A service that is not flapping has no flapping comment and owes no recovery for flapping. */
    ghost predicate FlapOk()
      reads this`stateHistoryIndex, this`isFlapping, this`flappingCommentId, this`checkFlappingRecoveryNotification
    {
      && stateHistory.Length == MAX_STATE_HISTORY_ENTRIES
      && stateHistoryIndex < MAX_STATE_HISTORY_ENTRIES
      && (!isFlapping ==> flappingCommentId == 0 && !checkFlappingRecoveryNotification)
    }

    /** The recorded states, oldest first. */
    ghost function StateHistory(): seq<int>
      requires stateHistory.Length == MAX_STATE_HISTORY_ENTRIES && stateHistoryIndex < MAX_STATE_HISTORY_ENTRIES
      reads this`stateHistoryIndex, stateHistory
    {
      FlapHistory.Chronological(stateHistory[..], stateHistoryIndex)
    }
  }
}
