# The monitoring engine of Nagios Core: a verified model

Nagios Core decides what to check when, what a check result means, and whom to tell. The guarantees
that its documentation gives (hard states after so many attempts, one recovery for a problem, a
minimum distance between notifications, one pending check per host or service) are not visible in
any one function: they are properties of whole runs. This project models the engine's state machines
and graph algorithms and proves them.

| file | what it models |
|---|---|
| Graph, CircularCheck | the pre-flight search for circular paths in six link graphs |
| Dependencies, Propagation | the recursions that rely on it: dependency evaluation, notification switches, downtime |
| ServiceState, ServiceChecks | soft and hard states of services: the state table, and the result handler that computes it |
| ProblemRuns | problem ids over runs of all services and hosts |
| HostState, HostChecks | the same for hosts, and where the rules of services fail |
| NotificationLog, Notifications, ContactList | notification filters, bookkeeping, recipients, re-notification |
| FlapHistory, Flapping | flap detection: ring buffer, weighted percentage, hysteresis |
| EventQueue, CheckScheduling, MainLoop | the event queue, requests for checks, the main loop |
| StartUp, Smoothing, TimeChange | interleaved start-up slots, smoothing of the schedule, clock changes |
| Objects, Wrappers | the hosts, services and surroundings that the others share |

How to read it. Code that works in place is a class or array with methods; each method is proved
against a function or predicate over values (the state table, the history of notifications, the
chronological list of states, the set of reachable objects), and the lemmas about runs speak of
those. `Service.history` is a ghost record of notification events; every operation that touches a
notification field is proved to keep the fields equal to `After(history)` and the history legal.

A function or predicate that a method and its contract share has laws of its own, which say what it means
without naming it: for a caller, over runs, or in a concrete case.

Conventions. `double` is `real`, `time_t` is `int`; the current time, timeperiod verdicts, random
nudges and comment ids are inputs. Masks are sets of bit numbers. Pointers that may be NULL are
`Option`. The queue is a set of events with their times; taking its first event is any event none of
the others comes before. Host and service versions of the same algorithm are one member where they
agree; where they differ, the member takes both forms.

Results that are not what one would expect:

- A host loses its problem id when it switches between DOWN and UNREACHABLE (`HostProblemIdIff`),
  and can stay soft at its last attempt for ever when passive and active results mix (`SoftForEver`,
  with the exact condition in `HardAtLastAttemptIff`).
- Smoothing gives strictly increasing times iff there are at most a million checks for every second
  of the window, because microseconds are cut off (`SlotsDistinctIff`).
- A clock that jumps back and forward again restores a timestamp iff it was 0 or greater than the
  jump (`BackThenForwardIff`); an object and its event then disagree in exactly the cases of
  `StillAgreedIff`, because event times are not cut off at 0.
- The comment in base/config.c:2173-2177 says that an object is OK iff all its children are. The code
  marks an object OK also when a child is LOOPY, as long as the object itself still carries its
  search mark. Only the error count is related to cycles here.
- The attempt counters in the last branches of base/checks.c:1493-1497 and 2414-2417 cannot be reached,
  nor can the reset of a host attempt that is 0 (lines 2483-2485); the bodies say `assert false` there.
- A service that turns critical while its host is down is hard at attempt 1, and the next different
  problem result makes it soft again (`SoftAgain`; `StaysHardIff` says when that can happen).
- A host can be up and hard and yet go down softly for ever (`SoftAcrossRecovery`); `HardInOneStateIff`
  is the exact condition, over all runs, passive and active results mixed.
- A service defined with an initial_state of warning, unknown or critical is in a problem without a
  problem id until it has once been OK (`ProblemIdIff`, `ProblemWithoutId`).
- A dependency that is out of its period ends the scan with OK, so the entries after it do not count.
- Downtime is requested for a host once for each walk to it, so a host below two parents gets two.

Main results, in the order of their difficulty:

1. `CircularCheck.DfsPath`, `CheckAll`, `PreFlightCircularCheck`: the marking search counts no error iff the graph has no cycle.
2. `Dependencies.CheckDependencies`, `CheckLoaded`: the recursion that this allows fails iff a failing inheriting chain exists.
3. `ServiceChecks.HandleAsyncServiceCheckResult` with `ServiceState.HardAfterMaxAttempts`, `StaysHardIff`: the handler computes a table whose runs turn hard after max_attempts problems.
4. `ProblemRuns.ProblemIdIff`, `ProblemIdentity`, `IdsAreNeverReused`: who has a problem id, over all runs of all services and hosts.
5. `HostChecks.HandleAsyncHostCheckResult` with `HostState.HostHardAfterMaxAttempts`, `HostProblemIdIff`, `HardInOneStateIff`: the same for hosts, and where it fails.
6. `Notifications.ServiceNotification` with `NotificationLog.RecoveriesNeverOutnumberProblems`, `RenotificationThrottle`: every history of notifications is legal, and what legal histories promise.
7. `Flapping.CheckForServiceFlapping` with `FlapHistory.FlagRunCrossesThreshold`, `SteadyRunEndsFlapping`: the ring computes a weighted history, and the life of the flag over runs.
8. `CheckScheduling.ScheduleCheck` with `SurvivorBeatsAll`, `MergingIgnoresOrder`: which request survives, whatever the order.
9. `MainLoop.EventExecutionLoop`: one pending check per object, at the object's next_check, over any run with any input.
10. `StartUp.InterleavingIsCollisionFree`, `ChecksNeverStartTogether`: start-up slots and times.
11. `Smoothing.AdjustCheckScheduling` with `SlotsDistinctIff`: which checks move where.
12. `TimeChange.CompensateForSystemTimeChange` with `BackThenForwardIff`, `StillAgreedIff`: what a jump of the clock keeps.
13. `Propagation.PropagateNotifications`, `ScheduleAndPropagateDowntime` with `RequestsCountWalks`: what the recursions over hosts reach, and how often.

The other rows of the table are the steps to these: branches of a handler, or lemmas about the specification.

## Model

| member | source | states |
|---|---|---|
| CircularCheck.DfsPath | base/config.c:2145-2181 | one search serves the four graphs: it ends because each unmarked root costs an UNCHECKED mark, an error means a cycle and a link with both ends LOOPY, LOOPY marks are final and newly given only on cycles, and an error-free search extends an order in which every link leads backwards |
| CircularCheck.VisitChild | base/config.c:2156-2171 | one child: an error is counted when it lies on the search stack, and then both ends of the link are LOOPY |
| CircularCheck.PathDescends | base/config.c:2145-2181 | over such an order every path leads to an earlier place |
| CircularCheck.OrderedIsOffCycles | base/config.c:2173-2180 | an object that got its place in the order lies on no cycle |
| CircularCheck.OrderedCoverIsAcyclic | base/config.c:2255-2286 | searching only from the dependents of dependency records is enough: everything else has no links |
| CircularCheck.BackLink | base/config.c:2163-2170 | a link to an object on the search stack closes a cycle through both its ends, self links included |
| CircularCheck.CheckAll | base/config.c:2249-2252 | from a cleared status array, no error is counted iff the parent/child (or timeperiod exclusion) graph has no directed cycle |
| CircularCheck.CheckDependencies | base/config.c:2255-2286 | no error is counted iff neither the notification nor the execution dependency graph has a cycle |
| CircularCheck.PreFlightCircularCheck | base/config.c:2214-2307 | the check passes iff all six link graphs are acyclic, and passes iff the caller's error count stays as it was |
| Graph.RankDecreases | base/checks.c:1994-1998 | in an acyclic graph the number of reachable objects drops at every link: why the recursions end |
| Graph.ReachesFirstLink | base/commands.c:4107-4133 | reachability unfolds at the first link, as the recursions do |
| Dependencies.CheckDependencies | base/checks.c:1947-2002 | over an acyclic graph the recursion ends with FAILED iff some chain of inheriting dependencies leads to one whose state in force is in its failure options, each scan stopping with OK at the first entry out of its period (hosts: lines 2693-2750) |
| Dependencies.CheckLoaded | base/config.c:2255-2286 | pre-flight and evaluation composed, for services and hosts and both types: whenever the pre-flight check passes, the evaluation ends with the verdict above |
| Dependencies.Evaluation.ChainThrough | base/checks.c:1988-1998 | a failing chain through an entry exists iff the entry fails itself or passes on a failure of its master |
| Dependencies.Evaluation.FailsIff | base/checks.c:1963-1998 | such chains solve the recursion: an entry with a master, in its period and with none before it out of its own, whose master fails by its last hard state (in a soft state, unless soft states count) or else by its current one, or passes on a failure |
| Dependencies.SoftStatesDoNotCount | base/checks.c:1980-1986 | without soft_state_dependencies the current state of masters in soft states makes no difference, nor the last hard state of others |
| Dependencies.LastHardStatesDoNotCount | base/checks.c:1980-1986 | with it, last hard states and state types make none |
| Dependencies.SoftCriticalFailsIff | base/checks.c:1980-1986 | a concrete evaluation: a soft critical master that was OK fails iff soft states count |
| Propagation.SetNotifications | base/commands.c:3996-4096 | one switch thrown: it has the value asked for, and is marked as modified only when its value changes |
| Propagation.SetServiceNotifications | base/commands.c:4121-4130 | exactly the services of the host change |
| Propagation.PropagateNotifications | base/commands.c:4100-4175 | exactly the proper descendants (if asked), the top host (if asked, at level 0) and the descendants' services (if asked) have the value asked for afterwards, marked as modified iff they were or changed; all others are as before |
| Propagation.PropagateToChild | base/commands.c:4110-4131 | one child: first everything beyond it, then the child and its services |
| Propagation.TopHostOnlyOnRequest | base/commands.c:4103-4105 | without cycles the top host itself changes only on request at level 0 |
| Propagation.ScheduleAndPropagateDowntime | base/commands.c:4288-4306 | the requests made are the ends of all child-link walks from the top host, in the order the recursion completes them |
| Propagation.WalksAreAllWalks | base/commands.c:4288-4306 | that list of walks holds every non-empty walk, each exactly once |
| Propagation.RequestsCountWalks | base/commands.c:4288-4306 | every host is asked for exactly as often as there are different walks to it |
| ServiceState.NextKeepsInv | base/checks.c:1372-1526 | for every host state: 1 <= attempt <= max_attempts; OK implies HARD, attempt 1 and last hard state OK; an acknowledged problem is a problem |
| ServiceState.AckRules | base/checks.c:921-929 | a sticky acknowledgement survives every non-OK result, a normal one exactly the results in the same state (so also promotion to hard), none a recovery |
| ServiceState.AcknowledgedFor | base/commands.c:4344-4390 | an acknowledgement lasts until the recovery if it is sticky, and otherwise until the next change of state |
| ServiceState.HardAfterMaxAttempts | base/checks.c:1476-1512 | trace refinement: after any run of results with the host up, from any state the invariant allows, k trailing problems since the service was OK mean OK/HARD/1 (k = 0), SOFT attempt k with last hard state OK (k < m), HARD attempt m in the latest state (k >= m); in a problem that was there before, soft or hard, state, type, attempt and last hard state in closed form: hard iff the attempts counted on from the start are used up, or it was hard and every result repeated its state |
| ServiceState.StaysHardIff | base/checks.c:1476-1512 | a hard problem stays hard through every run of problems iff its attempts are used up |
| ServiceState.SoftAgain | base/checks.c:1357 | a problem that is hard with attempts left, and a result that makes it soft again: a concrete run (lines 895 and 1395) |
| ServiceState.NotifiesFromMaxAttempts | base/checks.c:1500-1512 | in such a run, once the service was OK, a problem notification is asked for exactly from the m-th problem in a row on, volatile or not |
| ServiceState.HardChanges | base/checks.c:1500-1526 | in such a run a hard change comes with the m-th problem in a row, with every other state after that, and with every recovery |
| ServiceState.HardRecoveryFromMaxAttempts | base/checks.c:1405-1440 | a recovery counts as hard exactly after m problems in a row |
| ServiceState.HardRecoveryFromProblem | base/checks.c:1405-1512 | in a problem that was there before the run: iff it is hard by then, or was last hard in a problem and has one attempt left at most |
| ServiceState.HostDownUsesUpAttempts | base/checks.c:1340-1358 | a problem that comes while the host is not up, in another state than the last hard one, is hard with all attempts used up, and stays so through every run of problems, whatever becomes of the host |
| ServiceState.HardWhileHostIsDown | base/checks.c:1340-1358 | over every run with the host not up: problems are hard at attempt 1, or the one the run began with, until the state switches, and at attempt m from then on |
| ServiceState.NothingAskedWhileHostIsDown | base/checks.c:1500-1512 | over such runs non-volatile services ask for nothing, volatile ones at every problem |
| ServiceState.HostProblemAtProblem | base/checks.c:1262-1345 | after any run, host_problem_at_last_check at a problem says whether the host is not up |
| ServiceState.HostProblemWhileOk | base/checks.c:1248-1262 | over runs of OK results it is set iff it was, or a host once checked was not up at one of them |
| ServiceState.HostProblemAtRecovery | base/checks.c:1278-1287 | at a recovery: a hard one clears it, any other leaves it, or sets it if a host once checked is not up (line 1638) |
| ProblemRuns.RunKeepsSystemInv | base/checks.c:879-893 | over every run of results of all services and hosts and of acknowledgement commands: only objects in a problem have an id, ids are unique among services and hosts and all below the counter |
| ProblemRuns.ProblemIdentity | base/checks.c:1575-1581 | the id of a service, or the lack of one, stays the same throughout a problem; a problem that began during the run has an id that no service and no host had at its start |
| ProblemRuns.HostIdsAreFresh | base/checks.c:956-976 | a host's id is 0, or the one it had, or one that no service and no host had at the start of the run |
| ProblemRuns.IdsAreNeverReused | base/checks.c:889-893 | when a service is OK and later in a problem, the id of that problem was held by no service and no host at any moment until then |
| ProblemRuns.ProblemIdIff | base/checks.c:879-893 | after any run a service has a problem id iff it has a problem, other than one that lasts since the start of the run and had no id then |
| ProblemRuns.StartIsSound | common/objects.c:1553-1560 | services and hosts as their definitions leave them, in whatever initial states, satisfy the invariant that the runs keep (hosts: lines 704-712) |
| ProblemRuns.ProblemIdFromStart | common/objects.c:1553-1560 | from the definitions on: a service has a problem id iff it has a problem and has been OK since |
| ProblemRuns.ProblemWithoutId | base/checks.c:889-893 | so a service defined with an initial_state other than OK is in a problem without an id: a concrete run |
| ServiceChecks.ReturnCode | base/checks.c:350-438 | a passive result, and an active one that exited properly within 0..3, stands for its own state; one that timed out for the configured state; every other for CRITICAL |
| ServiceChecks.ConsiderHost | base/checks.c:1248-1362 | what the host's state does to attempt, type and the forced hard change, and when a host check is faked |
| ServiceChecks.CompareStates | base/checks.c:1372-1512 | type, attempt, changes and the wish to notify as functions of last state, new state and host problem |
| ServiceChecks.Assess | base/checks.c:1248-1512 | both parts together follow the state table |
| ServiceChecks.StateOrHardStateTypeChange | base/checks.c:874-935 | ids, type, hard state and acknowledgement after a change; notifications start afresh |
| ServiceChecks.ReviewAcknowledgement | base/checks.c:921-929 | which acknowledgements a change drops |
| ServiceChecks.ApplyChange | base/checks.c:1518-1525 | the change carried out with the last hard state held back until the end |
| ServiceChecks.MoveState | base/checks.c:1248-1525 | up to this point the service has become what the table says, recoveries not yet settled |
| ServiceChecks.TakeResult | base/checks.c:1238-1525 | the result recorded and the state moved: last check, last state and the date of the last hard change included |
| ServiceChecks.ChooseNotification | base/checks.c:1583-1615 | which notification goes out: a recovery for a hard OK with somebody notified, otherwise a problem if wished for or volatile |
| ServiceChecks.RequestsOverRun | base/checks.c:1583-1615 | over every run with the host up: problems are asked for from the m-th in a row on, recoveries from that many as such if somebody was notified, and again with further OK results as long as somebody waits for one |
| ServiceChecks.FlapAndNotify | base/checks.c:1575-1615 | the problem id ends with the problem, and the notification asked for is the verdict's |
| ServiceChecks.Settle | base/checks.c:1632-1674 | recoveries end up hard at attempt 1; the last hard state is written last |
| ServiceChecks.HandleAsyncServiceCheckResult | base/checks.c:1192-1679 | the handler refines the state table: every accepted result moves all eight state fields exactly as Next says, draws a problem id iff a problem begins, resets notifications iff state or type changed, asks for exactly the notification the table asks for (a recovery iff somebody was notified before and flap detection, which sends one only if one is owed, has not sent it on the way), dates a hard change by the result, counts as a check of a host that is not up and was never checked iff host checks are off or the state is the same, keeps all invariants; a rejected one changes nothing |
| ServiceChecks.AcknowledgeServiceProblem | base/commands.c:4344-4390 | acknowledges exactly non-OK services, keeps the invariant and the notification history |
| ServiceChecks.RemoveServiceAcknowledgement | base/commands.c:4394-4406 | only the acknowledged flag is dropped |
| HostState.NextHostKeepsInv | base/checks.c:2281-2439 | 1 <= attempt <= max_attempts; an up host is at attempt 1 |
| HostState.HostHardAfterMaxAttempts | base/checks.c:2281-2439 | the trace refinement for hosts from any state that attempts alone lead to, for results that do not count as hard: as for services, except that a soft recovery stays soft for one result |
| HostState.HostNotifiesFromMaxAttempts | base/checks.c:2340-2428 | in such runs a notification is asked for exactly from the m-th problem in a row on, and for a recovery from that many |
| HostState.HostNotifiesAtOnce | base/checks.c:980-998 | with results that all count as hard, at every change and at every problem that goes on |
| HostState.HostAckRules | base/checks.c:1005-1015 | a sticky acknowledgement of a host survives every result that is not UP, a normal one exactly those in the same state |
| HostState.HardAtOnce | base/checks.c:943-953 | with passive results that count as hard, every change of state is hard at once, at attempt 1 |
| HostState.HostProblemIdIff | base/checks.c:956-976 | from any start: a host has a problem id iff its present problem never switched between DOWN and UNREACHABLE, and began during the run or had an id before |
| HostState.HostProblemWithoutId | base/checks.c:972-976 | so the rule of services fails for hosts: a concrete run |
| HostState.HardAtLastAttemptIff | base/checks.c:2420-2428 | at the last attempt a host is hard iff it does not come softly back to its last hard state |
| HostState.HardInOneStateIff | base/checks.c:2420-2428 | after any run whatsoever, with passive and active results mixed, m or more results in one problem state leave the host hard iff that is not the state it was last hard in, or it was hard in it at the time |
| HostState.InOneState | base/checks.c:2281-2439 | what n such results make of type, attempt and last hard state |
| HostState.SoftForEver | base/checks.c:2420-2428 | a concrete run after which any number of DOWN results leaves the host soft at its last attempt |
| HostState.SoftAcrossRecovery | base/checks.c:2344-2359 | a soft recovery does not help: a concrete run after which a host that is up and hard goes down softly for ever |
| HostChecks.HostReturnCode | base/checks.c:441-528 | without a check command an active result is UP; with one it is UP iff the command exited properly in time with 0, or with 1 unless checking is aggressive, and otherwise DOWN; a passive one says itself |
| HostChecks.DetermineHostReachability | base/checks.c:3360-3404 | UNREACHABLE iff a host that is not up has parents, none of them up, or says so itself passively |
| HostChecks.CompareStates | base/checks.c:2281-2439 | reachability, attempt and changes follow the host table |
| HostChecks.StateOrHardStateTypeChange | base/checks.c:938-1021 | ids, type, hard state, acknowledgement; passive results that count as hard |
| HostChecks.MoveHost | base/checks.c:2260-2485 | the result recorded and the host moved as the table says, with the dates and the last problem id |
| HostChecks.ChooseHostNotification | base/checks.c:2487-2494 | a recovery has its way when somebody was notified and the host is up and hard |
| HostChecks.HostRequestsOverRun | base/checks.c:2487-2503 | over every run of results that do not count as hard, what is asked for: as for services |
| HostChecks.HandleAsyncHostCheckResult | base/checks.c:2243-2557 | the handler refines the host table in all seven state fields, draws an id iff a problem begins, and asks for a recovery when a hard host is up and somebody was notified, otherwise for a notification exactly when the table does; which results leave the host UP, DOWN or UNREACHABLE is said in terms of the result, the settings and the parents |
| HostChecks.OwedRecoveryIsAskedForAgain | base/checks.c:2487-2491 | a recovery that was held back is asked for again by every result that finds the host up, though the table alone asks for nothing |
| Objects.Service.constructor | common/objects.c:1531-1560 | a new service is hard in its initial state, in a problem with all attempts used up and no problem id; its history of notifications is empty and it does not flap |
| Objects.Host.constructor | common/objects.c:704-712 | a new host is hard in its initial state, and stands where attempts alone could have led it |
| NotificationLog.RecoveriesNeverOutnumberProblems | base/notifications.c:284-304 | over any run without forced notifications, delivered recoveries never outnumber delivered problems, and an open problem is one ahead |
| NotificationLog.NumberCountsSinceReset | base/notifications.c:99-123 | current_notification_number counts the problems (and others asked to count) since the last recovery, delivered or unwanted; notified_on is non-empty iff there was a problem since |
| NotificationLog.OnlyResetsForget | base/notifications.c:284-304 | as long as no problem is sent, somebody goes on waiting for a recovery exactly until there is one |
| NotificationLog.RecoveryAnswersProblem | base/notifications.c:551-554 | a recovery that nobody forced comes after a problem that no other recovery has answered |
| NotificationLog.StaysShut | base/notifications.c:606-638 | from a notification on, the filters stay shut for at least its own waiting time |
| NotificationLog.RenotificationThrottle | base/notifications.c:606-638 | two notifications with no state change, deferral, change of the clock or forced one between them are the first one's interval apart, and after interval 0 there is no second |
| Notifications.CheckServiceNotificationViability | base/notifications.c:351-640 | passes iff the conjunction of filters holds; outside the period a problem is deferred to the next valid time of the service's own period, whichever period was tested |
| Notifications.ProblemViableIff | base/notifications.c:489-638 | an unforced problem goes out iff notifications are allowed, nothing about the service stands against it, the first delay is over and it is time |
| Notifications.RecoveryViableIff | base/notifications.c:489-638 | an unforced recovery iff they are allowed, nothing stands against it, somebody was notified and it is time |
| Notifications.OthersViableIff | base/notifications.c:430-487 | the shorter lists of filters of other kinds, and none for forced ones |
| Notifications.DeferToPeriod | base/notifications.c:402-420 | the next time that the service's own period allows, or a year from now |
| Notifications.GetNextServiceNotificationTime | base/notifications.c:1980-2034 | offset plus the interval that the escalations choose; none any more iff it is 0 and the service is not volatile |
| Notifications.WholeIntervals | base/notifications.c:2030 | a whole number of intervals is that many interval lengths |
| Notifications.HandleBlocked | base/notifications.c:99-115 | what a blocked notification leaves behind: the reset by an unwanted recovery, and the retry after downtime |
| Notifications.FieldsWhenBlocked | base/notifications.c:99-115 | the five notification fields after a blocked notification |
| Notifications.HandleDelivered | base/notifications.c:284-304 | the fields after a delivery are what the history makes them |
| Notifications.FieldsWhenSent | base/notifications.c:284-304 | the five notification fields after a delivered one, of any kind |
| Notifications.NotifyContacts | base/notifications.c:119-346 | exactly the wanted contacts are notified, each once; the number is put back when there are none |
| Notifications.NumberOfOccasion | base/notifications.c:119-123 | a problem counts itself before escalations are looked up, a recovery does not |
| Notifications.Ask | base/checks.c:1606-1615 | a request without options: what it leaves when blocked, and that it is recorded as sent exactly when viable and wanted by somebody |
| Notifications.ServiceNotification | base/notifications.c:70-346 | the whole operation: blocked iff not viable, recipients exact, and the notification fields stay functions of a legal history, so that the lemmas on histories hold for every run |
| ContactList.NotificationList.Find | base/notifications.c:2104-2119 | finds a contact iff it is in the list |
| ContactList.NotificationList.Add | base/notifications.c:2124-2161 | adds at the head unless present; never a duplicate |
| ContactList.NotificationList.AddRecipients | base/notifications.c:996-1023 | exactly the accepted contacts and group members are added |
| ContactList.NotificationList.Create | base/notifications.c:954-1061 | no contact twice, and as a set the accepted contacts of all applying escalations (if escalated or broadcast) with the accepted normal ones (if not escalated or broadcast) |
| ContactList.CheckContactViability | base/notifications.c:646-720 | the filters of a contact in their order; nobody unforced is notified out of his period, with notifications disabled, or about a service below his value |
| ContactList.AcceptedForProblem | base/notifications.c:646-720 | who is told of an unforced problem or recovery: of a recovery, only those who want to know of recoveries and of some state that was notified |
| ContactList.AcceptedOtherwise | base/notifications.c:646-700 | the options that other kinds of notification go by |
| ContactList.IsValidEscalation | base/notifications.c:884-927 | the conditions of an escalation entry in their order |
| ContactList.EscalationApplies | base/notifications.c:884-927 | an escalation applies from its first to its last notification, a recovery counting as the problem before it, in its states and its period; a broadcast goes to all of the service's |
| ContactList.WantedAreInForce | base/notifications.c:954-1061 | notified are the accepted contacts named, in person or by a group, by the lists in force: those of the escalations that apply, the service's own if none does, both for a broadcast |
| ContactList.ShouldBeEscalated | base/notifications.c:931-950 | true iff some escalation applies |
| ContactList.ChooseInterval | base/notifications.c:1980-2034 | the minimum over applying escalations with a non-negative interval, else the service's own |
| ContactList.ShortestInterval | base/notifications.c:1997-2017 | no applying escalation sets a shorter one; it is some escalation's or the service's own, and that if none applies and sets one |
| ContactList.IntervalIsUnique | base/notifications.c:1997-2017 | that description determines one interval |
| FlapHistory.WeightsIncrease | base/flapping.c:105-106 | later changes weigh strictly more, all at least 0.75 |
| FlapHistory.WeightsBetween | base/flapping.c:105-106 | the oldest change weighs 0.75, the latest 1.25, those between are equally spaced |
| FlapHistory.AllWeightsTotal | base/flapping.c:105-116 | the weights of all N - 1 possible changes add up to exactly N - 1 |
| FlapHistory.PercentBounds | base/flapping.c:91-118 | the percentage lies in [0, 100], is 0 iff all states are equal and 100 iff all neighbours differ |
| FlapHistory.RecordInRing | base/flapping.c:85-91 | writing a slot and moving the index is dropping the oldest state and appending the new one |
| FlapHistory.RecordAllKeepsLatest | base/flapping.c:83-92 | after any run of recordings the ring holds the last N states in order |
| FlapHistory.HistoryRunRecords | base/flapping.c:58-92 | over any run of checks, of which some are ignored and some record nothing, the history is what the recordings alone make of it |
| FlapHistory.OnlyRecordingsCount | base/flapping.c:58-153 | so is the flag, if it agreed with the history before, and it goes on agreeing |
| FlapHistory.FlagRunCrossesThreshold | base/flapping.c:131-153 | over any such run, whatever the thresholds, the flag turns on only at a percentage >= high and off only at one <= low |
| FlapHistory.FlagFollowsPercent | base/flapping.c:131-153 | at or below low the flag is down, at or above high it is up, in between it stays |
| FlapHistory.SteadyRunEndsFlapping | base/flapping.c:131-153 | when the last N recordings of such a run are of one state, the flag is off, whatever checks came between or after |
| Flapping.CurvedPercentChange | base/flapping.c:91-118 | the circular walk computes the weighted count over the chronological list |
| Flapping.RecordState | base/flapping.c:72-92 | the ring after recording is the history with the new state appended |
| Flapping.CheckForServiceFlapping | base/flapping.c:40-156 | history, percentage and flag move as one step of the runs of FlapHistory, for ignored, unrecorded and recorded states; not flapping implies no comment id and no pending recovery |
| Flapping.AfterCheck | base/flapping.c:63-153 | in terms of the service: soft problems change nothing, other states are appended if the options name them, and the flag follows the percentage by the service's own thresholds if they are positive |
| Flapping.UpdateFlag | base/flapping.c:123-155 | hysteresis, and which notifications the change asks for |
| Flapping.SetServiceFlap | base/flapping.c:298-338 | the comment id is kept or made, the pending recovery is noted iff a problem was notified |
| Flapping.ClearServiceFlap | base/flapping.c:342-386 | flag, comment id and pending recovery are gone; the swallowed recovery is asked for |
| Flapping.NotifyEnd | base/flapping.c:372-383 | the notifications at the end of flapping, in order |
| Flapping.RecoveryAskedAtEnd | base/flapping.c:372-383 | an owed recovery is asked for after the notification of the end iff the service is OK |
| Flapping.HandleServiceFlapDetectionDisabled | base/flapping.c:745-786 | a flapping service stops, with no comment id or pending recovery left |
| Flapping.ClearServiceFlappingState | base/commands.c:5418-5472 | a service with active detection forgets its states, its percentage and its flag, others change nothing |
| EventQueue.Scheduler.TrackEvents | base/events.c:62-70 | counts only known event types |
| EventQueue.Scheduler.RemoveEvent | base/events.c:901-940 | the queue without the event, counts in step, and current_event forgotten iff it is the one |
| EventQueue.Scheduler.AddEvent | base/events.c:858-896 | the queue with the event, never before now; an event already queued moves |
| EventQueue.HighPriorityFirst | base/events.c:871-880 | of two events due in the same second the one of high priority comes first |
| EventQueue.OrderOfTimes | lib/squeue.c:52-64 | the order of the queue is that of the times in microseconds |
| EventQueue.Scheduler.RescheduleEvent | base/events.c:823-854 | a recurring event at its next time but not in the past, any other at its own |
| EventQueue.Earliest | lib/squeue.c:185-191 | an event none of the others comes before |
| EventQueue.Scheduler.ScheduleNewEvent | base/events.c:768-819 | a fresh event with the given fields in the queue |
| EventQueue.Scheduler.OnePendingEvent | base/checks.c:1754-1791 | the links make next_check_event non-null iff a check for the object is queued, and then the only one |
| EventQueue.Scheduler.PendingEvents | base/checks.c:1754-1791 | the same for all objects at once |
| CheckScheduling.ScheduleCheck | base/checks.c:1682-1805 | merges an accepted request with the pending check, touches no other object's, keeps next_check in step, and keeps the queue invariant; hosts differ only in the recency test (lines 2564-2688) |
| CheckScheduling.ScheduleOnly | base/checks.c:1682-1805 | so a request changes nothing for any other object, and the current event keeps its time unless it is the one replaced |
| CheckScheduling.ScheduleFirst | base/checks.c:1754-1791 | for an object with nothing pending, every accepted request becomes the pending check |
| CheckScheduling.Install | base/checks.c:1754-1791 | the old event is reused, so there is never a second one |
| CheckScheduling.Place | base/events.c:768-819 | a new event is the pending check, with the object's next_check and check_options in step |
| CheckScheduling.Consider | base/checks.c:1697-1752 | which requests are accepted and win; one that loses sets next_check back to the pending check's time |
| CheckScheduling.SurvivorBeatsAll | base/checks.c:1711-1752 | the survivor of any sequence is one of the requests (or the pending check) and beats all of them |
| CheckScheduling.ReplacesIff | base/checks.c:1711-1752 | a request replaces a pending check iff it is forced and that is not, or it is as much forced and strictly earlier |
| CheckScheduling.SurvivorOf | base/checks.c:1711-1752 | from no pending check, the survivor is forced iff any request was, at the minimum time over the forced ones if any, otherwise over all |
| CheckScheduling.MergingIgnoresOrder | base/checks.c:1711-1752 | two sequences with the same requests, in any order and number, leave the same check pending |
| MainLoop.PerformOne | common/downtime.c:341-349 | a request merges with its object's pending check and touches no other's, a new event is in the queue, an event of downtime is cancelled; nothing else leaves the queue |
| MainLoop.Perform | base/checks.c:1711-1796 | over any sequence of actions by commands or handlers, every object's pending check is the merge of its accepted requests, and no event but the cancelled ones is lost |
| MainLoop.RequestsAreForObject | base/checks.c:1697-1709 | the requests that count for an object are its own, at their time, but for unforced ones while checks are disabled and dependency checks of what was checked recently |
| MainLoop.RunScheduledCheck | base/checks.c:70-157 | the pointer is cleared while the event is still queued; a failed launch leaves one new pending check at the retry time (if checks are still accepted), a successful one none; a check that is launched clears the object's check_options (lines 235 and 3183; hosts: lines 3006-3095) |
| MainLoop.LaunchOutcome | base/checks.c:70-157 | what that leaves: nothing pending and no options after a check that runs; the check again at the retry time after one that does not, if its object is to be scheduled and it is not turned down |
| MainLoop.ShouldRunEvent | base/events.c:943-1060 | a service check runs iff a process can start and it is forced or checks are executed and there are not too many; a host check whatever their number; other events always; object and event agree on being forced; a check put off stays queued at next_check plus nudge or window; results reaped meanwhile merge their requests |
| MainLoop.PutOff | base/events.c:999-1020 | the event put off stays the pending one, agrees with next_check, and no other object's time changes |
| MainLoop.HandleTimedEvent | base/events.c:1190-1399 | the event handled is still queued afterwards and no event is lost; a check's object is left with the retry or with nothing pending, smoothing considers exactly the eligible checks (all of them unless the clock went back) and keeps the others' times, other handlers leave the merge of their requests |
| MainLoop.Finish | base/events.c:1166-1179 | the handled event leaves the queue iff it does not recur, and the links hold again |
| MainLoop.MindTheClock | base/events.c:1085-1094 | times are shifted iff the clock went back or forward by the threshold, otherwise nothing changes |
| MainLoop.NextEvent | base/events.c:1085-1097 | an event none of the queued ones comes before, remembered as the current one |
| MainLoop.Poll | base/events.c:1135-1157 | input merges into the pending checks; the event is ready iff it is still the current one and due within 5 milliseconds |
| MainLoop.TakeUp | base/events.c:1135-1180 | the event on turn runs only if it is at most 5 milliseconds early and the load allows it |
| MainLoop.DueIn | base/events.c:1157 | at most 5 milliseconds means less than 6000 microseconds |
| MainLoop.LoopTurn | base/events.c:1077-1180 | one turn of the loop keeps the invariant, handles only an earliest event, which stood at most 5 milliseconds ahead, and loses none but the handled and the cancelled ones; objects stay in time with their pending checks unless a jump of the clock cuts one of these times off |
| MainLoop.EventExecutionLoop | base/events.c:1063-1185 | after any number of turns with any input: event counts are right, every object has a pending check iff one is queued for it, and then exactly that one; every object with a pending check has next_check at its time, if it was so at the start and no jump of the clock cut such a time off; and events stand under their run time or under a time that the clock has reached, which is no later than the last turn while the clock goes forward |
| StartUp.DetermineScheduling | base/events.c:117-158 | the count of services to schedule, and who is marked as not to be |
| StartUp.CountOf | base/events.c:117-143 | counted are the services with a check interval, with checks enabled and with times to be checked at |
| StartUp.PlaceServices | base/events.c:310-385 | the nested loops give the n-th placed service the slot of its block and its place in the block, and the time that follows from it; the others stay as they are |
| StartUp.AtSlot | base/events.c:348-376 | the time of a slot: its delay, or one by chance if that exceeds the service's window, and as long after the next valid time if the check period does not allow it |
| StartUp.TimeOfSlot | base/events.c:352-376 | the time of a slot in terms of the slot, the window, chance and the check period |
| StartUp.DelayInWindow | base/events.c:352-363 | the delay never exceeds the service's window, and is the slot's own unless that does |
| StartUp.DelaysFarApart | base/events.c:352-353 | slots n apart are n inter-check delays apart in time, up to a second |
| StartUp.SlotAt | base/events.c:310-385 | the slot of each service depends on how many were placed before it |
| StartUp.SlotsGoTo | base/events.c:319-337 | slots go to the services to be scheduled, but for those already due within their window |
| StartUp.PlacedAreCounted | base/events.c:117-155 | no more services get slots than were counted |
| StartUp.JustEnoughBlocks | base/events.c:287-292 | there are as many interleave blocks as the services need, and not one more |
| StartUp.SlotInRange | base/events.c:342-346 | every slot lies in [B, (F + 1) B) |
| StartUp.SlotsDiffer | base/events.c:342-346 | equal slots mean equal places in the order |
| StartUp.NextInBlock | base/events.c:342-346 | the next service of a block comes exactly B slots later |
| StartUp.InterleavingIsCollisionFree | base/events.c:287-385 | for every list and every factor F >= 1: placed services get pairwise different slots, all in [B, (F + 1) B), and neighbours in a block are exactly B apart |
| StartUp.ChecksNeverStartTogether | base/events.c:342-376 | with an inter-check delay of a second or more, no two placed services whose slots lie in their windows, at times their periods allow, get the same check time |
| StartUp.QueueInitialChecks | base/events.c:390-407 | afterwards exactly the objects to be checked have a pending check, and all objects agree with their events on the time, and on the options; the queue invariant holds (hosts: lines 540-556) |
| Smoothing.Collect | base/events.c:1491-1532 | only eligible checks, in queue order, and overlap iff two neighbours are too close; an eligible check is passed over only if an event due after the window stands before it, or with it, and none is taken that such a check stands before |
| Smoothing.EligibleIff | base/events.c:1506-1521 | a check is eligible iff its event is not forced and due within the window: object and event agree on their options |
| Smoothing.NothingCutShort | base/events.c:1491-1505 | when the clock has not gone back since the events were queued, no event due after the window stands before an eligible one |
| Smoothing.Spread | base/events.c:1558-1608 | each check gets its slot, unless its period forbids it |
| Smoothing.OnlyIntoPeriods | base/events.c:1570-1600 | a check moves to its slot iff its object may be checked there |
| Smoothing.EvenlySpread | base/events.c:1558-1564 | the slots are the same distance apart, with half of it before the first and after the last |
| Smoothing.TooCloseIff | base/events.c:1523-1527 | two neighbours overlap iff they are fewer whole milliseconds apart than the threshold |
| Smoothing.AdjustCheckScheduling | base/events.c:1418-1617 | no event is lost or added; all but unforced checks due within the window keep their times, and all of these are considered when the clock has not gone back; moved checks have run_time, next_check and queue time at their slot; nothing moves without an overlap |
| Smoothing.MovedTimes | base/events.c:1574-1600 | next_check of moved objects is their slot, of all others unchanged |
| Smoothing.MovedInTime | base/events.c:1574-1600 | moved or not, objects are checked at the time of their pending checks if they were before |
| Smoothing.SlotInWindow | base/events.c:1563-1564 | every new second lies in [window start, window end) |
| Smoothing.SlotsInOrder | base/events.c:1563-1564 | the new times keep the original order |
| Smoothing.SlotsDistinctIff | base/events.c:1563-1564 | the new times are all different, hence strictly increasing, iff there are at most a million checks per second of the window: microseconds are cut off |
| TimeChange.AdjustedTimes | base/events.c:1738-1761 | no timestamp goes below 0, and their order is kept |
| TimeChange.ForwardThenBack | base/events.c:1738-1761 | forward then back restores every timestamp |
| TimeChange.BackThenForwardIff | base/events.c:1747-1754 | back then forward restores exactly the timestamps that are 0 or greater than the jump |
| TimeChange.StillAgreedIff | base/events.c:1738-1761 | an adjusted timestamp moved by exactly the jump iff it was not cut off: neither 0 nor carried below 0 |
| TimeChange.AdjustQueue | base/events.c:1619-1649 | the same events, taken out in the order of their old times, each shifted, asked anew or kept, and put in not before now with its own microseconds |
| TimeChange.Drain | base/events.c:1629 | taking the first event again and again yields the events of the queue, each once, in the order of their times |
| TimeChange.SameSecondKeepsOrder | base/events.c:1641-1646 | events without a priority that come to share a second keep their order when the microseconds do not go back |
| TimeChange.ShiftQueue | base/events.c:1619-1649 | shifted events keep the order of their run times, and pending checks move by exactly the jump |
| TimeChange.CompensateForSystemTimeChange | base/events.c:1652-1733 | the queue invariant holds, shifted events keep their order, and an object and its pending check go on agreeing on their time iff that was not cut off, for each object and for all |
| TimeChange.AdjustService | base/events.c:1669-1683 | the timestamps of a service are shifted, and when it may be notified about again is worked out from the shifted last notification and the interval in force; the notification fields stay functions of the history |

## Left out

- Worker processes, sockets, the command file, logging, macros, status files, event broker modules: input and output. No module cancels or overrides, memory allocation succeeds, and a contact on the list is always notified (base/notifications.c:246-252).
- Timeperiod evaluation: whether a time is valid, and the next valid time, are inputs.
- Computation of the next check time in the result handlers and in the retry of a failed launch: the retry time is an input of RunScheduledCheck.
- Predictive dependency checks and host checks that a result sets off: for the queue they are the RequestCheck actions of a turn.
- The `*_skip_check_*_status` options (base/checks.c:1866, 1877, 1893) are taken as disabled: they write the current state outside the handler.
- Commands that change max_attempts (base/commands.c:3158-3167, 3207-3216): they can leave a soft attempt above the new maximum; the maximum is fixed during a run.
- Commands that set the notification number or delay a notification, and retained state from an earlier run: they set the notification fields directly.
- check_service_parents (base/checks.c:1913-1942): parent links of services are not covered by the circular check.
- The test for bad service parents (base/notifications.c:384-398) never counts a bad parent, so it never blocks; it is not modelled.
- Host notifications: the same algorithm on other fields. Host flap detection (base/flapping.c:160-290) differs from that of services: it looks at soft problems too, and without an actual check it records only after a waiting time.
- Start of flexible downtime when a problem begins, and the rest of common/downtime.c: its events are events that are no checks. Check events come only from requests and from start-up. Only events of downtime are ever cancelled, only by input, and an event's handler never cancels that event (common/downtime.c:561-566).
- Start-up times of hosts, and the smart choice of the inter-check delay and the interleave factor; random times are inputs within the check window.
- Shutdown and restart signals: a run of the main loop is any finite sequence of turns.
- Heap layout of the queue (lib/prqueue.c) and the cut to 43 bits in lib/squeue.c: the queue is a set, and times fit.
- Service.history: a ghost record, so that methods on services are proved but speak of old states.
- TimeChange.CompensateForSystemTimeChange: the jump is an `int` in the source, and the model does not truncate jumps of more than 68 years; it does not shift the timestamps of hosts other than next_check, nor those of the program and last_state_change (services: AdjustService).
- ServiceChecks.StateOrHardStateTypeChange: event ids, last_state_change and the start of flexible downtime are not modelled.
- HostChecks.StateOrHardStateTypeChange: event ids, last_state_change, the start of flexible downtime and the reset of the host's notification fields are not modelled.
- HostChecks.HandleAsyncHostCheckResult: flap detection and notifications of hosts are not modelled, so whether somebody was notified is an input.
- NotificationLog.RenotificationThrottle: deferrals (a timeperiod's next valid time, downtime with interval 0), changes of the clock and forced notifications are excluded between the two, because each of them sets another time on purpose.
- ServiceChecks.HandleAsyncServiceCheckResult: gives the notification history as a continuation of the old one (ServiceNotification states what is added); does not reschedule the check; does not repeat what flap detection records and decides (CheckForServiceFlapping states it).
- Notifications.ServiceNotification: the service's host always exists.
- HostState.HostHardAfterMaxAttempts: is about runs without results that count as hard; with them, HardAtOnce, HardInOneStateIff and HardAtLastAttemptIff say what holds.
- TimeChange.AdjustService: last_state_change is not shifted, because it is not modelled.
