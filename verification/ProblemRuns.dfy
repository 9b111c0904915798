/**
 Problem ids over runs of all services and hosts, which draw them from one counter: who has one,
 that no two share one, and that a problem keeps its own.
 */
module ProblemRuns {
  import opened ServiceState
  import HostState

  datatype System = System(services: seq<Core>, maxAttempts: seq<int>,
                           hosts: seq<HostState.HostCore>, hostMaxAttempts: seq<int>, nextProblemId: nat)

  /** Every service and every host has its maximum number of attempts. */
  predicate Shaped(s: System) {
    |s.services| == |s.maxAttempts| && |s.hosts| == |s.hostMaxAttempts|
  }

  datatype Step =
    | Result(service: nat, input: Input)
    | HostResult(host: nat, hostInput: HostState.HostInput)
    | AckCommand(service: nat, sticky: bool)
    | RemoveAckCommand(service: nat)

  function Handle(s: System, i: nat, r: Input): System
    requires Shaped(s) && i < |s.services|
  {
    s.(services := s.services[i := Next(s.services[i], s.maxAttempts[i], r, s.nextProblemId)],
       nextProblemId := s.nextProblemId + if TakesId(s.services[i], r) then 1 else 0)
  }

  function HandleHost(s: System, i: nat, r: HostState.HostInput): System
    requires Shaped(s) && i < |s.hosts|
  {
    s.(hosts := s.hosts[i := HostState.NextHost(s.hosts[i], s.hostMaxAttempts[i], r, s.nextProblemId)],
       nextProblemId := s.nextProblemId + if HostState.TakesHostId(s.hosts[i], r) then 1 else 0)
  }

  function Apply(s: System, step: Step): (t: System)
    requires Shaped(s)
    ensures Shaped(t) && |t.services| == |s.services| && |t.hosts| == |s.hosts|
  {
    match step
    case Result(i, r) => if i < |s.services| then Handle(s, i, r) else s
    case HostResult(i, r) => if i < |s.hosts| then HandleHost(s, i, r) else s
    case AckCommand(i, sticky) =>
      if i < |s.services| then s.(services := s.services[i := Acknowledge(s.services[i], sticky)]) else s
    case RemoveAckCommand(i) =>
      if i < |s.services| then s.(services := s.services[i := RemoveAcknowledgement(s.services[i])]) else s
  }

  function Run(s: System, steps: seq<Step>): (t: System)
    requires Shaped(s)
    ensures Shaped(t) && |t.services| == |s.services| && |t.hosts| == |s.hosts|
  {
    if steps == [] then s else Apply(Run(s, steps[..|steps| - 1]), steps[|steps| - 1])
  }

  /** The services keep to the state table's invariant, and only problems have ids, all of them below the counter. */
  ghost predicate ServicesOk(s: System)
    requires Shaped(s)
  {
    forall i :: 0 <= i < |s.services| ==>
      var c := s.services[i];
      Inv(c, s.maxAttempts[i]) && (c.problemId != 0 ==> c.state != STATE_OK) && c.problemId < s.nextProblemId
  }

  ghost predicate HostsOk(s: System)
    requires Shaped(s)
  {
    forall i :: 0 <= i < |s.hosts| ==>
      var c := s.hosts[i];
      HostState.HostInv(c, s.hostMaxAttempts[i]) && (c.problemId != 0 ==> c.state != HOST_UP) &&
        c.problemId < s.nextProblemId
  }

  /** No two problems, of services or hosts, share an id. */
  ghost predicate NoneShared(s: System) {
    && (forall i, j :: 0 <= i < j < |s.services| && s.services[i].problemId != 0 ==>
          s.services[i].problemId != s.services[j].problemId)
    && (forall i, j :: 0 <= i < j < |s.hosts| && s.hosts[i].problemId != 0 ==>
        s.hosts[i].problemId != s.hosts[j].problemId)
    && (forall i, j :: 0 <= i < |s.services| && 0 <= j < |s.hosts| && s.services[i].problemId != 0 ==>
          s.services[i].problemId != s.hosts[j].problemId)
  }

  ghost predicate SystemInv(s: System) {
    Shaped(s) && s.nextProblemId >= 1 && ServicesOk(s) && HostsOk(s) && NoneShared(s)
  }

  /** Services and hosts as their definitions leave them, some perhaps in a problem without an id. */
  function Start(states: seq<int>, maxAttempts: seq<int>, hostStates: seq<int>, hostMaxAttempts: seq<int>): System
    requires |states| == |maxAttempts| && |hostStates| == |hostMaxAttempts|
  {
    System(seq(|states|, i requires 0 <= i < |states| => Defined(states[i], maxAttempts[i])), maxAttempts,
           seq(|hostStates|, i requires 0 <= i < |hostStates| => HostState.Defined(hostStates[i], hostMaxAttempts[i])),
           hostMaxAttempts, 1)
  }

  lemma StartIsSound(states: seq<int>, maxAttempts: seq<int>, hostStates: seq<int>, hostMaxAttempts: seq<int>)
    requires |states| == |maxAttempts| && |hostStates| == |hostMaxAttempts|
    requires forall i :: 0 <= i < |maxAttempts| ==> maxAttempts[i] >= 1
    requires forall i :: 0 <= i < |hostMaxAttempts| ==> hostMaxAttempts[i] >= 1
    ensures SystemInv(Start(states, maxAttempts, hostStates, hostMaxAttempts))
  {
  }

  lemma StepKeepsSystemInv(s: System, step: Step)
    requires SystemInv(s)
    ensures SystemInv(Apply(s, step)) && s.nextProblemId <= Apply(s, step).nextProblemId
  {
    match step {
      case Result(i, r) =>
        if i < |s.services| {
          NextKeepsInv(s.services[i], s.maxAttempts[i], r, s.nextProblemId);
        }
      case HostResult(i, r) =>
        if i < |s.hosts| {
          HostState.NextHostKeepsInv(s.hosts[i], s.hostMaxAttempts[i], r, s.nextProblemId);
        }
      case AckCommand(_, _) =>
      case RemoveAckCommand(_) =>
    }
  }

  lemma {:induction false} RunKeepsSystemInv(s: System, steps: seq<Step>)
    requires SystemInv(s)
    ensures SystemInv(Run(s, steps)) && s.nextProblemId <= Run(s, steps).nextProblemId
  {
    if steps != [] {
      RunKeepsSystemInv(s, steps[..|steps| - 1]);
      StepKeepsSystemInv(Run(s, steps[..|steps| - 1]), steps[|steps| - 1]);
    }
  }

  /** Service i has been in a problem state from the start of the run to its end. */
  ghost predicate OneEpisode(s: System, steps: seq<Step>, i: nat)
    requires Shaped(s) && i < |s.services|
  {
    Run(s, steps).services[i].state != STATE_OK && (steps != [] ==> OneEpisode(s, steps[..|steps| - 1], i))
  }

  /** No service and no host of the system has the id. */
  ghost predicate Unused(s: System, id: nat) {
    && (forall i :: 0 <= i < |s.services| ==> s.services[i].problemId != id)
    && (forall i :: 0 <= i < |s.hosts| ==> s.hosts[i].problemId != id)
  }

  /** One step: a problem keeps its id, and a new one gets the next. */
  lemma StepAndId(s: System, step: Step, i: nat)
    requires Shaped(s) && i < |s.services| && Apply(s, step).services[i].state != STATE_OK
    ensures Apply(s, step).services[i].problemId ==
      if s.services[i].state == STATE_OK then s.nextProblemId else s.services[i].problemId
  {
  }

  /**
   A problem of a service keeps its id as long as it lasts; one that began during the run has an id
   that no service and no host had at its start.
   */
  lemma {:induction false} ProblemIdentity(s: System, steps: seq<Step>, i: nat)
    requires SystemInv(s) && i < |s.services|
    ensures OneEpisode(s, steps, i) ==> Run(s, steps).services[i].problemId == s.services[i].problemId
    ensures !OneEpisode(s, steps, i) && Run(s, steps).services[i].state != STATE_OK ==>
      Run(s, steps).services[i].problemId >= s.nextProblemId && Unused(s, Run(s, steps).services[i].problemId)
  {
    if steps != [] {
      var before := steps[..|steps| - 1];
      ProblemIdentity(s, before, i);
      RunKeepsSystemInv(s, before);
      if Run(s, steps).services[i].state != STATE_OK {
        StepAndId(Run(s, before), steps[|steps| - 1], i);
      }
    }
  }

  lemma StepAndHostId(s: System, step: Step, i: nat)
    requires Shaped(s) && i < |s.hosts|
    ensures Apply(s, step).hosts[i].problemId in {0, s.hosts[i].problemId, s.nextProblemId}
  {
  }

  /** A host's id is 0, or the one it had, or one that nobody had at the start of the run. */
  lemma {:induction false} HostIdsAreFresh(s: System, steps: seq<Step>, i: nat)
    requires SystemInv(s) && i < |s.hosts|
    ensures
      var id := Run(s, steps).hosts[i].problemId;
      id == 0 || id == s.hosts[i].problemId || (id >= s.nextProblemId && Unused(s, id))
  {
    if steps != [] {
      var before := steps[..|steps| - 1];
      HostIdsAreFresh(s, before, i);
      RunKeepsSystemInv(s, before);
      StepAndHostId(Run(s, before), steps[|steps| - 1], i);
    }
  }

  /** A run in two parts. */
  lemma {:induction false} RunOn(s: System, before: seq<Step>, after: seq<Step>)
    requires Shaped(s)
    ensures Run(s, before + after) == Run(Run(s, before), after)
  {
    if after == [] {
      assert before + after == before;
    } else {
      var steps := before + after;
      assert steps[..|steps| - 1] == before + after[..|after| - 1];
      RunOn(s, before, after[..|after| - 1]);
    }
  }

  /** The counter does not go back during a run, and ids at or above it are unused. */
  lemma {:induction false} UnusedSoFar(s: System, steps: seq<Step>, k: nat, id: nat)
    requires SystemInv(s) && k <= |steps| && id >= Run(s, steps).nextProblemId
    ensures Unused(Run(s, steps[..k]), id)
  {
    RunKeepsSystemInv(s, steps);
    if k == |steps| {
      assert steps[..k] == steps;
    } else {
      var before := steps[..|steps| - 1];
      assert before[..k] == steps[..k];
      RunKeepsSystemInv(s, before);
      StepKeepsSystemInv(Run(s, before), steps[|steps| - 1]);
      UnusedSoFar(s, before, k, id);
    }
  }

  /** So whenever, in a run, a service was OK, nobody had had the id of any later problem of it until then. */
  lemma IdsAreNeverReused(s: System, before: seq<Step>, after: seq<Step>, i: nat, k: nat)
    requires SystemInv(s) && i < |s.services| && k <= |before|
    requires Run(s, before).services[i].state == STATE_OK && Run(s, before + after).services[i].state != STATE_OK
    ensures Unused(Run(s, before[..k]), Run(s, before + after).services[i].problemId)
  {
    RunKeepsSystemInv(s, before);
    RunOn(s, before, after);
    NoEpisode(Run(s, before), after, i);
    ProblemIdentity(Run(s, before), after, i);
    UnusedSoFar(s, before, k, Run(s, before + after).services[i].problemId);
  }

  lemma {:induction false} NoEpisode(s: System, steps: seq<Step>, i: nat)
    requires Shaped(s) && i < |s.services| && s.services[i].state == STATE_OK
    ensures !OneEpisode(s, steps, i)
  {
    if steps != [] {
      NoEpisode(s, steps[..|steps| - 1], i);
    }
  }

  /**
   After any run a service has a problem id exactly if it has a problem, other than one it started with and
   without an id.
   */
  lemma ProblemIdIff(s: System, steps: seq<Step>, i: nat)
    requires SystemInv(s) && i < |s.services|
    ensures Run(s, steps).services[i].problemId != 0 <==>
      Run(s, steps).services[i].state != STATE_OK && !(s.services[i].problemId == 0 && OneEpisode(s, steps, i))
  {
    ProblemIdentity(s, steps, i);
    RunKeepsSystemInv(s, steps);
  }

  /** So a service whose definition makes it start in a problem has no id until it has once been OK. */
  lemma ProblemIdFromStart(states: seq<int>, maxAttempts: seq<int>, hostStates: seq<int>, hostMaxAttempts: seq<int>,
                           steps: seq<Step>, i: nat)
    requires |states| == |maxAttempts| && |hostStates| == |hostMaxAttempts| && i < |states|
    requires forall j :: 0 <= j < |maxAttempts| ==> maxAttempts[j] >= 1
    requires forall j :: 0 <= j < |hostMaxAttempts| ==> hostMaxAttempts[j] >= 1
    ensures
      var s := Start(states, maxAttempts, hostStates, hostMaxAttempts);
      Run(s, steps).services[i].problemId != 0 <==>
        Run(s, steps).services[i].state != STATE_OK && !OneEpisode(s, steps, i)
  {
    StartIsSound(states, maxAttempts, hostStates, hostMaxAttempts);
    ProblemIdIff(Start(states, maxAttempts, hostStates, hostMaxAttempts), steps, i);
  }

  /** An input where it happens: defined as critical, then a warning, and still no id drawn. */
  lemma ProblemWithoutId()
    ensures
      var t := Run(Start([2], [3], [], []), [Result(0, Input(1, true, true))]);
      t.services[0].state == 1 && t.services[0].problemId == 0 && t.nextProblemId == 1
  {
    var s, steps := Start([2], [3], [], []), [Result(0, Input(1, true, true))];
    assert steps[..0] == [] && Run(s, steps[..|steps| - 1]) == s;
  }
}
