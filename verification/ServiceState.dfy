/**
 What check results and acknowledgements do to the state of a service, as a table: the form in
 which the documentation explains soft and hard states.  ServiceChecks proves that the result
 handler computes this table; the lemmas here draw its consequences over whole runs.
 */
module ServiceState {
  import opened Wrappers

  datatype StateType = SOFT_STATE | HARD_STATE

  datatype AckType = ACKNOWLEDGEMENT_NONE | ACKNOWLEDGEMENT_NORMAL | ACKNOWLEDGEMENT_STICKY

  const STATE_OK := 0
  const HOST_UP := 0

  /** The state fields of a service; state STATE_OK is OK, every other number is a problem. */
  datatype Core = Core(
    state: int, kind: StateType, attempt: int, lastHard: int,
    hostProblem: bool, problemId: nat, acknowledged: bool, ack: AckType)

  /** What every result leaves true; m is the service's maximum number of attempts. */
  ghost predicate Inv(c: Core, m: int) {
    && 1 <= c.attempt <= m
    && (c.state == STATE_OK ==> c.kind == HARD_STATE && c.attempt == 1 && c.lastHard == STATE_OK)
    && (c.kind == HARD_STATE ==> c.lastHard == c.state)
    && (c.kind == SOFT_STATE ==> c.attempt < m)
    && (c.acknowledged ==> c.ack != ACKNOWLEDGEMENT_NONE)
    && (c.state == STATE_OK ==> c.ack == ACKNOWLEDGEMENT_NONE)
  }

  /** A check result as the state machine sees it: the new state, and the host at that time. */
  datatype Input = Input(state: int, hostUp: bool, hostChecked: bool)

  /** The host is down and the service is not yet hard in this state: it turns hard at once. */
  predicate ForcedHard(c: Core, r: Input) {
    !r.hostUp && c.lastHard != r.state
  }

  function NextAttempt(c: Core, m: int, r: Input): int {
    if r.state == STATE_OK || c.state == STATE_OK then 1
    else if ForcedHard(c, r) then m
    else if c.kind == HARD_STATE then c.attempt
    else if r.hostUp && c.hostProblem then 2
    else c.attempt + 1
  }

  function NextKind(c: Core, m: int, r: Input): StateType {
    if r.state == STATE_OK || ForcedHard(c, r) then HARD_STATE
    else if c.kind == HARD_STATE && c.state == r.state then HARD_STATE
    else if NextAttempt(c, m, r) >= m then HARD_STATE
    else SOFT_STATE
  }

  predicate Changed(c: Core, m: int, r: Input) {
    r.state != c.state || NextKind(c, m, r) != c.kind
  }

  /** A recovery counts as hard when the problem was hard, or is made hard on its way out. */
  predicate HardRecovery(c: Core, m: int, r: Input) {
    c.state != STATE_OK && r.state == STATE_OK &&
    (c.kind == HARD_STATE || (c.lastHard != STATE_OK && (!r.hostUp || c.attempt + 1 >= m)))
  }

  function NextHostProblem(c: Core, m: int, r: Input): bool {
    if r.state != STATE_OK then !r.hostUp
    else if HardRecovery(c, m, r) then false
    else if r.hostChecked && !r.hostUp then true
    else c.hostProblem
  }

  predicate LosesAck(c: Core, r: Input) {
    r.state != c.state && (c.ack == ACKNOWLEDGEMENT_NORMAL || r.state == STATE_OK)
  }

  /** One check result; freshId is the next unused problem id. */
  function Next(c: Core, m: int, r: Input, freshId: nat): Core {
    Core(
      r.state,
      NextKind(c, m, r),
      NextAttempt(c, m, r),
      if NextKind(c, m, r) == HARD_STATE then r.state else c.lastHard,
      NextHostProblem(c, m, r),
      if r.state == c.state then c.problemId
      else if r.state == STATE_OK then 0
      else if c.state == STATE_OK then freshId
      else c.problemId,
      c.acknowledged && !LosesAck(c, r),
      if LosesAck(c, r) then ACKNOWLEDGEMENT_NONE else c.ack)
  }

  /** The service changes and is hard then: every recovery is hard in the end. */
  predicate TurnsHard(c: Core, m: int, r: Input) {
    if r.state == STATE_OK then c.state != STATE_OK else Changed(c, m, r) && NextKind(c, m, r) == HARD_STATE
  }

  predicate TakesId(c: Core, r: Input) {
    c.state == STATE_OK && r.state != STATE_OK
  }

  /** Whether a result with this outcome asks for a problem notification. */
  predicate AsksToNotify(c: Core, m: int, r: Input, isVolatile: bool)
    requires r.state != STATE_OK
  {
    || (r.hostUp && c.state != STATE_OK && c.kind == HARD_STATE)
    || (NextKind(c, m, r) == HARD_STATE && (isVolatile || (!ForcedHard(c, r) && Changed(c, m, r))))
  }

  function Acknowledge(c: Core, sticky: bool): Core {
    if c.state == STATE_OK then c
    else c.(acknowledged := true, ack := if sticky then ACKNOWLEDGEMENT_STICKY else ACKNOWLEDGEMENT_NORMAL)
  }

  function RemoveAcknowledgement(c: Core): Core {
    c.(acknowledged := false)
  }

  // ---------- invariants of every result ----------

  lemma NextKeepsInv(c: Core, m: int, r: Input, freshId: nat)
    requires Inv(c, m)
    ensures Inv(Next(c, m, r, freshId), m)
  {
  }

  lemma AckRules(c: Core, m: int, r: Input, freshId: nat, sticky: bool)
    requires Inv(c, m)
    ensures Inv(Acknowledge(c, sticky), m) && Inv(RemoveAcknowledgement(c), m)
    // a sticky acknowledgement survives every result that is not a recovery
    ensures c.acknowledged && c.ack == ACKNOWLEDGEMENT_STICKY && r.state != STATE_OK ==>
      Next(c, m, r, freshId).acknowledged
    // a normal one survives exactly the results in the same state, promotion to hard included
    ensures c.acknowledged && c.ack == ACKNOWLEDGEMENT_NORMAL ==>
      (Next(c, m, r, freshId).acknowledged <==> r.state == c.state)
    // none survives a recovery
    ensures r.state == STATE_OK ==> !Next(c, m, r, freshId).acknowledged
    // the kind of acknowledgement is forgotten together with it, or remains
    ensures c.ack == ACKNOWLEDGEMENT_STICKY ==>
      Next(c, m, r, freshId).ack == if r.state == STATE_OK then ACKNOWLEDGEMENT_NONE else ACKNOWLEDGEMENT_STICKY
    ensures c.ack == ACKNOWLEDGEMENT_NORMAL ==>
      Next(c, m, r, freshId).ack == if r.state == c.state then ACKNOWLEDGEMENT_NORMAL else ACKNOWLEDGEMENT_NONE
  {
  }

  /** What an acknowledgement is good for: a sticky one until the recovery, another until the next change of state. */
  lemma AcknowledgedFor(c: Core, m: int, sticky: bool, r: Input, freshId: nat)
    requires Inv(c, m) && c.state != STATE_OK
    ensures Acknowledge(c, sticky).acknowledged && !RemoveAcknowledgement(Acknowledge(c, sticky)).acknowledged
    ensures Next(Acknowledge(c, sticky), m, r, freshId).acknowledged <==>
      if sticky then r.state != STATE_OK else r.state == c.state
  {
  }

  // ---------- hard after max_attempts consecutive problems ----------

  /** The number of problem results at the end of the run. */
  function Streak(results: seq<int>): nat {
    if results == [] || results[|results| - 1] == STATE_OK then 0 else 1 + Streak(results[..|results| - 1])
  }

  /** A service as its definition leaves it: an initial problem counts as hard, with all attempts used up. */
  function Defined(initialState: int, m: int): Core {
    Core(initialState, HARD_STATE, if initialState == STATE_OK then 1 else m, initialState, false, 0, false,
         ACKNOWLEDGEMENT_NONE)
  }

  /** A run of results, all handled while the host is up. */
  function UpRun(start: Core, m: int, results: seq<int>, ids: nat): Core {
    if results == [] then start
    else Next(UpRun(start, m, results[..|results| - 1], ids), m, Input(results[|results| - 1], true, true),
              ids + |results|)
  }

  /** The number of results from the first one on that differs from a state. */
  function SinceOther(state: int, results: seq<int>): nat {
    if results == [] then 0
    else
      var before := SinceOther(state, results[..|results| - 1]);
      if before > 0 || results[|results| - 1] != state then before + 1 else 0
  }

  /**
   The attempts that results bring a service to which is in a problem before them. A soft problem
   goes on counting, from 1 if the host was the problem; a hard one stands at its attempt, and counts
   on once a result differs from it.
   */
  function Tries(start: Core, results: seq<int>): int {
    if start.kind == SOFT_STATE then (if start.hostProblem then 1 else start.attempt) + |results|
    else if SinceOther(start.state, results) == 0 then start.attempt
    else start.attempt + SinceOther(start.state, results) - 1
  }

  /** All there is of the present problem lies in the results. */
  predicate BeganOk(start: Core, results: seq<int>) {
    start.state == STATE_OK || Streak(results) < |results|
  }

  /**
   After any run of results, once the service was OK, its state is the documented one: OK and hard
   after an OK result, soft with attempt k after k problems in a row while k < m, and hard in the
   latest state from m on. In a problem that was there before the run, the service is hard exactly
   when its attempts are used up, or it was hard and every result repeated its state.
   */
  lemma {:induction false} HardAfterMaxAttempts(start: Core, m: int, results: seq<int>, ids: nat)
    requires Inv(start, m)
    ensures Inv(UpRun(start, m, results, ids), m)
    ensures
      BeganOk(start, results) ==>
        var k, c := Streak(results), UpRun(start, m, results, ids);
        && (k == 0 ==> c.state == STATE_OK && c.kind == HARD_STATE && c.attempt == 1 && c.lastHard == STATE_OK)
        && (k > 0 ==> c.state == results[|results| - 1] != STATE_OK && !c.hostProblem)
        && (0 < k < m ==> c.kind == SOFT_STATE && c.attempt == k && c.lastHard == STATE_OK)
        && (k >= m ==> c.kind == HARD_STATE && c.attempt == m && c.lastHard == c.state)
    ensures
      !BeganOk(start, results) && results != [] ==>
        var t, c := Tries(start, results), UpRun(start, m, results, ids);
        && c.state == results[|results| - 1] != STATE_OK && !c.hostProblem
        && c.attempt == (if t < m then t else m)
        && (c.kind == HARD_STATE <==> t >= m || (start.kind == HARD_STATE && SinceOther(start.state, results) == 0))
        && c.lastHard == (if c.kind == HARD_STATE then c.state else start.lastHard)
  {
    if results != [] {
      var before := results[..|results| - 1];
      HardAfterMaxAttempts(start, m, before, ids);
      NextKeepsInv(UpRun(start, m, before, ids), m, Input(results[|results| - 1], true, true), ids + |results|);
    }
  }

  /** A problem that is hard keeps hard through every run of problems exactly if its attempts are used up. */
  lemma StaysHardIff(start: Core, m: int, ids: nat)
    requires Inv(start, m) && start.state != STATE_OK && start.kind == HARD_STATE
    ensures start.attempt == m <==>
      forall results: seq<int> :: Streak(results) == |results| ==> UpRun(start, m, results, ids).kind == HARD_STATE
  {
    forall results: seq<int> | start.attempt == m && Streak(results) == |results|
      ensures UpRun(start, m, results, ids).kind == HARD_STATE
    {
      HardAfterMaxAttempts(start, m, results, ids);
    }
    var other := if start.state == 1 then 2 else 1;
    assert [other][..0] == [] && Streak([]) == 0 && SinceOther(start.state, []) == 0;
    assert Streak([other]) == 1 && SinceOther(start.state, [other]) == 1;
    HardAfterMaxAttempts(start, m, [other], ids);
  }

  /**
   Such a problem with attempts left: a service turns critical while its host is down, which is hard at
   attempt 1, and a warning after the host has come up makes it soft.
   */
  lemma SoftAgain()
    ensures
      var hard := Next(Defined(STATE_OK, 3), 3, Input(2, false, true), 1);
      var soft := UpRun(hard, 3, [1], 2);
      && hard.state == 2 && hard.kind == HARD_STATE && hard.attempt == 1 && Inv(hard, 3)
      && soft.state == 1 && soft.kind == SOFT_STATE
  {
    var hard := Next(Defined(STATE_OK, 3), 3, Input(2, false, true), 1);
    assert [1][..0] == [] && UpRun(hard, 3, [], 2) == hard;
  }

  /** In such a run a service, volatile or not, asks for a notification exactly from the m-th problem on. */
  lemma NotifiesFromMaxAttempts(start: Core, m: int, results: seq<int>, isVolatile: bool, ids: nat)
    requires Inv(start, m) && results != [] && results[|results| - 1] != STATE_OK
    requires BeganOk(start, results)
    ensures
      AsksToNotify(UpRun(start, m, results[..|results| - 1], ids), m, Input(results[|results| - 1], true, true),
                   isVolatile) <==>
      Streak(results) >= m
  {
    HardAfterMaxAttempts(start, m, results[..|results| - 1], ids);
    HardAfterMaxAttempts(start, m, results, ids);
  }
  /** A hard change comes with the m-th problem in a row, with another state after that, and with every recovery. */
  lemma HardChanges(start: Core, m: int, results: seq<int>, ids: nat)
    requires Inv(start, m) && results != [] && BeganOk(start, results[..|results| - 1])
    ensures
      var before, last := UpRun(start, m, results[..|results| - 1], ids), results[|results| - 1];
      TurnsHard(before, m, Input(last, true, true)) <==>
        if last == STATE_OK then Streak(results[..|results| - 1]) > 0
        else Streak(results) == m || (Streak(results) > m && last != before.state)
  {
    HardAfterMaxAttempts(start, m, results[..|results| - 1], ids);
    HardAfterMaxAttempts(start, m, results, ids);
  }

  /** A recovery counts as hard exactly after m problems in a row. */
  lemma HardRecoveryFromMaxAttempts(start: Core, m: int, problems: seq<int>, ids: nat)
    requires Inv(start, m) && BeganOk(start, problems)
    ensures HardRecovery(UpRun(start, m, problems, ids), m, Input(STATE_OK, true, true)) <==> Streak(problems) >= m
  {
    HardAfterMaxAttempts(start, m, problems, ids);
  }

  /**
   From a problem that was there before the run: if it is hard by then, or was last hard in a problem and
   has one attempt left at most.
   */
  lemma HardRecoveryFromProblem(start: Core, m: int, problems: seq<int>, ids: nat)
    requires Inv(start, m) && !BeganOk(start, problems) && problems != []
    ensures HardRecovery(UpRun(start, m, problems, ids), m, Input(STATE_OK, true, true)) <==>
      || Tries(start, problems) >= m || (start.kind == HARD_STATE && SinceOther(start.state, problems) == 0)
      || (start.lastHard != STATE_OK && Tries(start, problems) == m - 1)
  {
    HardAfterMaxAttempts(start, m, problems, ids);
  }

  // ---------- hosts that are not up ----------

  /** A run of results, the host in any state at each of them. */
  function AnyRun(start: Core, m: int, inputs: seq<Input>, ids: nat): Core {
    if inputs == [] then start
    else Next(AnyRun(start, m, inputs[..|inputs| - 1], ids), m, inputs[|inputs| - 1], ids + |inputs|)
  }

  lemma {:induction false} AnyRunKeepsInv(start: Core, m: int, inputs: seq<Input>, ids: nat)
    requires Inv(start, m)
    ensures Inv(AnyRun(start, m, inputs, ids), m)
  {
    if inputs != [] {
      AnyRunKeepsInv(start, m, inputs[..|inputs| - 1], ids);
      NextKeepsInv(AnyRun(start, m, inputs[..|inputs| - 1], ids), m, inputs[|inputs| - 1], ids + |inputs|);
    }
  }

  /**
   A problem that a host which is not up finds in another state than the last hard one is hard with
   all attempts used up, and stays so through every run of problems, whatever becomes of the host.
   */
  lemma {:induction false} HostDownUsesUpAttempts(start: Core, m: int, inputs: seq<Input>, ids: nat)
    requires Inv(start, m) && start.state != STATE_OK && inputs != []
    requires forall i | 0 <= i < |inputs| :: inputs[i].state != STATE_OK
    requires !inputs[0].hostUp && inputs[0].state != start.lastHard
    ensures
      var c := AnyRun(start, m, inputs, ids);
      c.state == c.lastHard == inputs[|inputs| - 1].state && c.kind == HARD_STATE && c.attempt == m
  {
    if |inputs| == 1 {
      assert inputs[..0] == [];
    } else {
      HostDownUsesUpAttempts(start, m, inputs[..|inputs| - 1], ids);
    }
  }

  function States(inputs: seq<Input>): (states: seq<int>)
    ensures |states| == |inputs|
  {
    if inputs == [] then [] else States(inputs[..|inputs| - 1]) + [inputs[|inputs| - 1].state]
  }

  predicate NeverUp(inputs: seq<Input>) {
    forall i | 0 <= i < |inputs| :: !inputs[i].hostUp
  }

  /** The state before the last result. */
  function StateBefore(state: int, states: seq<int>): int {
    if |states| < 2 then state else states[|states| - 2]
  }

  /** The present problem has shown itself in more than one state. */
  predicate Switched(state: int, states: seq<int>) {
    states != [] && states[|states| - 1] != STATE_OK && StateBefore(state, states) != STATE_OK &&
    (states[|states| - 1] != StateBefore(state, states) || Switched(state, states[..|states| - 1]))
  }

  /**
   While the host is not up, every problem is hard: at attempt 1, or the one the run began with, as
   long as the state stays the same, and with all attempts used up from the first other state on.
   */
  lemma {:induction false} HardWhileHostIsDown(start: Core, m: int, inputs: seq<Input>, ids: nat)
    requires Inv(start, m) && start.kind == HARD_STATE && NeverUp(inputs) && inputs != []
    ensures
      var c, states := AnyRun(start, m, inputs, ids), States(inputs);
      && c.state == inputs[|inputs| - 1].state == states[|inputs| - 1] && c.kind == HARD_STATE && c.lastHard == c.state
      && (c.state != STATE_OK ==> c.hostProblem)
      && c.attempt ==
        if c.state == STATE_OK then 1
        else if Switched(start.state, states) then m
        else if BeganOk(start, states) then 1
        else start.attempt
  {
    var before, states := inputs[..|inputs| - 1], States(inputs);
    assert states[..|inputs| - 1] == States(before);
    if before == [] {
      assert Switched(start.state, states) <==>
        states[0] != STATE_OK && start.state != STATE_OK && states[0] != start.state;
      assert Streak(states[..0]) == 0;
    } else {
      HardWhileHostIsDown(start, m, before, ids);
      var c := AnyRun(start, m, before, ids);
      assert StateBefore(start.state, states) == c.state;
      var last := states[|inputs| - 1];
      assert Switched(start.state, states) <==>
        last != STATE_OK && c.state != STATE_OK && (last != c.state || Switched(start.state, States(before)));
      assert Streak(states) == if last == STATE_OK then 0 else 1 + Streak(States(before));
      assert c.state == STATE_OK <==> Streak(States(before)) == 0;
    }
  }

  /** Meanwhile only volatile services ask for notifications, and they do so at every problem. */
  lemma NothingAskedWhileHostIsDown(start: Core, m: int, inputs: seq<Input>, isVolatile: bool, ids: nat)
    requires Inv(start, m) && start.kind == HARD_STATE && NeverUp(inputs)
    requires inputs != [] && inputs[|inputs| - 1].state != STATE_OK
    ensures
      AsksToNotify(AnyRun(start, m, inputs[..|inputs| - 1], ids), m, inputs[|inputs| - 1], isVolatile) <==> isVolatile
  {
    if |inputs| > 1 {
      HardWhileHostIsDown(start, m, inputs[..|inputs| - 1], ids);
    }
    AnyRunKeepsInv(start, m, inputs[..|inputs| - 1], ids);
  }

  /** Whether the host was the problem: at a problem, whether it is not up now. */
  lemma HostProblemAtProblem(start: Core, m: int, inputs: seq<Input>, ids: nat)
    requires inputs != [] && inputs[|inputs| - 1].state != STATE_OK
    ensures AnyRun(start, m, inputs, ids).hostProblem <==> !inputs[|inputs| - 1].hostUp
  {
  }

  /** While the service is OK: whether it was before, or a host once checked was not up at some result since. */
  lemma {:induction false} HostProblemWhileOk(start: Core, m: int, inputs: seq<Input>, ids: nat)
    requires start.state == STATE_OK && forall i | 0 <= i < |inputs| :: inputs[i].state == STATE_OK
    ensures AnyRun(start, m, inputs, ids).hostProblem <==>
      start.hostProblem || exists i | 0 <= i < |inputs| :: inputs[i].hostChecked && !inputs[i].hostUp
  {
    if inputs != [] {
      var last := |inputs| - 1;
      HostProblemWhileOk(start, m, inputs[..last], ids);
      StateOfRun(start, m, inputs[..last], ids);
      assert forall i | 0 <= i < last :: inputs[..last][i] == inputs[i];
    }
  }

  lemma StateOfRun(start: Core, m: int, inputs: seq<Input>, ids: nat)
    ensures AnyRun(start, m, inputs, ids).state == if inputs == [] then start.state else inputs[|inputs| - 1].state
  {
  }

  /** A hard recovery settles the matter; any other leaves it, or adds to it if a host once checked is not up. */
  lemma HostProblemAtRecovery(c: Core, m: int, r: Input, freshId: nat)
    requires Inv(c, m) && c.state != STATE_OK && r.state == STATE_OK
    ensures Next(c, m, r, freshId).hostProblem <==>
      && c.kind == SOFT_STATE && !(c.lastHard != STATE_OK && (!r.hostUp || m <= c.attempt + 1))
      && (c.hostProblem || (r.hostChecked && !r.hostUp))
  {
  }
}
