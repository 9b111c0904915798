/**
 What check results do to the state of a host, as a table (HostChecks proves that the handler
 computes it), and how far the rules of services hold for hosts.
 */
module HostState {
  import opened ServiceState

  const HOST_DOWN := 1
  const HOST_UNREACHABLE := 2

  datatype HostCore = HostCore(
    state: int, kind: StateType, attempt: int, lastHard: int, problemId: nat, acknowledged: bool, ack: AckType)

  ghost predicate HostInv(c: HostCore, m: int) {
    1 <= c.attempt <= m && (c.state == HOST_UP ==> c.attempt == 1)
  }

  /** A result: the state after translation, and whether it is a passive one that counts as hard. */
  datatype HostInput = HostInput(state: int, countsAsHard: bool)

  predicate Imposed(c: HostCore, r: HostInput) {
    r.countsAsHard && r.state != c.state
  }

  /** The attempt as the results count it, passive ones not yet considered. */
  function CountedAttempt(c: HostCore, m: int, r: HostInput): int {
    if r.state == HOST_UP || c.state == HOST_UP then 1
    else if c.kind == HARD_STATE then c.attempt
    else if c.attempt < m then c.attempt + 1
    else if r.state != c.state then 1
    else c.attempt
  }

  predicate TurnsHard(c: HostCore, m: int, r: HostInput) {
    || Imposed(c, r)
    || (CountedAttempt(c, m, r) >= m && r.state != c.lastHard)
    || (r.state == HOST_UP && c.state != HOST_UP && c.kind == HARD_STATE)
  }

  function NextHost(c: HostCore, m: int, r: HostInput, freshId: nat): HostCore {
    var change := r.state != c.state;
    var loses :=
      (c.ack == ACKNOWLEDGEMENT_NORMAL && change) ||
      (c.ack == ACKNOWLEDGEMENT_STICKY && r.state == HOST_UP && (change || TurnsHard(c, m, r)));
    HostCore(
      r.state,
      if TurnsHard(c, m, r) then HARD_STATE
      else if change then SOFT_STATE
      else if r.state == HOST_UP || r.countsAsHard then HARD_STATE
      else c.kind,
      if Imposed(c, r) then 1 else CountedAttempt(c, m, r),
      if TurnsHard(c, m, r) then r.state else c.lastHard,
      if !change then c.problemId else if c.state == HOST_UP then freshId else 0,
      c.acknowledged && !loses,
      if loses then ACKNOWLEDGEMENT_NONE else c.ack)
  }

  predicate TakesHostId(c: HostCore, r: HostInput) {
    c.state == HOST_UP && r.state != HOST_UP
  }

  predicate AsksToNotifyHost(c: HostCore, m: int, r: HostInput) {
    TurnsHard(c, m, r) || (c.state != HOST_UP && r.state != HOST_UP && c.kind == HARD_STATE)
  }

  lemma NextHostKeepsInv(c: HostCore, m: int, r: HostInput, freshId: nat)
    requires HostInv(c, m)
    ensures HostInv(NextHost(c, m, r, freshId), m)
  {
  }

  // ---------- runs ----------

  /** A host as its definition leaves it: an initial problem counts as hard, with all attempts used up. */
  function Defined(initialState: int, m: int): HostCore {
    HostCore(initialState, HARD_STATE, if initialState == HOST_UP then 1 else m, initialState, 0, false,
             ACKNOWLEDGEMENT_NONE)
  }

  function HostRun(start: HostCore, m: int, results: seq<HostInput>, ids: nat): HostCore {
    if results == [] then start
    else NextHost(HostRun(start, m, results[..|results| - 1], ids), m, results[|results| - 1], ids + |results|)
  }

  function StateAfter(start: HostCore, results: seq<HostInput>): int {
    if results == [] then start.state else results[|results| - 1].state
  }

  /** The number of problem results at the end of the run. */
  function HostStreak(results: seq<HostInput>): nat {
    if results == [] || results[|results| - 1].state == HOST_UP then 0 else 1 + HostStreak(results[..|results| - 1])
  }

  ghost predicate NoneCountsAsHard(results: seq<HostInput>) {
    results != [] ==> NoneCountsAsHard(results[..|results| - 1]) && !results[|results| - 1].countsAsHard
  }

  ghost predicate AllCountAsHard(results: seq<HostInput>) {
    results != [] ==> AllCountAsHard(results[..|results| - 1]) && results[|results| - 1].countsAsHard
  }

  /** Where a host stands that got hard by its attempts alone. */
  ghost predicate Orderly(c: HostCore, m: int) {
    && HostInv(c, m)
    && (c.state == HOST_UP ==> c.lastHard == HOST_UP)
    && (c.state != HOST_UP && c.kind == HARD_STATE ==> c.lastHard == c.state && c.attempt == m)
    && (c.state != HOST_UP && c.kind == SOFT_STATE ==> c.lastHard == HOST_UP && c.attempt < m)
  }

  /** The problem results at the end of the run are all there is of their problem. */
  predicate BeganUp(start: HostCore, results: seq<HostInput>) {
    start.state == HOST_UP || HostStreak(results) < |results|
  }

  /**
   With active results, and passive ones that count as soft, a host turns hard after m problems in
   a row as a service does; only a soft recovery stays soft until the next result. Hard in
   a problem, with all attempts used up as here, a host stays hard until it recovers.
   */
  lemma {:induction false} HostHardAfterMaxAttempts(start: HostCore, m: int, results: seq<HostInput>, ids: nat)
    requires Orderly(start, m) && NoneCountsAsHard(results)
    ensures Orderly(HostRun(start, m, results, ids), m) &&
      HostRun(start, m, results, ids).state == StateAfter(start, results)
    ensures
      BeganUp(start, results) ==>
        var k, c := HostStreak(results), HostRun(start, m, results, ids);
        && (0 < k < m ==> c.kind == SOFT_STATE && c.attempt == k)
        && (k >= m ==> c.kind == HARD_STATE)
    ensures
      results != [] && HostStreak(results) == 0 && BeganUp(start, results[..|results| - 1]) ==>
        (HostRun(start, m, results, ids).kind == SOFT_STATE <==> 0 < HostStreak(results[..|results| - 1]) < m)
    ensures
      start.state != HOST_UP && start.kind == HARD_STATE &&
        (results == [] || HostStreak(results[..|results| - 1]) == |results| - 1) ==>
        HostRun(start, m, results, ids).kind == HARD_STATE
  {
    if results != [] {
      HostHardAfterMaxAttempts(start, m, results[..|results| - 1], ids);
    }
  }

  /**
   In such a run a host asks for a notification exactly from the m-th problem in a row on, and for
   a recovery from that many.
   */
  lemma HostNotifiesFromMaxAttempts(start: HostCore, m: int, results: seq<HostInput>, ids: nat)
    requires Orderly(start, m) && NoneCountsAsHard(results) && results != [] && BeganUp(start, results[..|results| - 1])
    ensures
      var before := results[..|results| - 1];
      AsksToNotifyHost(HostRun(start, m, before, ids), m, results[|results| - 1]) <==>
        if results[|results| - 1].state == HOST_UP then HostStreak(before) >= m else HostStreak(results) >= m
  {
    HostHardAfterMaxAttempts(start, m, results[..|results| - 1], ids);
    HostHardAfterMaxAttempts(start, m, results, ids);
  }

  /** When all results count as hard, every change is notified, and every problem that goes on. */
  lemma HostNotifiesAtOnce(start: HostCore, m: int, results: seq<HostInput>, ids: nat)
    requires HostInv(start, m) && start.kind == HARD_STATE && start.lastHard == start.state
    requires AllCountAsHard(results) && results != []
    ensures
      var before, last := HostRun(start, m, results[..|results| - 1], ids), results[|results| - 1];
      AsksToNotifyHost(before, m, last) <==> last.state != before.state || last.state != HOST_UP
  {
    HardAtOnce(start, m, results[..|results| - 1], ids);
  }

  /** A sticky acknowledgement lasts until the host is up, another until the state changes. */
  lemma HostAckRules(c: HostCore, m: int, r: HostInput, freshId: nat)
    requires HostInv(c, m) && c.state != HOST_UP
    ensures c.ack == ACKNOWLEDGEMENT_STICKY ==>
      (NextHost(c, m, r, freshId).acknowledged <==> c.acknowledged && r.state != HOST_UP)
    ensures c.ack == ACKNOWLEDGEMENT_NORMAL ==>
      (NextHost(c, m, r, freshId).acknowledged <==> c.acknowledged && r.state == c.state)
    ensures NextHost(c, m, r, freshId).ack ==
      if (c.ack == ACKNOWLEDGEMENT_STICKY && r.state == HOST_UP) ||
         (c.ack == ACKNOWLEDGEMENT_NORMAL && r.state != c.state)
      then ACKNOWLEDGEMENT_NONE else c.ack
  {
  }

  /** When all results count as hard, every change is hard at once. */
  lemma {:induction false} HardAtOnce(start: HostCore, m: int, results: seq<HostInput>, ids: nat)
    requires HostInv(start, m) && start.kind == HARD_STATE && start.lastHard == start.state && AllCountAsHard(results)
    ensures
      var c := HostRun(start, m, results, ids);
      && HostInv(c, m) && c.kind == HARD_STATE && c.state == c.lastHard == StateAfter(start, results)
      && (c.state != start.state ==> c.attempt == 1)
  {
    if results != [] {
      HardAtOnce(start, m, results[..|results| - 1], ids);
    }
  }

  /** The host reports the state that its present problem began with, or the run did. */
  ghost predicate SameProblem(start: HostCore, results: seq<HostInput>) {
    results == [] ||
    var before := results[..|results| - 1];
    StateAfter(start, before) == HOST_UP ||
    (StateAfter(start, before) == results[|results| - 1].state && SameProblem(start, before))
  }

  /** The present problem began during the run. */
  ghost predicate Began(start: HostCore, results: seq<HostInput>) {
    results != [] && results[|results| - 1].state != HOST_UP &&
    var before := results[..|results| - 1];
    StateAfter(start, before) == HOST_UP || Began(start, before)
  }

  /**
   When a host has a problem id: a service that got one has it throughout a problem, a host loses
   it at the first switch between problem states and has none until the next problem.
   */
  lemma {:induction false} HostProblemIdIff(start: HostCore, m: int, results: seq<HostInput>, ids: nat)
    requires ids >= 1 && (start.state == HOST_UP ==> start.problemId == 0)
    ensures HostRun(start, m, results, ids).state == StateAfter(start, results)
    ensures HostRun(start, m, results, ids).problemId != 0 <==>
      StateAfter(start, results) != HOST_UP && SameProblem(start, results) &&
        (Began(start, results) || start.problemId != 0)
  {
    if results != [] {
      HostProblemIdIff(start, m, results[..|results| - 1], ids);
    }
  }

  /** So the rule of services fails for hosts: down, then unreachable, and the problem has no id. */
  lemma HostProblemWithoutId(m: int, ids: nat)
    requires ids >= 1
    ensures
      var c := HostRun(Defined(HOST_UP, m), m, [HostInput(HOST_DOWN, false), HostInput(HOST_UNREACHABLE, false)], ids);
      c.state != HOST_UP && c.problemId == 0
  {
    var results := [HostInput(HOST_DOWN, false), HostInput(HOST_UNREACHABLE, false)];
    HostProblemIdIff(Defined(HOST_UP, m), m, results, ids);
    assert results[..1] == [HostInput(HOST_DOWN, false)];
    assert !SameProblem(Defined(HOST_UP, m), results);
  }

  /**
   When the last attempt is used up, a host in a problem is hard unless it comes back, softly, to
   the state it was last hard in.
   */
  lemma HardAtLastAttemptIff(c: HostCore, m: int, r: HostInput, freshId: nat)
    requires HostInv(c, m) && r.state != HOST_UP && !r.countsAsHard && NextHost(c, m, r, freshId).attempt >= m
    ensures NextHost(c, m, r, freshId).kind == HARD_STATE <==>
      r.state != c.lastHard || (c.kind == HARD_STATE && c.state == r.state)
  {
  }

  function Repeat(r: HostInput, n: nat): (rs: seq<HostInput>)
    ensures |rs| == n
  {
    if n == 0 then [] else Repeat(r, n - 1) + [r]
  }

  /** The first one of n equal results comes after a run, the others after longer ones. */
  lemma OneMoreResult(start: HostCore, m: int, before: seq<HostInput>, r: HostInput, n: nat, ids: nat)
    requires n >= 1
    ensures HostRun(start, m, before + Repeat(r, n), ids) ==
      NextHost(HostRun(start, m, before + Repeat(r, n - 1), ids), m, r, ids + |before| + n)
    ensures before + Repeat(r, 0) == before
  {
    var run := before + Repeat(r, n);
    assert run[..|run| - 1] == before + Repeat(r, n - 1);
  }

  /** What n results in one problem state make of a host. */
  lemma {:induction false} InOneState(start: HostCore, m: int, before: seq<HostInput>, x: int, n: nat, ids: nat)
    requires HostInv(start, m) && x != HOST_UP && n >= 1
    ensures
      var c, d := HostRun(start, m, before, ids), HostRun(start, m, before + Repeat(HostInput(x, false), n), ids);
      && HostInv(c, m) && HostInv(d, m) && d.state == x
      && (c.lastHard != x && d.kind == HARD_STATE && !(c.kind == HARD_STATE && c.state == x) ==> d.lastHard == x)
      && (c.lastHard != x && d.kind == SOFT_STATE ==> d.lastHard == c.lastHard && n <= d.attempt < m)
      && (c.lastHard == x && !(c.kind == HARD_STATE && c.state == x) ==> d.kind == SOFT_STATE && d.lastHard == x)
      && (c.kind == HARD_STATE && c.state == x ==> d.kind == HARD_STATE)
  {
    RunKeepsHostInv(start, m, before, ids);
    RunKeepsHostInv(start, m, before + Repeat(HostInput(x, false), n), ids);
    OneMoreResult(start, m, before, HostInput(x, false), n, ids);
    if n > 1 {
      InOneState(start, m, before, x, n - 1, ids);
    }
  }

  lemma {:induction false} RunKeepsHostInv(start: HostCore, m: int, results: seq<HostInput>, ids: nat)
    requires HostInv(start, m)
    ensures HostInv(HostRun(start, m, results, ids), m)
  {
    if results != [] {
      RunKeepsHostInv(start, m, results[..|results| - 1], ids);
    }
  }

  /**
   After any run whatsoever, active or passive, m or more results in one problem state leave a host
   hard exactly if that is not the state it was last hard in, or it was hard in it at the time.
   */
  lemma HardInOneStateIff(start: HostCore, m: int, before: seq<HostInput>, x: int, n: nat, ids: nat)
    requires HostInv(start, m) && x != HOST_UP && n >= m
    ensures
      var c := HostRun(start, m, before, ids);
      HostRun(start, m, before + Repeat(HostInput(x, false), n), ids).kind == HARD_STATE <==>
      c.lastHard != x || (c.kind == HARD_STATE && c.state == x)
  {
    RunKeepsHostInv(start, m, before, ids);
    InOneState(start, m, before, x, n, ids);
  }

  /**
   Such a host exists: a passive result that counts as hard, two active ones in another state, and
   active results in the first state again leave it soft at its last attempt for ever.
   */
  lemma {:induction false} SoftForEver(ids: nat, n: nat)
    requires n >= 1
    ensures
      var prelude := [HostInput(HOST_DOWN, true), HostInput(HOST_UNREACHABLE, false),
                      HostInput(HOST_UNREACHABLE, false)];
      var c := HostRun(Defined(HOST_UP, 3), 3, prelude + Repeat(HostInput(HOST_DOWN, false), n), ids);
      c.state == HOST_DOWN && c.kind == SOFT_STATE && c.attempt == 3 && c.lastHard == HOST_DOWN
  {
    var prelude := [HostInput(HOST_DOWN, true), HostInput(HOST_UNREACHABLE, false), HostInput(HOST_UNREACHABLE, false)];
    var up := Defined(HOST_UP, 3);
    var down := HostInput(HOST_DOWN, false);
    var run := prelude + Repeat(down, n);
    assert run[..|run| - 1] == prelude + Repeat(down, n - 1);
    if n == 1 {
      assert prelude + Repeat(down, 0) == prelude;
      assert prelude[..2] == [prelude[0], prelude[1]] && prelude[..2][..1] == [prelude[0]] &&
        prelude[..2][..1][..0] == [];
      assert [prelude[0]][..0] == [] && HostRun(up, 3, [], ids) == up;
      var c1 := HostRun(up, 3, [prelude[0]], ids);
      assert c1 == NextHost(up, 3, prelude[0], ids + 1);
      assert c1.state == HOST_DOWN && c1.kind == HARD_STATE && c1.attempt == 1 && c1.lastHard == HOST_DOWN;
      var c2 := HostRun(up, 3, prelude[..2], ids);
      assert c2.kind == SOFT_STATE && c2.attempt == 1;
      var c3 := HostRun(up, 3, prelude, ids);
      assert c3.kind == SOFT_STATE && c3.attempt == 2;
    } else {
      SoftForEver(ids, n - 1);
    }
  }
  /**
   Nor does a recovery help, if it is soft: the same host, up again and hard, goes down softly for ever,
   because the state it was last hard in is still DOWN.
   */
  lemma SoftAcrossRecovery(ids: nat, n: nat)
    requires n >= 3
    ensures
      var up := HostInput(HOST_UP, false);
      var before := [HostInput(HOST_DOWN, true), HostInput(HOST_UNREACHABLE, false), up, up];
      var c := HostRun(Defined(HOST_UP, 3), 3, before, ids);
      && c.state == HOST_UP && c.kind == HARD_STATE
      && HostRun(Defined(HOST_UP, 3), 3, before + Repeat(HostInput(HOST_DOWN, false), n), ids).kind == SOFT_STATE
  {
    var up := HostInput(HOST_UP, false);
    var before := [HostInput(HOST_DOWN, true), HostInput(HOST_UNREACHABLE, false), up, up];
    var start := Defined(HOST_UP, 3);
    assert before[..3][..2] == before[..2] && before[..2][..1] == before[..1] && before[..1][..0] == [];
    assert HostRun(start, 3, before[..1], ids) == NextHost(start, 3, before[0], ids + 1);
    var c2 := HostRun(start, 3, before[..2], ids);
    assert c2.kind == SOFT_STATE && c2.lastHard == HOST_DOWN && c2.attempt == 1;
    var c3 := HostRun(start, 3, before[..3], ids);
    assert c3.kind == SOFT_STATE && c3.state == HOST_UP && c3.lastHard == HOST_DOWN;
    HardInOneStateIff(start, 3, before, HOST_DOWN, n, ids);
  }
}
