/**
 Evaluation of host and service dependencies (base/checks.c).  The host and the service version
 follow the same rules, so both are the one method below.
 */
module Dependencies {
  import opened Wrappers
  import opened Graph
  import CircularCheck
  import ServiceState

  /** The part of a host or service that a dependency on it looks at. */
  datatype Master = Master(stateType: ServiceState.StateType, currentState: int, lastHardState: int)

  /** period is None when the dependency has no timeperiod; failureOptions holds the failing states. */
  datatype Dependency = Dependency(master: Option<nat>, inheritsParent: bool, failureOptions: set<int>,
                                   period: Option<nat>)

  datatype Result = DEPENDENCIES_OK | DEPENDENCIES_FAILED

  /** One evaluation: the dependency lists of one type, the objects, and the timeperiods valid now. */
  datatype Evaluation = Evaluation(deps: seq<seq<Dependency>>, objects: seq<Master>, softStateDependencies: bool,
                                   validNow: set<nat>)
  {
    /** The link graph that the pre-flight check searched. */
    function Masters(): (g: Links)
      ensures |g| == |deps|
      ensures forall n, i :: 0 <= n < |deps| && 0 <= i < |deps[n]| ==>
        |g[n]| == |deps[n]| && g[n][i] == deps[n][i].master
      ensures forall n :: 0 <= n < |deps| ==> |g[n]| == |deps[n]|
    {
      seq(|deps|, n requires 0 <= n < |deps| => seq(|deps[n]|, i requires 0 <= i < |deps[n]| => deps[n][i].master))
    }

    ghost predicate Valid() {
      |objects| == |deps| && WellFormed(Masters())
    }

    /** The state a dependency goes by: the last hard state while the object is in a soft one. */
    function EffectiveState(m: Master): int {
      if m.stateType.SOFT_STATE? && !softStateDependencies then m.lastHardState else m.currentState
    }

    predicate OutOfPeriod(d: Dependency) {
      d.master.Some? && d.period.Some? && d.period.value !in validNow
    }

    /** Entry i of n's list counts: its master exists and no entry up to it is out of its period. */
    predicate Counts(n: nat, i: nat)
      requires n < |deps|
    {
      i < |deps[n]| && deps[n][i].master.Some? && forall j :: 0 <= j <= i ==> !OutOfPeriod(deps[n][j])
    }

    /**
     The dependencies at the places chain, each one on the master of the one before it: all count,
     all but the last inherit the dependencies of their master, and the last one fails.
     */
    ghost predicate FailingChain(n: nat, chain: seq<nat>)
      requires Valid() && n < |deps|
      decreases |chain|
    {
      && |chain| > 0 && Counts(n, chain[0])
      && var d := deps[n][chain[0]];
      assert Masters()[n][chain[0]].Some?;
      if |chain| == 1 then
        EffectiveState(objects[d.master.value]) in d.failureOptions
      else
        d.inheritsParent && FailingChain(d.master.value, chain[1..])
    }

    ghost predicate Fails(n: nat)
      requires Valid() && n < |deps|
    {
      exists chain :: FailingChain(n, chain)
    }

    /**
     Entry i of n's list has a master, neither it nor an entry with a master before it is out of its
     period, and either the master is in a failing state, where its last hard state counts as long as it
     is in a soft one and soft states do not, or the entry passes on a failure of the master.
     */
    ghost predicate FailsAt(n: nat, i: nat)
      requires Valid() && n < |deps|
    {
      && i < |deps[n]| && deps[n][i].master.Some? && deps[n][i].master.value < |objects|
      && (forall j | 0 <= j <= i :: deps[n][j].master.Some? && deps[n][j].period.Some? ==>
            deps[n][j].period.value in validNow)
      && var d, m := deps[n][i], objects[deps[n][i].master.value];
      || (m.stateType.SOFT_STATE? && !softStateDependencies && m.lastHardState in d.failureOptions)
      || ((m.stateType.HARD_STATE? || softStateDependencies) && m.currentState in d.failureOptions)
      || (d.inheritsParent && Fails(d.master.value))
    }

    /** Over an acyclic graph this recursion has one solution, which is the one that failing chains give. */
    lemma FailsIff(n: nat)
      requires Valid() && n < |deps|
      ensures Fails(n) <==> exists i :: FailsAt(n, i)
    {
      if Fails(n) {
        var chain :| FailingChain(n, chain);
        ChainThrough(n, chain[0]);
        assert FailsAt(n, chain[0]);
      }
      if i :| FailsAt(n, i) {
        assert Counts(n, i);
        ChainThrough(n, i);
      }
    }

    /** A failing chain through entry i exists when the entry itself fails or passes a failure on. */
    lemma ChainThrough(n: nat, i: nat)
      requires Valid() && n < |deps| && Counts(n, i)
      ensures
        var m := deps[n][i].master.value;
        m < |deps| &&
        ((exists chain :: FailingChain(n, chain) && chain[0] == i) <==>
         EffectiveState(objects[m]) in deps[n][i].failureOptions || (deps[n][i].inheritsParent && Fails(m)))
    {
      var d := deps[n][i];
      assert Masters()[n][i] == d.master;
      if chain :| FailingChain(n, chain) && chain[0] == i {
        if |chain| > 1 {
          assert FailingChain(d.master.value, chain[1..]);
        }
      }
      if EffectiveState(objects[d.master.value]) in d.failureOptions {
        assert FailingChain(n, [i]);
      }
      if d.inheritsParent && Fails(d.master.value) {
        var rest :| FailingChain(d.master.value, rest);
        assert ([i] + rest)[1..] == rest;
        assert FailingChain(n, [i] + rest);
      }
    }
  }

  /** Evaluations in which every object has the same state in force have the same failing chains. */
  lemma {:induction false} SameChains(a: Evaluation, b: Evaluation, n: nat, chain: seq<nat>)
    requires a.Valid() && b.Valid() && a.deps == b.deps && a.validNow == b.validNow && n < |a.deps|
    requires forall k :: 0 <= k < |a.objects| ==> a.EffectiveState(a.objects[k]) == b.EffectiveState(b.objects[k])
    requires a.FailingChain(n, chain)
    ensures b.FailingChain(n, chain)
    decreases |chain|
  {
    assert a.Masters()[n][chain[0]] == a.deps[n][chain[0]].master;
    if |chain| > 1 {
      SameChains(a, b, a.deps[n][chain[0]].master.value, chain[1..]);
    }
  }

  lemma SameFailures(a: Evaluation, b: Evaluation, n: nat)
    requires a.Valid() && b.Valid() && a.deps == b.deps && a.validNow == b.validNow && n < |a.deps|
    requires forall k :: 0 <= k < |a.objects| ==> a.EffectiveState(a.objects[k]) == b.EffectiveState(b.objects[k])
    ensures a.Fails(n) <==> b.Fails(n)
  {
    if chain :| a.FailingChain(n, chain) {
      SameChains(a, b, n, chain);
    }
    if chain :| b.FailingChain(n, chain) {
      SameChains(b, a, n, chain);
    }
  }

  /** Without soft state dependencies, the present state of an object in a soft one makes no difference. */
  lemma SoftStatesDoNotCount(a: Evaluation, b: Evaluation, n: nat)
    requires a.Valid() && b.Valid() && a.deps == b.deps && a.validNow == b.validNow && n < |a.deps|
    requires !a.softStateDependencies && !b.softStateDependencies
    requires forall k :: 0 <= k < |a.objects| ==> a.objects[k].stateType == b.objects[k].stateType
    requires forall k :: 0 <= k < |a.objects| && a.objects[k].stateType.SOFT_STATE? ==>
      a.objects[k].lastHardState == b.objects[k].lastHardState
    requires forall k :: 0 <= k < |a.objects| && a.objects[k].stateType.HARD_STATE? ==>
      a.objects[k].currentState == b.objects[k].currentState
    ensures a.Fails(n) <==> b.Fails(n)
  {
    SameFailures(a, b, n);
  }

  /** With soft state dependencies, last hard states make none, nor does the type of the state. */
  lemma LastHardStatesDoNotCount(a: Evaluation, b: Evaluation, n: nat)
    requires a.Valid() && b.Valid() && a.deps == b.deps && a.validNow == b.validNow && n < |a.deps|
    requires a.softStateDependencies && b.softStateDependencies
    requires forall k :: 0 <= k < |a.objects| ==> a.objects[k].currentState == b.objects[k].currentState
    ensures a.Fails(n) <==> b.Fails(n)
  {
    SameFailures(a, b, n);
  }

  /** An object that depends on one which is critical in a soft state, and was OK in its last hard one. */
  function OnSoftCritical(softStateDependencies: bool): Evaluation {
    Evaluation([[Dependency(Some(1), false, {2}, None)], []],
               [Master(ServiceState.HARD_STATE, 0, 0), Master(ServiceState.SOFT_STATE, 2, 0)],
               softStateDependencies, {})
  }

  /** It fails exactly when soft states count. */
  lemma SoftCriticalFailsIff(softStateDependencies: bool)
    ensures OnSoftCritical(softStateDependencies).Valid()
    ensures OnSoftCritical(softStateDependencies).Fails(0) <==> softStateDependencies
  {
    var ev := OnSoftCritical(softStateDependencies);
    assert ev.Masters()[0] == [Some(1)] && ev.Masters()[1] == [];
    ev.FailsIff(0);
    if softStateDependencies {
      assert ev.FailsAt(0, 0);
    }
  }

  /**
   Scans the dependency list of n.  Over a graph that passed the pre-flight check the recursion
   ends, and the result is FAILED exactly when some failing chain starts at n.
   */
  method CheckDependencies(ev: Evaluation, n: nat) returns (r: Result)
    requires ev.Valid() && Acyclic(ev.Masters()) && n < |ev.deps|
    ensures r == DEPENDENCIES_FAILED <==> ev.Fails(n)
    decreases Rank(ev.Masters(), n)
  {
    for i := 0 to |ev.deps[n]|
      invariant forall j :: 0 <= j < i ==> !ev.OutOfPeriod(ev.deps[n][j])
      invariant forall chain :: ev.FailingChain(n, chain) ==> chain[0] >= i
    {
      var d := ev.deps[n][i];
      if d.master.None? {
        continue;
      }
      if d.period.Some? && d.period.value !in ev.validNow {
        return DEPENDENCIES_OK;
      }
      assert ev.Masters()[n][i] == d.master;
      ev.ChainThrough(n, i);
      var state := ev.EffectiveState(ev.objects[d.master.value]);
      if state in d.failureOptions {
        return DEPENDENCIES_FAILED;
      }
      if d.inheritsParent {
        assert d.master in ev.Masters()[n];
        RankDecreases(ev.Masters(), n, d.master.value);
        var parent := CheckDependencies(ev, d.master.value);
        if parent != DEPENDENCIES_OK {
          return DEPENDENCIES_FAILED;
        }
      }
    }
    return DEPENDENCIES_OK;
  }

  /**
   The two parts together: when the pre-flight check passes, the dependencies of any service or
   host, of either type, can be evaluated, and the verdict is the failing chain property.
   */
  method CheckLoaded(net: CircularCheck.Network, ev: Evaluation, n: nat) returns (ok: bool, r: Result)
    requires CircularCheck.Loaded(net) && ev.Valid() && n < |ev.deps|
    requires ev.Masters() in {net.serviceNotifyDeps, net.serviceExecDeps, net.hostNotifyDeps, net.hostExecDeps}
    ensures ok <==> CircularCheck.AllAcyclic(net)
    ensures ok ==> (r == DEPENDENCIES_FAILED <==> ev.Fails(n))
  {
    r := DEPENDENCIES_OK;
    var errors;
    ok, errors := CircularCheck.PreFlightCircularCheck(net, 0);
    if ok {
      r := CheckDependencies(ev, n);
    }
  }
}
