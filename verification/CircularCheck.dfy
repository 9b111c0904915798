/**
 The pre-flight check for circular paths (base/config.c).  One depth-first search serves the
 four link graphs; it marks a status array in place and counts errors.
 */
module CircularCheck {
  import opened Wrappers
  import opened Graph

  datatype Status = UNCHECKED | TEMP_CHECKED | OK | LOOPY

  // ---------- what the marks mean ----------

  ghost function Unchecked(ary: array<Status>): set<nat>
    reads ary
  {
    set n: nat | n < ary.Length && ary[n] == UNCHECKED
  }

  /** Every object still marked TEMP_CHECKED can reach n: it lies on the search stack. */
  ghost predicate StackReaches(g: Links, ary: array<Status>, n: nat)
    requires |g| <= ary.Length
    reads ary
  {
    forall t: nat :: t < |g| && ary[t] == TEMP_CHECKED && t != n ==> Reaches(g, t, n)
  }

  /** A link with both its ends marked LOOPY. */
  ghost predicate MarkedLoop(g: Links, ary: array<Status>, n: nat, c: nat)
    requires |g| <= ary.Length
    reads ary
  {
    Edge(g, n, c) && c < |g| && ary[n] == LOOPY && ary[c] == LOOPY
  }

  /** All links of n lead to objects in the first k places of order. */
  ghost predicate LinksBefore(g: Links, order: seq<nat>, n: nat, k: nat) {
    n < |g| && k <= |order| && forall c: nat :: Edge(g, n, c) ==> c in order[..k]
  }

  /** order lists objects so that every link leads to an earlier place. */
  ghost predicate Ordered(g: Links, order: seq<nat>) {
    forall i :: 0 <= i < |order| ==> LinksBefore(g, order, order[i], i)
  }

  /** As long as no error is found, the objects marked OK are the finished ones, in order. */
  ghost predicate Clean(g: Links, ary: array<Status>, order: seq<nat>)
    requires |g| <= ary.Length
    reads ary
  {
    && Ordered(g, order)
    && forall n: nat :: n < |g| ==>
      && (ary[n] == OK <==> n in order)
      && ary[n] in {UNCHECKED, TEMP_CHECKED, OK}
  }

  // ---------- consequences of an order ----------

  lemma {:induction false} PathDescends(g: Links, order: seq<nat>, p: seq<nat>, k: nat)
    requires Ordered(g, order) && Path(g, p) && |p| > 1
    requires k < |order| && p[0] == order[k]
    ensures p[|p| - 1] in order[..k]
    decreases |p|
  {
    assert Edge(g, p[0], p[0 + 1]);
    var j :| 0 <= j < k && order[j] == p[1];
    if |p| > 2 {
      var q := p[1..];
      forall i | 0 <= i < |q| - 1 ensures Edge(g, q[i], q[i + 1]) {
        assert Edge(g, p[i + 1], p[i + 1 + 1]);
      }
      PathDescends(g, order, q, j);
      assert order[..j] <= order[..k];
    }
  }

  ghost function FirstIndex(s: seq<nat>, x: nat): (i: nat)
    requires x in s
    ensures i < |s| && s[i] == x && x !in s[..i]
  {
    if s[0] == x then 0 else 1 + FirstIndex(s[1..], x)
  }

  lemma OrderedIsOffCycles(g: Links, order: seq<nat>, n: nat)
    requires Ordered(g, order) && n in order
    ensures !Reaches(g, n, n)
  {
    if Reaches(g, n, n) {
      var p :| PathFromTo(g, p, n, n);
      PathDescends(g, order, p, FirstIndex(order, n));
      assert false;
    }
  }

  /** A search without error from a set of roots that holds every object with links. */
  lemma OrderedCoverIsAcyclic(g: Links, order: seq<nat>)
    requires Ordered(g, order)
    requires forall n: nat :: n < |g| && g[n] != [] ==> n in order
    ensures Acyclic(g)
  {
    forall n: nat | n < |g| ensures !Reaches(g, n, n) {
      if Reaches(g, n, n) {
        ReachesFirstLink(g, n, n);
        assert g[n] != [];
        OrderedIsOffCycles(g, order, n);
      }
    }
  }

  // ---------- the search ----------

  /**
   Marks root and what it leads to.  An unmarked root costs one UNCHECKED mark, which bounds the
   recursion; an error means a cycle and a link with both ends LOOPY, an object newly marked LOOPY
   lies on a cycle, and no error means that root got its place in the order.
   */
  method DfsPath(ary: array<Status>, g: Links, root: Option<nat>, errors: nat, ghost order: seq<nat>)
    returns (status: Status, errors': nat, ghost order': seq<nat>, ghost loop: (nat, nat))
    requires WellFormed(g) && |g| <= ary.Length
    requires root.Some? ==> root.value < |g| && StackReaches(g, ary, root.value)
    modifies ary
    ensures errors <= errors'
    ensures errors' > errors ==> !Acyclic(g) && MarkedLoop(g, ary, loop.0, loop.1)
    ensures forall t: nat :: t < |g| && old(ary[t]) == LOOPY ==> ary[t] == LOOPY
    ensures forall t: nat :: t < |g| && ary[t] == LOOPY ==> old(ary[t]) == LOOPY || Reaches(g, t, t)
    ensures Unchecked(ary) <= old(Unchecked(ary))
    ensures forall t: nat :: t < |g| && ary[t] == TEMP_CHECKED ==> old(ary[t]) == TEMP_CHECKED
    ensures root.None? ==> status == OK
    ensures root.Some? ==> ary[root.value] != UNCHECKED
    ensures root.Some? && status == TEMP_CHECKED ==>
      old(ary[root.value]) == TEMP_CHECKED && ary[root.value] == TEMP_CHECKED
    ensures old(Clean(g, ary, order)) && errors' == errors ==>
      && Clean(g, ary, order') && order <= order'
      && (forall t: nat :: t < |g| && old(ary[t]) == TEMP_CHECKED ==> ary[t] == TEMP_CHECKED)
      && (root.Some? && status != TEMP_CHECKED ==> root.value in order')
    decreases Unchecked(ary), 0
  {
    order', loop := order, (0, 0);
    if root.None? {
      return OK, errors, order, loop;
    }
    var n := root.value;
    if ary[n] != UNCHECKED {
      return ary[n], errors, order, loop;
    }
    ary[n] := TEMP_CHECKED;
    errors' := errors;
    assert n in old(Unchecked(ary));
    assert Unchecked(ary) < old(Unchecked(ary));

    for i := 0 to |g[n]|
      invariant errors <= errors'
      invariant errors' > errors ==> !Acyclic(g) && MarkedLoop(g, ary, loop.0, loop.1)
      invariant forall t: nat :: t < |g| && old(ary[t]) == LOOPY ==> ary[t] == LOOPY
      invariant forall t: nat :: t < |g| && ary[t] == LOOPY ==> old(ary[t]) == LOOPY || Reaches(g, t, t)
      invariant Unchecked(ary) < old(Unchecked(ary))
      invariant n !in Unchecked(ary)
      invariant forall t: nat :: t < |g| && ary[t] == TEMP_CHECKED && t != n ==> old(ary[t]) == TEMP_CHECKED
      invariant old(Clean(g, ary, order)) && errors' == errors ==>
        && Clean(g, ary, order') && order <= order'
        && (forall t: nat :: t < |g| && old(ary[t]) == TEMP_CHECKED ==> ary[t] == TEMP_CHECKED)
        && ary[n] == TEMP_CHECKED
        && forall j :: 0 <= j < i && g[n][j].Some? ==> g[n][j].value in order'
    {
      ghost var before, found := errors', loop;
      errors', order', found := VisitChild(ary, g, n, g[n][i], errors', order');
      loop := if errors' > before then found else loop;
    }
    assert n !in Unchecked(ary);

    if ary[n] == TEMP_CHECKED {
      ary[n] := OK;
      order' := order' + [n];
      assert old(Clean(g, ary, order)) && errors' == errors ==> Clean(g, ary, order') by {
        if old(Clean(g, ary, order)) && errors' == errors {
          OrderedExtends(g, order'[..|order'| - 1], n);
          assert order' == order'[..|order'| - 1] + [n];
        }
      }
    }
    status := ary[n];
  }

  /** Searches from a child of n; a child on the search stack is an error. */
  method VisitChild(ary: array<Status>, g: Links, n: nat, child: Option<nat>, errors: nat, ghost order: seq<nat>)
    returns (errors': nat, ghost order': seq<nat>, ghost loop: (nat, nat))
    requires WellFormed(g) && |g| <= ary.Length
    requires n < |g| && child in g[n] && ary[n] != UNCHECKED && StackReaches(g, ary, n)
    modifies ary
    ensures errors <= errors'
    ensures errors' > errors ==> !Acyclic(g) && MarkedLoop(g, ary, loop.0, loop.1)
    ensures forall t: nat :: t < |g| && old(ary[t]) == LOOPY ==> ary[t] == LOOPY
    ensures forall t: nat :: t < |g| && ary[t] == LOOPY ==> old(ary[t]) == LOOPY || Reaches(g, t, t)
    ensures Unchecked(ary) <= old(Unchecked(ary))
    ensures forall t: nat :: t < |g| && ary[t] == TEMP_CHECKED ==> old(ary[t]) == TEMP_CHECKED
    ensures old(Clean(g, ary, order)) && errors' == errors ==>
      && Clean(g, ary, order') && order <= order'
      && (forall t: nat :: t < |g| && old(ary[t]) == TEMP_CHECKED ==> ary[t] == TEMP_CHECKED)
      && (child.Some? ==> child.value in order')
    decreases Unchecked(ary), 1
  {
    if child.Some? {
      StackReachesChild(g, ary, n, child.value);
    }
    assert n !in Unchecked(ary);
    var childStatus;
    childStatus, errors', order', loop := DfsPath(ary, g, child, errors, order);
    assert n !in Unchecked(ary);
    if childStatus == TEMP_CHECKED {
      BackLink(g, n, child.value);
      errors' := errors' + 1;
      MarkLoop(ary, g, n, child.value);
      loop := (n, child.value);
    }
  }

  method MarkLoop(ary: array<Status>, g: Links, n: nat, c: nat)
    requires |g| <= ary.Length && Edge(g, n, c) && c < |g| && ary[n] != UNCHECKED && ary[c] != UNCHECKED
    modifies ary
    ensures MarkedLoop(g, ary, n, c) && Unchecked(ary) == old(Unchecked(ary))
    ensures forall t: nat :: t < ary.Length && t != n && t != c ==> ary[t] == old(ary[t])
  {
    ary[c] := LOOPY;
    ary[n] := LOOPY;
  }

  /** A link to an object on the search stack closes a cycle through both its ends. */
  lemma BackLink(g: Links, n: nat, c: nat)
    requires Edge(g, n, c) && c < |g| && (c == n || Reaches(g, c, n))
    ensures Reaches(g, n, n) && Reaches(g, c, c) && !Acyclic(g)
  {
    EdgeReaches(g, n, c);
    if c != n {
      ReachesTransitive(g, c, n, c);
      ReachesTransitive(g, n, c, n);
    }
  }

  lemma StackReachesChild(g: Links, ary: array<Status>, n: nat, c: nat)
    requires |g| <= ary.Length && StackReaches(g, ary, n) && Edge(g, n, c)
    ensures StackReaches(g, ary, c)
  {
    EdgeReaches(g, n, c);
    forall t: nat | t < |g| && ary[t] == TEMP_CHECKED && t != c ensures Reaches(g, t, c) {
      if t != n {
        ReachesTransitive(g, t, n, c);
      }
    }
  }

  lemma OrderedExtends(g: Links, order: seq<nat>, n: nat)
    requires Ordered(g, order) && n < |g|
    requires forall c: nat :: Edge(g, n, c) ==> c in order
    ensures Ordered(g, order + [n])
  {
    var o := order + [n];
    forall i | 0 <= i < |o| ensures LinksBefore(g, o, o[i], i) {
      assert o[..i] == order[..i];
      if i < |order| {
        assert LinksBefore(g, order, order[i], i);
      }
    }
  }

  // ---------- the pre-flight check ----------

  const NOTIFICATION_DEPENDENCY := 1
  const EXECUTION_DEPENDENCY := 2

  /** An entry of the host or service dependency array. */
  datatype DependencyRecord = DependencyRecord(dependencyType: int, dependent: Option<nat>)

  /** The loaded objects as the check sees them: the links of each kind, by object id. */
  datatype Network = Network(
    childHosts: Links,
    serviceNotifyDeps: Links, serviceExecDeps: Links, serviceDependencies: seq<DependencyRecord>,
    hostNotifyDeps: Links, hostExecDeps: Links, hostDependencies: seq<DependencyRecord>,
    exclusions: Links)

  /** Every object that depends on something is the dependent of a record of that type. */
  ghost predicate Registered(g: Links, deps: seq<DependencyRecord>, dependencyType: int) {
    && WellFormed(g)
    && (forall i :: 0 <= i < |deps| && deps[i].dependent.Some? ==> deps[i].dependent.value < |g|)
    && forall n: nat :: n < |g| && g[n] != [] ==>
      exists i :: 0 <= i < |deps| && deps[i] == DependencyRecord(dependencyType, Some(n))
  }

  ghost predicate Loaded(net: Network) {
    && WellFormed(net.childHosts) && WellFormed(net.exclusions)
    && Registered(net.serviceNotifyDeps, net.serviceDependencies, NOTIFICATION_DEPENDENCY)
    && Registered(net.serviceExecDeps, net.serviceDependencies, EXECUTION_DEPENDENCY)
    && Registered(net.hostNotifyDeps, net.hostDependencies, NOTIFICATION_DEPENDENCY)
    && Registered(net.hostExecDeps, net.hostDependencies, EXECUTION_DEPENDENCY)
    && |net.serviceNotifyDeps| == |net.serviceExecDeps|
    && |net.hostNotifyDeps| == |net.hostExecDeps| == |net.childHosts|
  }

  ghost predicate AllAcyclic(net: Network) {
    && Acyclic(net.childHosts)
    && Acyclic(net.serviceNotifyDeps) && Acyclic(net.serviceExecDeps)
    && Acyclic(net.hostNotifyDeps) && Acyclic(net.hostExecDeps)
    && Acyclic(net.exclusions)
  }

  ghost predicate Cleared(ary: array<Status>)
    reads ary
  {
    forall i :: 0 <= i < ary.Length ==> ary[i] == UNCHECKED
  }

  method Clear(ary: array<Status>)
    modifies ary
    ensures Cleared(ary)
  {
    for i := 0 to ary.Length
      invariant forall j :: 0 <= j < i ==> ary[j] == UNCHECKED
    {
      ary[i] := UNCHECKED;
    }
  }

  /** Searches from every object of the graph: the hosts and the timeperiods. */
  method CheckAll(ary: array<Status>, g: Links, errors: nat) returns (errors': nat)
    requires WellFormed(g) && |g| <= ary.Length && Cleared(ary)
    modifies ary
    ensures errors <= errors'
    ensures errors' == errors <==> Acyclic(g)
  {
    errors' := errors;
    ghost var order: seq<nat> := [];
    for n := 0 to |g|
      invariant errors <= errors'
      invariant errors' > errors ==> !Acyclic(g)
      invariant forall t: nat :: t < |g| ==> ary[t] != TEMP_CHECKED
      invariant errors' == errors ==> Clean(g, ary, order) && forall t: nat :: t < n ==> t in order
    {
      var status;
      ghost var loop;
      status, errors', order, loop := DfsPath(ary, g, Some(n), errors', order);
    }
    if errors' == errors {
      OrderedCoverIsAcyclic(g, order);
    }
  }

  /** Searches from the dependent object of every record, in the array of the record's type. */
  method CheckDependencies(notify: array<Status>, exec: array<Status>, gNotify: Links, gExec: Links,
                           deps: seq<DependencyRecord>, errors: nat) returns (errors': nat)
    requires notify != exec && Cleared(notify) && Cleared(exec)
    requires |gNotify| <= notify.Length && |gExec| <= exec.Length
    requires Registered(gNotify, deps, NOTIFICATION_DEPENDENCY) && Registered(gExec, deps, EXECUTION_DEPENDENCY)
    modifies notify, exec
    ensures errors <= errors'
    ensures errors' == errors <==> Acyclic(gNotify) && Acyclic(gExec)
  {
    errors' := errors;
    ghost var order1: seq<nat>, order2: seq<nat> := [], [];
    for i := 0 to |deps|
      invariant errors <= errors'
      invariant errors' > errors ==> !Acyclic(gNotify) || !Acyclic(gExec)
      invariant forall t: nat :: t < |gNotify| ==> notify[t] != TEMP_CHECKED
      invariant forall t: nat :: t < |gExec| ==> exec[t] != TEMP_CHECKED
      invariant errors' == errors ==> Clean(gNotify, notify, order1) && Clean(gExec, exec, order2)
      invariant errors' == errors ==> forall j :: 0 <= j < i && deps[j].dependent.Some? ==>
        && (deps[j].dependencyType == NOTIFICATION_DEPENDENCY ==> deps[j].dependent.value in order1)
        && (deps[j].dependencyType == EXECUTION_DEPENDENCY ==> deps[j].dependent.value in order2)
    {
      var status;
      ghost var loop;
      if deps[i].dependencyType == NOTIFICATION_DEPENDENCY {
        status, errors', order1, loop := DfsPath(notify, gNotify, deps[i].dependent, errors', order1);
      } else if deps[i].dependencyType == EXECUTION_DEPENDENCY {
        status, errors', order2, loop := DfsPath(exec, gExec, deps[i].dependent, errors', order2);
      }
    }
    if errors' == errors {
      OrderedCoverIsAcyclic(gNotify, order1);
      OrderedCoverIsAcyclic(gExec, order2);
    }
  }

  /** The check passes exactly when none of the six link graphs has a directed cycle. */
  method PreFlightCircularCheck(net: Network, e: nat) returns (ok: bool, e': nat)
    requires Loaded(net)
    ensures ok <==> AllAcyclic(net)
    ensures ok <==> e' == e
    ensures e <= e'
  {
    var alloc := if |net.childHosts| > |net.serviceExecDeps| then |net.childHosts| else |net.serviceExecDeps|;
    if |net.exclusions| > alloc {
      alloc := |net.exclusions|;
    }
    var ary0, ary1 := new Status[alloc](_ => UNCHECKED), new Status[alloc](_ => UNCHECKED);
    var errors := CheckAll(ary0, net.childHosts, 0);

    Clear(ary0);
    Clear(ary1);
    errors := CheckDependencies(ary0, ary1, net.serviceNotifyDeps, net.serviceExecDeps, net.serviceDependencies,
                                errors);

    Clear(ary0);
    Clear(ary1);
    errors := CheckDependencies(ary0, ary1, net.hostNotifyDeps, net.hostExecDeps, net.hostDependencies, errors);

    Clear(ary0);
    Clear(ary1);
    errors := CheckAll(ary0, net.exclusions, errors);

    e' := e + errors;
    ok := errors == 0;
  }
}
