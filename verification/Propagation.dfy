/**
 Commands that spread from a host to everything beyond it (base/commands.c): switching
 notifications on or off, and scheduling downtime.
 */
module Propagation {
  import opened Wrappers
  import opened Graph

  /** The two fields of a host or a service that the notification switch writes. */
  datatype Switch = Switch(notificationsEnabled: bool, attributeModified: bool)
  {
    /** The switch thrown: marked as modified only when that changes anything. */
    function Thrown(on: bool): Switch {
      Switch(on, attributeModified || notificationsEnabled != on)
    }
  }

  /** The switch is on or off as asked for, and is marked as modified if it was before or has changed. */
  predicate Set(before: Switch, after: Switch, on: bool) {
    && after.notificationsEnabled == on
    && (after.attributeModified <==>
        before.attributeModified || before.notificationsEnabled != after.notificationsEnabled)
  }

  /** a with the switches of exactly the ids in s thrown. */
  ghost function ThrowAt(a: seq<Switch>, s: set<nat>, on: bool): (b: seq<Switch>)
    ensures |b| == |a| && forall i :: 0 <= i < |a| ==> b[i] == if i in s then a[i].Thrown(on) else a[i]
  {
    seq(|a|, i requires 0 <= i < |a| => if i in s then a[i].Thrown(on) else a[i])
  }

  lemma ThrowTwice(a: seq<Switch>, s: set<nat>, t: set<nat>, on: bool)
    ensures ThrowAt(ThrowAt(a, s, on), t, on) == ThrowAt(a, s + t, on)
  {
  }

  lemma ThrowNone(a: seq<Switch>, on: bool)
    ensures ThrowAt(a, {}, on) == a
  {
  }

  /** Thrown switches are set, the others stay as they are. */
  lemma ThrowAtSets(a: seq<Switch>, s: set<nat>, on: bool)
    ensures forall i :: 0 <= i < |a| ==>
      if i in s then Set(a[i], ThrowAt(a, s, on)[i], on) else ThrowAt(a, s, on)[i] == a[i]
  {
  }

  method SetNotifications(switches: array<Switch>, i: nat, on: bool)
    requires i < switches.Length
    modifies switches
    ensures switches[..] == ThrowAt(old(switches[..]), {i}, on)
    ensures switches[i].notificationsEnabled == on
    ensures switches[i].attributeModified <==>
      old(switches[i].attributeModified || switches[i].notificationsEnabled != on)
    ensures forall j :: 0 <= j < switches.Length && j != i ==> switches[j] == old(switches[j])
  {
    if switches[i].notificationsEnabled == on {
      return;
    }
    switches[i] := switches[i].(attributeModified := true);
    switches[i] := switches[i].(notificationsEnabled := on);
  }

  /** What one propagation command is asked to affect. */
  datatype Command = Command(on: bool, affectTopHost: bool, affectHosts: bool, affectServices: bool)

  /** i is h's child at one of the first k links, or lies beyond such a child. */
  ghost predicate BeyondLinks(g: Links, h: nat, k: nat, i: nat)
    requires h < |g| && k <= |g[h]|
  {
    exists j :: 0 <= j < k && g[h][j].Some? && (g[h][j].value == i || Reaches(g, g[h][j].value, i))
  }

  /** Some host for which P holds runs service s. */
  ghost predicate RunsOn(services: Links, s: nat, hosts: set<nat>) {
    exists i :: i in hosts && i < |services| && Some(s) in services[i]
  }

  ghost function HostsBeyondLinks(g: Links, h: nat, k: nat): set<nat>
    requires h < |g| && k <= |g[h]|
  {
    set i: nat | i < |g| && BeyondLinks(g, h, k, i)
  }

  lemma AllLinks(g: Links, h: nat)
    requires WellFormed(g) && h < |g|
    ensures HostsBeyondLinks(g, h, |g[h]|) == Descendants(g, h)
  {
    forall i: nat | i < |g| ensures BeyondLinks(g, h, |g[h]|, i) <==> Reaches(g, h, i) {
      ReachesFirstLink(g, h, i);
      if BeyondLinks(g, h, |g[h]|, i) {
        var j :| 0 <= j < |g[h]| && g[h][j].Some? && (g[h][j].value == i || Reaches(g, g[h][j].value, i));
        assert Edge(g, h, g[h][j].value);
      }
    }
  }

  lemma OneMoreLink(g: Links, h: nat, k: nat)
    requires WellFormed(g) && h < |g| && k < |g[h]|
    ensures HostsBeyondLinks(g, h, k + 1) == HostsBeyondLinks(g, h, k) +
      if g[h][k].None? then {} else {g[h][k].value} + Descendants(g, g[h][k].value)
  {
  }

  ghost function ServicesOf(services: Links, hosts: set<nat>, n: nat): set<nat> {
    set s: nat | s < n && RunsOn(services, s, hosts)
  }

  method SetServiceNotifications(services: Links, h: nat, switches: array<Switch>, on: bool)
    requires h < |services|
    requires forall i :: 0 <= i < |services[h]| && services[h][i].Some? ==> services[h][i].value < switches.Length
    modifies switches
    ensures switches[..] == ThrowAt(old(switches[..]), ServicesOf(services, {h}, switches.Length), on)
  {
    ghost var done: set<nat> := {};
    assert switches[..] == ThrowAt(switches[..], done, on);
    for j := 0 to |services[h]|
      invariant done == set i | 0 <= i < j && services[h][i].Some? :: services[h][i].value
      invariant switches[..] == ThrowAt(old(switches[..]), done, on)
    {
      if services[h][j].Some? {
        SetNotifications(switches, services[h][j].value, on);
        ThrowTwice(old(switches[..]), done, {services[h][j].value}, on);
        done := done + {services[h][j].value};
      }
    }
    forall s: nat ensures s in ServicesOf(services, {h}, switches.Length) <==> s in done {
      if s in done {
        assert h in {h} && Some(s) in services[h];
      }
    }
    assert done == ServicesOf(services, {h}, switches.Length);
  }

  lemma ServicesOfUnion(services: Links, s: set<nat>, t: set<nat>, n: nat)
    ensures ServicesOf(services, s + t, n) == ServicesOf(services, s, n) + ServicesOf(services, t, n)
  {
    forall x: nat ensures RunsOn(services, x, s + t) <==> RunsOn(services, x, s) || RunsOn(services, x, t) {
      if i :| i in s + t && i < |services| && Some(x) in services[i] {
        assert i in s || i in t;
      }
      if i :| i in s && i < |services| && Some(x) in services[i] {
        assert i in s + t;
      }
      if i :| i in t && i < |services| && Some(x) in services[i] {
        assert i in s + t;
      }
    }
  }

  /** The hosts and services that a command at host h and the given level is meant to switch. */
  ghost function AffectedHosts(g: Links, h: nat, level: nat, c: Command, beyond: set<nat>): set<nat> {
    (if c.affectTopHost && level == 0 then {h} else {}) + (if c.affectHosts then beyond else {})
  }

  ghost function AffectedServices(services: Links, n: nat, c: Command, beyond: set<nat>): set<nat> {
    if c.affectServices then ServicesOf(services, beyond, n) else {}
  }

  /** One child done: first what lies beyond it, then the child itself. */
  lemma ChildDone(g: Links, services: Links, h: nat, level: nat, k: nat, n: nat, c: Command, hs: seq<Switch>,
                  ss: seq<Switch>)
    requires WellFormed(g) && h < |g| && k < |g[h]| && g[h][k].Some?
    ensures
      var child, prior, next := g[h][k].value, HostsBeyondLinks(g, h, k), HostsBeyondLinks(g, h, k + 1);
      var below := Descendants(g, child);
      && ThrowAt(ThrowAt(ThrowAt(hs, AffectedHosts(g, h, level, c, prior), c.on),
                         AffectedHosts(g, child, level + 1, c, below), c.on),
                 if c.affectHosts then {child} else {}, c.on)
         == ThrowAt(hs, AffectedHosts(g, h, level, c, next), c.on)
      && ThrowAt(ThrowAt(ThrowAt(ss, AffectedServices(services, n, c, prior), c.on),
                         AffectedServices(services, n, c, below), c.on),
                 AffectedServices(services, n, c, {child}), c.on)
         == ThrowAt(ss, AffectedServices(services, n, c, next), c.on)
  {
    var child, prior, next := g[h][k].value, HostsBeyondLinks(g, h, k), HostsBeyondLinks(g, h, k + 1);
    var below := Descendants(g, child);
    OneMoreLink(g, h, k);
    assert next == prior + (below + {child});
    var h1, h2, h3 := AffectedHosts(g, h, level, c, prior), AffectedHosts(g, child, level + 1, c, below),
        if c.affectHosts then {child} else {};
    ThrowTwice(hs, h1, h2, c.on);
    ThrowTwice(hs, h1 + h2, h3, c.on);
    assert h1 + h2 + h3 == AffectedHosts(g, h, level, c, next);
    var s1, s2, s3 := AffectedServices(services, n, c, prior), AffectedServices(services, n, c, below),
        AffectedServices(services, n, c, {child});
    ThrowTwice(ss, s1, s2, c.on);
    ThrowTwice(ss, s1 + s2, s3, c.on);
    ServicesOfUnion(services, below, {child}, n);
    ServicesOfUnion(services, prior, below + {child}, n);
    assert s1 + s2 + s3 == AffectedServices(services, n, c, next);
  }

  /** One switch for every host and every service. */
  ghost predicate Fits(g: Links, services: Links, hostSwitches: array<Switch>, serviceSwitches: array<Switch>) {
    && |g| == |services| == hostSwitches.Length && hostSwitches != serviceSwitches
    && forall n, i :: 0 <= n < |services| && 0 <= i < |services[n]| && services[n][i].Some? ==>
      services[n][i].value < serviceSwitches.Length
  }

  /** The child at link k of h: first everything beyond it, then the child and its services. */
  method PropagateToChild(g: Links, services: Links, hostSwitches: array<Switch>, serviceSwitches: array<Switch>,
                          h: nat, k: nat, level: nat, c: Command)
    requires WellFormed(g) && Acyclic(g) && h < |g| && k < |g[h]| && g[h][k].Some?
    requires Fits(g, services, hostSwitches, serviceSwitches)
    modifies hostSwitches, serviceSwitches
    ensures
      var child := g[h][k].value;
      hostSwitches[..] == ThrowAt(ThrowAt(old(hostSwitches[..]),
                                          AffectedHosts(g, child, level + 1, c, Descendants(g, child)), c.on),
                                  if c.affectHosts then {child} else {}, c.on)
    ensures
      var child, n := g[h][k].value, serviceSwitches.Length;
      serviceSwitches[..] == ThrowAt(ThrowAt(old(serviceSwitches[..]),
                                             AffectedServices(services, n, c, Descendants(g, child)), c.on),
                                     AffectedServices(services, n, c, {child}), c.on)
    decreases Rank(g, h), 0
  {
    var child := g[h][k].value;
    assert Edge(g, h, child);
    RankDecreases(g, h, child);
    PropagateNotifications(g, services, hostSwitches, serviceSwitches, child, level + 1, c);
    if c.affectHosts {
      SetNotifications(hostSwitches, child, c.on);
    } else {
      ThrowNone(hostSwitches[..], c.on);
    }
    if c.affectServices {
      SetServiceNotifications(services, child, serviceSwitches, c.on);
    } else {
      ThrowNone(serviceSwitches[..], c.on);
    }
  }

  /**
   Does the children of h, one after the other; before holds the switches of the hosts before the top host was
   done.
   */
  method PropagateToChildren(g: Links, services: Links, hostSwitches: array<Switch>, serviceSwitches: array<Switch>,
                             h: nat, level: nat, c: Command, ghost before: seq<Switch>)
    requires WellFormed(g) && Acyclic(g) && h < |g|
    requires Fits(g, services, hostSwitches, serviceSwitches)
    requires hostSwitches[..] == ThrowAt(before, if c.affectTopHost && level == 0 then {h} else {}, c.on)
    modifies hostSwitches, serviceSwitches
    ensures hostSwitches[..] == ThrowAt(before, AffectedHosts(g, h, level, c, HostsBeyondLinks(g, h, |g[h]|)), c.on)
    ensures serviceSwitches[..] ==
      ThrowAt(old(serviceSwitches[..]),
              AffectedServices(services, serviceSwitches.Length, c, HostsBeyondLinks(g, h, |g[h]|)), c.on)
    decreases Rank(g, h), 1
  {
    ghost var n, ss := serviceSwitches.Length, serviceSwitches[..];
    assert HostsBeyondLinks(g, h, 0) == {} && ServicesOf(services, {}, n) == {};
    ThrowNone(ss, c.on);
    assert AffectedHosts(g, h, level, c, {}) == if c.affectTopHost && level == 0 then {h} else {};
    for k := 0 to |g[h]|
      invariant hostSwitches[..] == ThrowAt(before, AffectedHosts(g, h, level, c, HostsBeyondLinks(g, h, k)), c.on)
      invariant serviceSwitches[..] == ThrowAt(ss, AffectedServices(services, n, c, HostsBeyondLinks(g, h, k)), c.on)
    {
      if g[h][k].None? {
        OneMoreLink(g, h, k);
        assert HostsBeyondLinks(g, h, k + 1) == HostsBeyondLinks(g, h, k);
        continue;
      }
      PropagateToChild(g, services, hostSwitches, serviceSwitches, h, k, level, c);
      ChildDone(g, services, h, level, k, n, c, before, ss);
    }
  }

  /**
   Enables or disables notifications beyond host h.  Exactly the proper descendants of h change,
   h itself only at level 0 and on request, and the services of exactly those descendants.
   */
  method PropagateNotifications(g: Links, services: Links, hostSwitches: array<Switch>, serviceSwitches: array<Switch>,
                                h: nat, level: nat, c: Command)
    requires WellFormed(g) && Acyclic(g) && h < |g|
    requires Fits(g, services, hostSwitches, serviceSwitches)
    modifies hostSwitches, serviceSwitches
    ensures hostSwitches[..] == ThrowAt(old(hostSwitches[..]), AffectedHosts(g, h, level, c, Descendants(g, h)), c.on)
    ensures serviceSwitches[..] ==
      ThrowAt(old(serviceSwitches[..]), AffectedServices(services, serviceSwitches.Length, c, Descendants(g, h)), c.on)
    ensures forall i :: 0 <= i < hostSwitches.Length ==>
      if (c.affectTopHost && level == 0 && i == h) || (c.affectHosts && i in Descendants(g, h))
      then Set(old(hostSwitches[i]), hostSwitches[i], c.on)
      else hostSwitches[i] == old(hostSwitches[i])
    ensures forall s :: 0 <= s < serviceSwitches.Length ==>
      if c.affectServices && RunsOn(services, s, Descendants(g, h))
      then Set(old(serviceSwitches[s]), serviceSwitches[s], c.on)
      else serviceSwitches[s] == old(serviceSwitches[s])
    decreases Rank(g, h), 2
  {
    ghost var n, hs, ss := serviceSwitches.Length, hostSwitches[..], serviceSwitches[..];
    if c.affectTopHost && level == 0 {
      SetNotifications(hostSwitches, h, c.on);
    } else {
      ThrowNone(hs, c.on);
    }
    PropagateToChildren(g, services, hostSwitches, serviceSwitches, h, level, c, hs);
    AllLinks(g, h);
    ThrowAtSets(hs, AffectedHosts(g, h, level, c, Descendants(g, h)), c.on);
    ThrowAtSets(ss, AffectedServices(services, n, c, Descendants(g, h)), c.on);
  }

  /** Without cycles the top host itself is switched only on request. */
  lemma TopHostOnlyOnRequest(g: Links, h: nat, level: nat, c: Command)
    requires Acyclic(g) && h < |g|
    ensures h in AffectedHosts(g, h, level, c, Descendants(g, h)) <==> c.affectTopHost && level == 0
  {
    assert h !in Descendants(g, h);
  }

  // ---------- downtime ----------

  /** A walk from a host is the list of places, in each child list, of the links it takes. */
  function WalkEnd(g: Links, h: nat, walk: seq<nat>): Option<nat>
    decreases walk
  {
    if walk == [] then Some(h)
    else if h < |g| && walk[0] < |g[h]| && g[h][walk[0]].Some? then WalkEnd(g, g[h][walk[0]].value, walk[1..])
    else None
  }

  /** The non-empty walks from h over its first k links, in the order the recursion completes them. */
  ghost function Walks(g: Links, h: nat, k: nat): seq<seq<nat>>
    requires WellFormed(g) && Acyclic(g) && h < |g| && k <= |g[h]|
    decreases Rank(g, h), k
  {
    if k == 0 then []
    else if g[h][k - 1].None? then Walks(g, h, k - 1)
    else
      var child := g[h][k - 1].value;
      assert Edge(g, h, child);
      RankDecreases(g, h, child);
      Walks(g, h, k - 1) + Prefixed(k - 1, Walks(g, child, |g[child]|)) + [[k - 1]]
  }

  ghost function Prefixed(i: nat, walks: seq<seq<nat>>): (r: seq<seq<nat>>)
    ensures |r| == |walks| && forall j :: 0 <= j < |r| ==> r[j] == [i] + walks[j]
  {
    seq(|walks|, j requires 0 <= j < |walks| => [i] + walks[j])
  }

  ghost predicate Distinct(s: seq<seq<nat>>) {
    forall i, j :: 0 <= i < j < |s| ==> s[i] != s[j]
  }

  ghost predicate IsWalk(g: Links, h: nat, k: nat, w: seq<nat>) {
    w != [] && w[0] < k && WalkEnd(g, h, w).Some?
  }

  /** Walks lists every walk exactly once. */
  lemma {:induction false} WalksAreAllWalks(g: Links, h: nat, k: nat)
    requires WellFormed(g) && Acyclic(g) && h < |g| && k <= |g[h]|
    ensures Distinct(Walks(g, h, k))
    ensures forall w :: w in Walks(g, h, k) <==> IsWalk(g, h, k, w)
    decreases Rank(g, h), k
  {
    if k > 0 {
      WalksAreAllWalks(g, h, k - 1);
      if g[h][k - 1].Some? {
        var child := g[h][k - 1].value;
        assert Edge(g, h, child);
        RankDecreases(g, h, child);
        WalksAreAllWalks(g, child, |g[child]|);
        var below := Prefixed(k - 1, Walks(g, child, |g[child]|));
        PrefixedContains(k - 1, Walks(g, child, |g[child]|));
        forall w ensures w in below <==> w != [k - 1] && w != [] && w[0] == k - 1 && WalkEnd(g, h, w).Some? {
          if w != [] && w[0] == k - 1 {
            WalkOverLink(g, h, k - 1, w);
          }
        }
        DistinctConcat(Walks(g, h, k - 1), below);
        DistinctConcat(Walks(g, h, k - 1) + below, [[k - 1]]);
        assert WalkEnd(g, child, []).Some?;
        assert [k - 1][1..] == [];
      }
    }
  }

  lemma WalkOverLink(g: Links, h: nat, i: nat, w: seq<nat>)
    requires WellFormed(g) && h < |g| && i < |g[h]| && g[h][i].Some? && w != [] && w[0] == i
    ensures
      var child := g[h][i].value;
      child < |g| && (WalkEnd(g, h, w).Some? && w != [i] <==> IsWalk(g, child, |g[child]|, w[1..]))
  {
    assert w == [i] + w[1..];
  }

  lemma DistinctConcat(a: seq<seq<nat>>, b: seq<seq<nat>>)
    requires Distinct(a) && Distinct(b)
    requires forall w :: w in a ==> w !in b
    ensures Distinct(a + b)
    ensures forall w :: w in a + b <==> w in a || w in b
  {
    forall i, j | 0 <= i < j < |a + b| ensures (a + b)[i] != (a + b)[j] {
      if i < |a| <= j {
        assert (a + b)[i] in a && (a + b)[j] in b;
      }
    }
  }

  lemma PrefixedContains(i: nat, walks: seq<seq<nat>>)
    ensures forall w :: w in Prefixed(i, walks) <==> w != [] && w[0] == i && w[1..] in walks
    ensures Distinct(walks) ==> Distinct(Prefixed(i, walks))
  {
    forall w ensures w in Prefixed(i, walks) <==> w != [] && w[0] == i && w[1..] in walks {
      if w in Prefixed(i, walks) {
        var j :| 0 <= j < |walks| && Prefixed(i, walks)[j] == w;
        assert w == [i] + walks[j];
      }
      if w != [] && w[0] == i && w[1..] in walks {
        var j :| 0 <= j < |walks| && walks[j] == w[1..];
        assert Prefixed(i, walks)[j] == w;
      }
    }
    if Distinct(walks) {
      forall j, l | 0 <= j < l < |walks| ensures Prefixed(i, walks)[j] != Prefixed(i, walks)[l] {
        assert Prefixed(i, walks)[j][1..] == walks[j] && Prefixed(i, walks)[l][1..] == walks[l];
      }
    }
  }

  /** The downtime queue as the command sees it: the hosts downtime was requested for. */
  class Downtimes {
    var requested: seq<nat>

    constructor ()
      ensures requested == []
    {
      requested := [];
    }

    method Schedule(h: nat)
      modifies this
      ensures requested == old(requested) + [h]
    {
      requested := requested + [h];
    }
  }

  /** The hosts that the walks, all from h, end at. */
  ghost function Ends(g: Links, h: nat, walks: seq<seq<nat>>): (r: seq<nat>)
    ensures |r| == |walks|
    ensures forall j :: 0 <= j < |r| && WalkEnd(g, h, walks[j]).Some? ==> r[j] == WalkEnd(g, h, walks[j]).value
  {
    seq(|walks|, j requires 0 <= j < |walks| => match WalkEnd(g, h, walks[j]) case Some(t) => t case None => 0)
  }

  ghost function WalksTo(g: Links, h: nat, walks: seq<seq<nat>>, t: nat): set<seq<nat>> {
    set w | w in walks && WalkEnd(g, h, w) == Some(t)
  }

  lemma OneMoreWalk(g: Links, h: nat, walks: seq<seq<nat>>, last: seq<nat>, t: nat)
    requires WalkEnd(g, h, last).Some? && last !in walks
    ensures Ends(g, h, walks + [last]) == Ends(g, h, walks) + [WalkEnd(g, h, last).value]
    ensures |WalksTo(g, h, walks + [last], t)| ==
      |WalksTo(g, h, walks, t)| + if WalkEnd(g, h, last) == Some(t) then 1 else 0
  {
    assert WalksTo(g, h, walks + [last], t) ==
      WalksTo(g, h, walks, t) + if WalkEnd(g, h, last) == Some(t) then {last} else {};
  }

  lemma {:induction false} CountEnds(g: Links, h: nat, walks: seq<seq<nat>>, t: nat)
    requires Distinct(walks) && forall w :: w in walks ==> WalkEnd(g, h, w).Some?
    ensures multiset(Ends(g, h, walks))[t] == |WalksTo(g, h, walks, t)|
  {
    if walks == [] {
      assert Ends(g, h, walks) == [];
      assert WalksTo(g, h, walks, t) == {};
    } else {
      var rest, last := walks[..|walks| - 1], walks[|walks| - 1];
      CountEnds(g, h, rest, t);
      OneMoreWalk(g, h, rest, last, t);
      assert walks == rest + [last];
    }
  }

  /** Downtime is requested for t as often as there are different walks from h to t. */
  lemma RequestsCountWalks(g: Links, h: nat, t: nat)
    requires WellFormed(g) && Acyclic(g) && h < |g|
    ensures
      var walks := Walks(g, h, |g[h]|);
      && multiset(Ends(g, h, walks))[t] == |WalksTo(g, h, walks, t)|
      && forall w :: w in WalksTo(g, h, walks, t) <==> w != [] && WalkEnd(g, h, w) == Some(t)
  {
    WalksAreAllWalks(g, h, |g[h]|);
    CountEnds(g, h, Walks(g, h, |g[h]|), t);
  }

  lemma EndsOverLink(g: Links, h: nat, k: nat)
    requires WellFormed(g) && Acyclic(g) && h < |g| && k < |g[h]| && g[h][k].Some?
    ensures
      var child := g[h][k].value;
      child < |g| &&
      Ends(g, h, Walks(g, h, k + 1)) == Ends(g, h, Walks(g, h, k)) + Ends(g, child, Walks(g, child, |g[child]|)) +
        [child]
  {
    var child := g[h][k].value;
    assert Edge(g, h, child);
    RankDecreases(g, h, child);
    var below := Walks(g, child, |g[child]|);
    assert Walks(g, h, k + 1) == Walks(g, h, k) + Prefixed(k, below) + [[k]];
    forall w ensures WalkEnd(g, h, [k] + w) == WalkEnd(g, child, w) {
      assert ([k] + w)[1..] == w;
    }
    assert [k] == [k] + [] && WalkEnd(g, child, []) == Some(child);
    assert Ends(g, h, Prefixed(k, below)) == Ends(g, child, below);
    assert Ends(g, h, [[k]]) == [child];
  }

  lemma DowntimeOverLink(g: Links, h: nat, k: nat, base: seq<nat>)
    requires WellFormed(g) && Acyclic(g) && h < |g| && k < |g[h]| && g[h][k].Some?
    ensures
      var child := g[h][k].value;
      child < |g| &&
      base + Ends(g, h, Walks(g, h, k)) + Ends(g, child, Walks(g, child, |g[child]|)) + [child] == base +
        Ends(g, h, Walks(g, h, k + 1))
  {
    EndsOverLink(g, h, k);
  }

  /**
   Requests downtime for every host beyond h, once for each walk that leads to it: the code never
   compares two walks, so a host below two parents gets two requests.
   */
  method ScheduleAndPropagateDowntime(g: Links, h: nat, downtimes: Downtimes)
    requires WellFormed(g) && Acyclic(g) && h < |g|
    modifies downtimes
    ensures downtimes.requested == old(downtimes.requested) + Ends(g, h, Walks(g, h, |g[h]|))
    decreases Rank(g, h)
  {
    ghost var base := downtimes.requested;
    for k := 0 to |g[h]|
      invariant downtimes.requested == base + Ends(g, h, Walks(g, h, k))
    {
      if g[h][k].None? {
        assert Walks(g, h, k + 1) == Walks(g, h, k);
        continue;
      }
      var child := g[h][k].value;
      assert Edge(g, h, child);
      RankDecreases(g, h, child);
      ScheduleAndPropagateDowntime(g, child, downtimes);
      downtimes.Schedule(child);
      DowntimeOverLink(g, h, k, base);
    }
  }
}
