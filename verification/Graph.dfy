/**
 The object graphs the monitoring engine walks: parent/child links between hosts, dependency
 links between hosts or services, exclusion links between timeperiods.  Objects are their ids,
 and links[n] lists the link targets of object n in list order; a link may be a NULL pointer.
 */
module Graph {
  import opened Wrappers

  type Links = seq<seq<Option<nat>>>

  ghost predicate WellFormed(g: Links) {
    forall n, i :: 0 <= n < |g| && 0 <= i < |g[n]| && g[n][i].Some? ==> g[n][i].value < |g|
  }

  ghost predicate Edge(g: Links, a: nat, b: nat) {
    a < |g| && Some(b) in g[a]
  }

  /** p follows links of g. */
  ghost predicate Path(g: Links, p: seq<nat>) {
    |p| > 0 && p[0] < |g| && forall i :: 0 <= i < |p| - 1 ==> Edge(g, p[i], p[i + 1])
  }

  ghost predicate PathFromTo(g: Links, p: seq<nat>, a: nat, b: nat) {
    Path(g, p) && |p| > 1 && p[0] == a && p[|p| - 1] == b
  }

  /** b can be reached from a over one link or more. */
  ghost predicate Reaches(g: Links, a: nat, b: nat) {
    exists p :: PathFromTo(g, p, a, b)
  }

  /** No directed cycle, a link of an object to itself included. */
  ghost predicate Acyclic(g: Links) {
    forall n :: 0 <= n < |g| ==> !Reaches(g, n, n)
  }

  ghost function Descendants(g: Links, a: nat): set<nat> {
    set b: nat | b < |g| && Reaches(g, a, b)
  }

  /** How many objects lie below a: smaller at every child when there is no cycle. */
  ghost function Rank(g: Links, a: nat): nat {
    |Descendants(g, a)|
  }

  lemma EdgeReaches(g: Links, a: nat, b: nat)
    requires Edge(g, a, b)
    ensures Reaches(g, a, b)
  {
    assert PathFromTo(g, [a, b], a, b);
  }

  lemma ReachesTransitive(g: Links, a: nat, b: nat, c: nat)
    requires Reaches(g, a, b) && Reaches(g, b, c)
    ensures Reaches(g, a, c)
  {
    var p :| PathFromTo(g, p, a, b);
    var q :| PathFromTo(g, q, b, c);
    var r := p + q[1..];
    forall i | 0 <= i < |r| - 1 ensures Edge(g, r[i], r[i + 1]) {
      if i >= |p| - 1 {
        assert r[i] == q[i - |p| + 1];
      }
    }
    assert PathFromTo(g, r, a, c);
  }

  lemma ReachesInBounds(g: Links, a: nat, b: nat)
    requires WellFormed(g) && Reaches(g, a, b)
    ensures a < |g| && b < |g|
  {
    var p :| PathFromTo(g, p, a, b);
    assert Edge(g, p[|p| - 2], p[|p| - 2 + 1]);
  }

  /** Reachability unfolds at the first link. */
  lemma ReachesFirstLink(g: Links, a: nat, b: nat)
    ensures Reaches(g, a, b) <==> exists c: nat :: Edge(g, a, c) && (c == b || Reaches(g, c, b))
  {
    if Reaches(g, a, b) {
      var p :| PathFromTo(g, p, a, b);
      assert Edge(g, p[0], p[0 + 1]);
      if |p| > 2 {
        assert Edge(g, p[1], p[1 + 1]);
        var q := p[1..];
        forall i | 0 <= i < |q| - 1 ensures Edge(g, q[i], q[i + 1]) {
          assert Edge(g, p[i + 1], p[i + 1 + 1]);
        }
        assert PathFromTo(g, q, p[1], b);
      }
    }
    if c: nat :| Edge(g, a, c) && (c == b || Reaches(g, c, b)) {
      EdgeReaches(g, a, c);
      if c != b {
        ReachesTransitive(g, a, c, b);
      }
    }
  }

  /** The termination measure of every recursion over a graph without cycles. */
  lemma RankDecreases(g: Links, a: nat, b: nat)
    requires WellFormed(g) && Acyclic(g) && Edge(g, a, b)
    ensures b < |g| && Rank(g, b) < Rank(g, a)
  {
    EdgeReaches(g, a, b);
    ReachesInBounds(g, a, b);
    forall c | c in Descendants(g, b) ensures c in Descendants(g, a) {
      ReachesTransitive(g, a, b, c);
    }
    assert b in Descendants(g, a) && b !in Descendants(g, b);
    assert Descendants(g, b) < Descendants(g, a);
    ProperSubsetIsSmaller(Descendants(g, b), Descendants(g, a));
  }

  lemma {:induction false} ProperSubsetIsSmaller(s: set<nat>, t: set<nat>)
    requires s < t
    ensures |s| < |t|
  {
    assert |t| == |s| + |t - s| by { assert t == s + (t - s); }
    assert t - s != {};
  }
}
