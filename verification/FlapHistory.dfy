/**
 The arithmetic of flap detection (base/flapping.c): the curved percentage of state changes over
 a chronological list of states, and the flag it drives.
 */
module FlapHistory {
  const LOW_CURVE_VALUE := 0.75
  const HIGH_CURVE_VALUE := 1.25

  /** The weight of a change between states x - 1 and x of n. */
  function Weight(n: nat, x: nat): real
    requires n >= 3
  {
    ((x - 1) as real * (HIGH_CURVE_VALUE - LOW_CURVE_VALUE)) / (n - 2) as real + LOW_CURVE_VALUE
  }

  /** The oldest change weighs 0.75, the latest 1.25, and those between are equally spaced. */
  lemma WeightsBetween(n: nat, x: nat)
    requires n >= 3
    ensures Weight(n, 1) == 0.75 && Weight(n, n - 1) == 1.25
    ensures Weight(n, x + 1) - Weight(n, x) == 0.5 / (n - 2) as real
  {
  }

  /** The weighted changes among the first k states of a history, oldest first. */
  function CurvedChanges(h: seq<int>, k: nat): real
    requires |h| >= 3 && k <= |h|
  {
    if k <= 1 then 0.0
    else CurvedChanges(h, k - 1) + if h[k - 2] != h[k - 1] then Weight(|h|, k - 1) else 0.0
  }

  function Percent(h: seq<int>): real
    requires |h| >= 3
  {
    CurvedChanges(h, |h|) * 100.0 / (|h| - 1) as real
  }

  /** What CurvedChanges is when every state differs from the one before it. */
  ghost function AllWeights(n: nat, k: nat): real
    requires n >= 3
  {
    if k <= 1 then 0.0 else AllWeights(n, k - 1) + Weight(n, k - 1)
  }

  lemma WeightScaled(n: nat, x: nat)
    requires n >= 3
    ensures Weight(n, x) * (n - 2) as real == (x - 1) as real * 0.5 + 0.75 * (n - 2) as real
  {
    var d, e := (n - 2) as real, (x - 1) as real * 0.5;
    assert (e / d + 0.75) * d == e + 0.75 * d;
  }

  lemma WeightsIncrease(n: nat, x: nat, y: nat)
    requires n >= 3 && 1 <= x < y
    ensures 0.75 <= Weight(n, x) < Weight(n, y)
  {
    var d := (n - 2) as real;
    Quotients(0.0, (x - 1) as real * 0.5, d);
    assert (x - 1) as real * 0.5 < (y - 1) as real * 0.5;
    Quotients((x - 1) as real * 0.5, (y - 1) as real * 0.5, d);
  }

  lemma Quotients(a: real, b: real, d: real)
    requires d > 0.0
    ensures a < b ==> a / d < b / d
    ensures a == b ==> a / d == b / d
    ensures 0.0 / d == 0.0
  {
    assert (b - a) / d == b / d - a / d;
    assert b - a > 0.0 ==> (b - a) / d > 0.0;
  }

  lemma {:induction false} AllWeightsScaled(n: nat, k: nat)
    requires n >= 3 && k >= 1
    ensures AllWeights(n, k) * (n - 2) as real == 0.75 * (k - 1) as real * (n - 2) as real +
      0.25 * (k - 1) as real * (k - 2) as real
  {
    if k > 1 {
      AllWeightsScaled(n, k - 1);
      WeightScaled(n, k - 1);
      var d, x := (n - 2) as real, k as real;
      assert AllWeights(n, k) * d == AllWeights(n, k - 1) * d + Weight(n, k - 1) * d;
      assert 0.25 * (x - 2.0) * (x - 3.0) + (x - 2.0) * 0.5 == 0.25 * (x - 1.0) * (x - 2.0);
      assert 0.75 * (x - 2.0) * d + 0.75 * d == 0.75 * (x - 1.0) * d;
    }
  }

  /** The weights of all n - 1 possible changes add up to n - 1. */
  lemma AllWeightsTotal(n: nat)
    requires n >= 3
    ensures AllWeights(n, n) == (n - 1) as real
  {
    AllWeightsScaled(n, n);
    var d, s := (n - 2) as real, (n - 1) as real;
    assert AllWeights(n, n) * d == 0.75 * s * d + 0.25 * s * d == s * d;
    var w := AllWeights(n, n);
    assert (w - s) * d == w * d - s * d == 0.0;
    assert d > 0.0;
  }

  lemma {:induction false} ChangesBetweenBounds(h: seq<int>, k: nat)
    requires |h| >= 3 && 1 <= k <= |h|
    ensures 0.0 <= CurvedChanges(h, k) <= AllWeights(|h|, k)
    ensures CurvedChanges(h, k) == 0.0 <==> forall i :: 1 <= i < k ==> h[i - 1] == h[i]
    ensures CurvedChanges(h, k) == AllWeights(|h|, k) <==> forall i :: 1 <= i < k ==> h[i - 1] != h[i]
  {
    if k > 1 {
      ChangesBetweenBounds(h, k - 1);
      WeightsIncrease(|h|, k - 1, k);
      assert h[k - 1 - 1] == h[k - 2];
    }
  }

  /** The percentage lies in [0, 100]; the ends are reached exactly by no change and by nothing but changes. */
  lemma PercentBounds(h: seq<int>)
    requires |h| >= 3
    ensures 0.0 <= Percent(h) <= 100.0
    ensures Percent(h) == 0.0 <==> forall i :: 1 <= i < |h| ==> h[i - 1] == h[i]
    ensures Percent(h) == 100.0 <==> forall i :: 1 <= i < |h| ==> h[i - 1] != h[i]
  {
    ChangesBetweenBounds(h, |h|);
    AllWeightsTotal(|h|);
    Percentage(CurvedChanges(h, |h|), (|h| - 1) as real);
  }

  lemma Percentage(c: real, s: real)
    requires 0.0 <= c <= s && s > 0.0
    ensures 0.0 <= c * 100.0 / s <= 100.0
    ensures c * 100.0 / s == 0.0 <==> c == 0.0
    ensures c * 100.0 / s == 100.0 <==> c == s
  {
    var q := c * 100.0 / s;
    assert q * s == c * 100.0;
    assert q < 0.0 ==> q * s < 0.0;
    assert q > 100.0 ==> (q - 100.0) * s > 0.0;
  }

  // ---------- the ring buffer ----------

  /** The states of a ring buffer whose next slot is index, oldest first. */
  function Chronological(ring: seq<int>, index: nat): seq<int>
    requires index < |ring|
  {
    ring[index..] + ring[..index]
  }

  function Record(h: seq<int>, state: int): seq<int>
    requires h != []
  {
    h[1..] + [state]
  }

  lemma RecordInRing(ring: seq<int>, index: nat, state: int)
    requires index < |ring|
    ensures
      var next := if index + 1 >= |ring| then 0 else index + 1;
      Chronological(ring[index := state], next) == Record(Chronological(ring, index), state)
  {
  }

  function RecordAll(h: seq<int>, states: seq<int>): (r: seq<int>)
    requires h != []
    ensures |r| == |h|
  {
    if states == [] then h else Record(RecordAll(h, states[..|states| - 1]), states[|states| - 1])
  }

  /** Any run of recordings leaves the last |h| states, in order. */
  lemma {:induction false} RecordAllKeepsLatest(h: seq<int>, states: seq<int>)
    requires h != []
    ensures RecordAll(h, states) == (h + states)[|states|..]
  {
    if states != [] {
      var before := states[..|states| - 1];
      RecordAllKeepsLatest(h, before);
      assert h + states == (h + before) + [states[|states| - 1]];
    }
  }

  // ---------- the flag ----------

  /** Between the thresholds the flag stays; at or below low it falls, at or above high it rises. */
  function Decide(flapping: bool, percent: real, low: real, high: real): bool {
    if percent <= low then false else if percent >= high then true else flapping
  }

  /** The flag after a run of recorded states, starting from a history. */
  function FlagAfter(h: seq<int>, flapping: bool, low: real, high: real, states: seq<int>): bool
    requires |h| >= 3
  {
    if states == [] then flapping
    else Decide(FlagAfter(h, flapping, low, high, states[..|states| - 1]), Percent(RecordAll(h, states)), low, high)
  }

  /** The flag falls at or below low, rises at or above high, and stays in between. */
  lemma FlagFollowsPercent(flapping: bool, percent: real, low: real, high: real)
    ensures percent <= low ==> !Decide(flapping, percent, low, high)
    ensures low < percent && high <= percent ==> Decide(flapping, percent, low, high)
    ensures low < percent < high ==> Decide(flapping, percent, low, high) == flapping
  {
  }

  // ---------- runs of checks, of which not all record ----------

  /** What one check makes of the current state: it ignores a soft problem, may not record a state, or records it. */
  datatype Look = Ignored | Unrecorded | Recorded(state: int)

  function HistoryAfter(h: seq<int>, look: Look): (r: seq<int>)
    requires h != []
    ensures |r| == |h|
  {
    if look.Recorded? then Record(h, look.state) else h
  }

  /** The flag after one check; a check that does not record decides anew on the same history. */
  function FlagAfterLook(h: seq<int>, flapping: bool, low: real, high: real, look: Look): bool
    requires |h| >= 3
  {
    if look.Ignored? then flapping else Decide(flapping, Percent(HistoryAfter(h, look)), low, high)
  }

  function HistoryRun(h: seq<int>, looks: seq<Look>): (r: seq<int>)
    requires h != []
    ensures |r| == |h|
  {
    if looks == [] then h else HistoryAfter(HistoryRun(h, looks[..|looks| - 1]), looks[|looks| - 1])
  }

  function FlagRun(h: seq<int>, flapping: bool, low: real, high: real, looks: seq<Look>): bool
    requires |h| >= 3
  {
    if looks == [] then flapping
    else
      var before := looks[..|looks| - 1];
      FlagAfterLook(HistoryRun(h, before), FlagRun(h, flapping, low, high, before), low, high, looks[|looks| - 1])
  }

  /** The states that a run of checks records. */
  function Recordings(looks: seq<Look>): seq<int> {
    if looks == [] then []
    else
      var before, look := Recordings(looks[..|looks| - 1]), looks[|looks| - 1];
      if look.Recorded? then before + [look.state] else before
  }

  /** The flag agrees with the percentage of the history. */
  predicate Agrees(h: seq<int>, flapping: bool, low: real, high: real)
    requires |h| >= 3
  {
    Decide(flapping, Percent(h), low, high) == flapping
  }

  /** A run of checks leaves the history where its recordings alone would. */
  lemma {:induction false} HistoryRunRecords(h: seq<int>, looks: seq<Look>)
    requires h != []
    ensures HistoryRun(h, looks) == RecordAll(h, Recordings(looks))
  {
    if looks != [] {
      var before, look := looks[..|looks| - 1], looks[|looks| - 1];
      HistoryRunRecords(h, before);
      if look.Recorded? {
        assert (Recordings(before) + [look.state])[..|Recordings(before)|] == Recordings(before);
      }
    }
  }

  /** So it does with a flag that agreed with the history before. */
  lemma {:induction false} OnlyRecordingsCount(h: seq<int>, flapping: bool, low: real, high: real, looks: seq<Look>)
    requires |h| >= 3 && Agrees(h, flapping, low, high)
    ensures FlagRun(h, flapping, low, high, looks) == FlagAfter(h, flapping, low, high, Recordings(looks))
    ensures Agrees(HistoryRun(h, looks), FlagRun(h, flapping, low, high, looks), low, high)
  {
    if looks != [] {
      var before, look := looks[..|looks| - 1], looks[|looks| - 1];
      OnlyRecordingsCount(h, flapping, low, high, before);
      HistoryRunRecords(h, looks);
      if look.Recorded? {
        var states := Recordings(before);
        assert (states + [look.state])[..|states|] == states;
      }
    }
  }

  /** At the k-th check of a run the percentage is past the threshold that the flag waits for. */
  ghost predicate LookCrosses(h: seq<int>, flapping: bool, low: real, high: real, looks: seq<Look>, k: nat)
    requires |h| >= 3
  {
    && 0 < k <= |looks| && !looks[k - 1].Ignored?
    && var percent := Percent(HistoryRun(h, looks[..k]));
    if flapping then percent <= low else percent >= high
  }

  /**
   Over any run of checks the flag turns on only at a percentage of at least high, and off only at one of at
   most low.
   */
  lemma {:induction false} FlagRunCrossesThreshold(h: seq<int>, flapping: bool, low: real, high: real, looks: seq<Look>)
    returns (k: nat)
    requires |h| >= 3 && FlagRun(h, flapping, low, high, looks) != flapping
    ensures LookCrosses(h, flapping, low, high, looks, k)
  {
    var before := looks[..|looks| - 1];
    if FlagRun(h, flapping, low, high, before) != flapping {
      k := FlagRunCrossesThreshold(h, flapping, low, high, before);
      assert looks[..k] == before[..k];
    } else {
      k := |looks|;
      assert looks[..k] == looks;
    }
  }

  /** Once the latest recordings, as many as the history holds, are all of one state, the service does not flap. */
  lemma {:induction false} SteadyRunEndsFlapping(h: seq<int>, flapping: bool, low: real, high: real, looks: seq<Look>,
                                                 state: int)
    requires |h| >= 3 && low >= 0.0 && |Recordings(looks)| >= |h|
    requires forall i :: |Recordings(looks)| - |h| <= i < |Recordings(looks)| ==> Recordings(looks)[i] == state
    ensures !FlagRun(h, flapping, low, high, looks)
  {
    var before, look := looks[..|looks| - 1], looks[|looks| - 1];
    if look.Ignored? {
      SteadyRunEndsFlapping(h, flapping, low, high, before, state);
    } else {
      var states := Recordings(looks);
      HistoryRunRecords(h, looks);
      RecordAllKeepsLatest(h, states);
      var latest := HistoryRun(h, looks);
      forall i | 0 <= i < |latest| ensures latest[i] == state {
        assert latest[i] == states[|states| - |h| + i];
      }
      PercentBounds(latest);
    }
  }
}
