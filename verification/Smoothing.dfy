/**
 Smoothing of the schedule (adjust_check_scheduling): the checks that are due within a window are
 spread evenly over it when some of them come too close together.
 */
module Smoothing {
  import opened Wrappers
  import opened EventQueue

  function Delay(window: int, total: nat): real
    requires total > 0
  {
    window as real / total as real
  }

  /** How far into the window the i-th of the checks belongs. */
  function Offset(window: int, total: nat, i: nat): real
    requires total > 0
  {
    Midpoint(Delay(window, total), i)
  }

  function Midpoint(delay: real, i: nat): real {
    delay * 0.5 + delay * i as real
  }

  function NewTime(start: int, offset: real): When {
    When(start + offset.Floor, ((offset - offset.Floor as real) * 1000000.0).Floor)
  }

  function Slot(start: int, window: int, total: nat, i: nat): When
    requires total > 0
  {
    NewTime(start, Offset(window, total, i))
  }

  function Micros(w: When): int {
    w.sec * 1000000 + w.usec
  }

  lemma TimeInMicros(start: int, offset: real)
    ensures Micros(NewTime(start, offset)) == start * 1000000 + (offset * 1000000.0).Floor
    ensures 0 <= NewTime(start, offset).usec < 1000000
  {
    var whole := offset.Floor;
    var fraction := offset - whole as real;
    assert offset * 1000000.0 == (whole * 1000000) as real + fraction * 1000000.0;
  }

  lemma OffsetsIncrease(window: int, total: nat, i: nat, j: nat)
    requires window > 0 && i < j && total > 0
    ensures Delay(window, total) > 0.0
    ensures Offset(window, total, i) + Delay(window, total) <= Offset(window, total, j)
  {
    Multiples(Delay(window, total), i, j);
  }

  lemma Multiples(d: real, i: nat, j: nat)
    requires d > 0.0 && i < j
    ensures Midpoint(d, i) + d <= Midpoint(d, j)
  {
    assert d * j as real == d * i as real + d * (j - i) as real;
    assert d * (j - i - 1) as real >= 0.0;
  }

  lemma RoomForEach(window: int, total: nat)
    requires window > 0 && 0 < total <= window * 1000000
    ensures Delay(window, total) * 1000000.0 >= 1.0
  {
    var delay := Delay(window, total);
    assert delay * total as real == window as real;
    if delay * 1000000.0 < 1.0 {
      assert (delay * 1000000.0) * total as real < 1.0 * total as real;
    }
  }

  /** The checks are spread evenly: the same distance apart, with half of it before the first and after the last. */
  lemma EvenlySpread(window: int, total: nat, i: nat)
    requires total > 0
    ensures Offset(window, total, i + 1) - Offset(window, total, i) == window as real / total as real
    ensures Offset(window, total, 0) + Offset(window, total, total - 1) == window as real
    ensures Slot(0, window, total, 0).sec == Offset(window, total, 0).Floor
  {
    var delay := Delay(window, total);
    NextMidpoint(delay, i);
    assert delay * total as real == window as real;
    assert delay * (total - 1) as real == delay * total as real - delay;
  }

  /** Every new time falls into the window, its end excluded. */
  lemma SlotInWindow(start: int, window: int, total: nat, i: nat)
    requires window > 0 && i < total
    ensures start <= Slot(start, window, total, i).sec < start + window
  {
    var delay := Delay(window, total);
    assert delay * total as real == window as real;
    OffsetsIncrease(window, total, i, total);
    assert 0.0 <= delay * i as real;
    assert Offset(window, total, i) < window as real;
  }

  /** The new times keep the order of the checks. */
  lemma SlotsInOrder(start: int, window: int, total: nat, i: nat, j: nat)
    requires window > 0 && i < j && total > 0
    ensures NotAfter(Slot(start, window, total, i), Slot(start, window, total, j))
  {
    OffsetsIncrease(window, total, i, j);
    TimeInMicros(start, Offset(window, total, i));
    TimeInMicros(start, Offset(window, total, j));
  }

  predicate AllDistinct(start: int, window: int, total: nat)
    requires total > 0
  {
    forall i, j | 0 <= i < j < total :: Slot(start, window, total, i) != Slot(start, window, total, j)
  }

  lemma {:induction false} DistinctSlotsCount(start: int, window: int, total: nat, i: nat)
    requires window > 0 && i < total && AllDistinct(start, window, total)
    ensures Micros(Slot(start, window, total, i)) >= start * 1000000 + i
  {
    TimeInMicros(start, Offset(window, total, i));
    if i == 0 {
      SlotInWindow(start, window, total, 0);
    } else {
      DistinctSlotsCount(start, window, total, i - 1);
      SlotsInOrder(start, window, total, i - 1, i);
      TimeInMicros(start, Offset(window, total, i - 1));
      assert Slot(start, window, total, i - 1) != Slot(start, window, total, i);
    }
  }

  /** The new times are strictly increasing exactly when the window has a microsecond for every check. */
  lemma SlotsDistinctIff(start: int, window: int, total: nat)
    requires window > 0 && total > 0
    ensures AllDistinct(start, window, total) <==> total <= window * 1000000
  {
    if AllDistinct(start, window, total) {
      DistinctSlotsCount(start, window, total, total - 1);
      SlotInWindow(start, window, total, total - 1);
      TimeInMicros(start, Offset(window, total, total - 1));
    }
    if total <= window * 1000000 {
      RoomForEach(window, total);
      forall i, j | 0 <= i < j < total ensures Slot(start, window, total, i) != Slot(start, window, total, j) {
        OffsetsIncrease(window, total, i, j);
        TimeInMicros(start, Offset(window, total, i));
        TimeInMicros(start, Offset(window, total, j));
        assert Offset(window, total, j) * 1000000.0 >= Offset(window, total, i) * 1000000.0 + 1.0;
      }
    }
  }

  lemma NextMidpoint(d: real, i: nat)
    ensures Midpoint(d, i) + d == Midpoint(d, i + 1)
  {
    assert d * (i + 1) as real == d * i as real + d;
  }

  /** A check of an object that is not to be forced, due within the window. */
  predicate Eligible(s: Scheduler, e: TimedEvent, first: int, last: int)
    reads s`checkOptions, e`eventType, e`eventData, e`runTime
  {
    && e.eventData.Some? && first <= e.runTime <= last && e.IsCheck()
    && !(e.eventData.value in s.checkOptions && CHECK_OPTION_FORCE_EXECUTION in s.checkOptions[e.eventData.value])
  }

  /** A check of a service or a host, not forced, due within the window. */
  predicate MayMove(e: TimedEvent, first: int, last: int)
    reads e`eventType, e`eventOptions, e`runTime
  {
    && (e.eventType == 0 || e.eventType == 12)
    && 0 !in e.eventOptions && first <= e.runTime && e.runTime <= last
  }

  /** The object and its event agree on whether the check is forced. */
  lemma EligibleIff(s: Scheduler, e: TimedEvent, first: int, last: int)
    requires s.Linked(null) && e in s.queue
    ensures Eligible(s, e, first, last) <==> MayMove(e, first, last)
  {
  }

  /** Milliseconds from one time to a later one, rounded down. */
  function DeltaMsec(from: When, to: When): int {
    (Micros(to) - Micros(from)) / 1000
  }

  predicate TooClose(from: When, to: When, threshold: real) {
    from.sec > 0 && DeltaMsec(from, to) as real < threshold * 1000.0
  }

  /** Whole milliseconds from one time to the next. */
  function Gap(times: seq<When>, i: nat): int
    requires i < |times| - 1
  {
    ((times[i + 1].sec - times[i].sec) * 1000000 + times[i + 1].usec - times[i].usec) / 1000
  }

  /** Two neighbours are too close if they are less than the threshold, in seconds, apart. */
  lemma TooCloseIff(times: seq<When>, threshold: real)
    ensures SomeTooClose(times, threshold) <==>
      exists i: nat :: i < |times| - 1 && times[i].sec > 0 && Gap(times, i) as real / 1000.0 < threshold
  {
    forall i: nat | i < |times| - 1
      ensures TooClose(times[i], times[i + 1], threshold) <==>
        (times[i].sec > 0 && Gap(times, i) as real / 1000.0 < threshold)
    {
    }
  }

  /** The times under which some events are queued. */
  ghost predicate QueuedAt(events: seq<TimedEvent>, times: seq<When>)
    reads set i | 0 <= i < |events| :: events[i]`sqEvent
  {
    |events| == |times| && forall i | 0 <= i < |events| :: events[i].sqEvent == Some(times[i])
  }

  predicate Ascending(times: seq<When>) {
    forall i, j | 0 <= i < j < |times| :: NotAfter(times[i], times[j])
  }

  predicate Distinct(events: seq<TimedEvent>) {
    forall i, j | 0 <= i < j < |events| :: events[i] != events[j]
  }

  predicate SomeTooClose(times: seq<When>, threshold: real) {
    exists i :: 0 <= i < |times| - 1 && TooClose(times[i], times[i + 1], threshold)
  }

  lemma OneMoreTooClose(times: seq<When>, t: When, threshold: real)
    ensures SomeTooClose(times + [t], threshold) <==>
      SomeTooClose(times, threshold) || (times != [] && TooClose(times[|times| - 1], t, threshold))
  {
    var longer := times + [t];
    if i :| 0 <= i < |times| - 1 && TooClose(times[i], times[i + 1], threshold) {
      assert longer[i] == times[i] && longer[i + 1] == times[i + 1];
    }
    if times != [] && TooClose(times[|times| - 1], t, threshold) {
      assert longer[|times| - 1] == times[|times| - 1] && longer[|times| - 1 + 1] == t;
    }
  }

  /** An event that is due after the window stands before an event, or with it. */
  ghost predicate CutShort(s: Scheduler, e: TimedEvent, last: int)
    reads s`queue, e`sqEvent, set f | f in s.queue :: f`runTime, set f | f in s.queue :: f`sqEvent
  {
    exists f :: f in s.queue && f.runTime > last && f.sqEvent.Some? && e.sqEvent.Some? &&
      NotAfter(f.sqEvent.value, e.sqEvent.value)
  }

  /** Every eligible check is among the given ones, unless the search was cut short before it. */
  ghost predicate AllGathered(s: Scheduler, checks: seq<TimedEvent>, first: int, last: int)
    reads s`queue, s`checkOptions, set e | e in s.queue :: e`eventType, set e | e in s.queue :: e`eventData,
          set e | e in s.queue :: e`runTime, set e | e in s.queue :: e`sqEvent
  {
    forall e :: e in s.queue && Eligible(s, e, first, last) ==> e in checks || CutShort(s, e, last)
  }

  /** None of the given events stands after a check that is due after the window. */
  ghost predicate NoneBeyond(s: Scheduler, checks: seq<TimedEvent>, first: int, last: int)
    reads s`queue, set e | e in checks :: e`sqEvent, set e | e in s.queue :: e`eventData,
          set e | e in s.queue :: e`runTime, set e | e in s.queue :: e`sqEvent
  {
    forall e, f :: e in checks && f in s.queue && f.eventData.Some? && first <= f.runTime && last < f.runTime ==>
      e.sqEvent.Some? && f.sqEvent.Some? && NotAfter(e.sqEvent.value, f.sqEvent.value)
  }

  /** Nothing is cut short when the clock has not gone back since the events were queued. */
  lemma NothingCutShort(s: Scheduler, e: TimedEvent, last: int)
    requires s.Sound() && s.clock <= last && e in s.queue && e.runTime <= last
    ensures !CutShort(s, e, last)
  {
    assert e.InStep(s.clock);
    forall f | f in s.queue && f.runTime > last ensures !NotAfter(f.sqEvent.value, e.sqEvent.value) {
      assert f.InStep(s.clock);
    }
  }

  /** The eligible checks in the order of the queue, and whether some come too close together. */
  method Collect(s: Scheduler, first: int, last: int, threshold: real)
    returns (checks: seq<TimedEvent>, overlap: bool, ghost times: seq<When>)
    requires forall e :: e in s.queue ==> e.sqEvent.Some?
    ensures Distinct(checks) && QueuedAt(checks, times) && Ascending(times)
    ensures forall e :: e in checks ==> e in s.queue && Eligible(s, e, first, last)
    ensures AllGathered(s, checks, first, last) && NoneBeyond(s, checks, first, last)
    ensures overlap <==> SomeTooClose(times, threshold)
  {
    checks, overlap, times := [], false, [];
    var previous := When(0, 0);
    var rest := s.queue;
    while rest != {}
      invariant rest <= s.queue
      invariant Distinct(checks) && QueuedAt(checks, times) && Ascending(times)
      invariant forall e :: e in checks ==> e in s.queue - rest && Eligible(s, e, first, last)
      invariant forall i, f :: 0 <= i < |times| && f in rest ==> NotAfter(times[i], f.sqEvent.value)
      invariant forall e :: e in s.queue - rest && Eligible(s, e, first, last) ==> e in checks
      invariant previous == if times == [] then When(0, 0) else times[|times| - 1]
      invariant overlap <==> SomeTooClose(times, threshold)
      invariant forall f :: f in s.queue - rest && f.eventData.Some? && first <= f.runTime ==> f.runTime <= last
      decreases rest
    {
      var e := Earliest(rest);
      rest := rest - {e};
      if e.eventData == None || e.runTime < first {
        continue;
      }
      if e.runTime > last {
        break;
      }
      if !Eligible(s, e, first, last) {
        continue;
      }
      OneMoreTooClose(times, e.sqEvent.value, threshold);
      if TooClose(previous, e.sqEvent.value, threshold) {
        overlap := true;
      }
      previous := e.sqEvent.value;
      checks, times := checks + [e], times + [e.sqEvent.value];
    }
  }

  /** The objects that some events check, all different. */
  ghost predicate ObjectsOf(events: seq<TimedEvent>, objects: seq<CheckedObject>)
    reads set i | 0 <= i < |events| :: events[i]`eventData
  {
    && |events| == |objects| && (forall i | 0 <= i < |events| :: events[i].eventData == Some(objects[i]))
    && forall i, j | 0 <= i < j < |objects| :: objects[i] != objects[j]
  }

  /** Whether the i-th object may be checked at its slot. */
  predicate Movable(objects: seq<CheckedObject>, start: int, window: int, inPeriod: (CheckedObject, int) -> bool,
                    i: nat)
    requires i < |objects|
  {
    inPeriod(objects[i], Slot(start, window, |objects|, i).sec)
  }

  /** The run times of some events. */
  ghost predicate DueAt(events: seq<TimedEvent>, dues: seq<int>)
    reads set i | 0 <= i < |events| :: events[i]`runTime
  {
    |events| == |dues| && forall i | 0 <= i < |events| :: events[i].runTime == dues[i]
  }

  ghost function RunTimes(events: seq<TimedEvent>): (dues: seq<int>)
    reads set i | 0 <= i < |events| :: events[i]`runTime
    ensures DueAt(events, dues)
  {
    if events == [] then []
    else
      var last := |events| - 1;
      assert forall i | 0 <= i < last :: events[..last][i] == events[i];
      RunTimes(events[..last]) + [events[last].runTime]
  }

  /** The first k checks are at their slots, unless they may not run then; the others are at the times they had. */
  ghost predicate AtSlots(checks: seq<TimedEvent>, objects: seq<CheckedObject>, times: seq<When>, dues: seq<int>,
                          start: int, window: int, inPeriod: (CheckedObject, int) -> bool, k: nat)
    requires |checks| == |objects| == |times| == |dues|
    reads set i | 0 <= i < |checks| :: checks[i]`sqEvent, set i | 0 <= i < |checks| :: checks[i]`runTime
  {
    forall i | 0 <= i < |checks| ::
      if i < k && Movable(objects, start, window, inPeriod, i)
      then checks[i].sqEvent == Some(Slot(start, window, |checks|, i)) &&
        checks[i].runTime == Slot(start, window, |checks|, i).sec
      else checks[i].sqEvent == Some(times[i]) && checks[i].runTime == dues[i]
  }

  /** A check moves to its slot exactly if its object may be checked there. */
  lemma OnlyIntoPeriods(checks: seq<TimedEvent>, objects: seq<CheckedObject>, times: seq<When>, dues: seq<int>,
                        start: int, window: int, inPeriod: (CheckedObject, int) -> bool, i: nat)
    requires i < |checks| == |objects| == |times| == |dues|
    requires AtSlots(checks, objects, times, dues, start, window, inPeriod, |checks|)
    ensures
      var slot := Slot(start, window, |checks|, i);
      checks[i].sqEvent == Some(if inPeriod(objects[i], slot.sec) then slot else times[i])
      && checks[i].runTime == if inPeriod(objects[i], slot.sec) then slot.sec else dues[i]
  {
  }

  /** The next check times once the first k objects have been moved to their slots. */
  ghost function Moved(next: map<CheckedObject, int>, objects: seq<CheckedObject>, start: int, window: int,
                       inPeriod: (CheckedObject, int) -> bool, k: nat): map<CheckedObject, int>
    requires k <= |objects|
  {
    if k == 0 then next
    else
      var before := Moved(next, objects, start, window, inPeriod, k - 1);
      if Movable(objects, start, window, inPeriod, k - 1)
      then before[objects[k - 1] := Slot(start, window, |objects|, k - 1).sec]
      else before
  }

  /** Moved objects are checked next at their slot; all others keep their time. */
  lemma {:induction false} MovedTimes(next: map<CheckedObject, int>, objects: seq<CheckedObject>, start: int,
                                      window: int, inPeriod: (CheckedObject, int) -> bool, k: nat, o: CheckedObject)
    requires k <= |objects|
    requires forall i, j | 0 <= i < j < |objects| :: objects[i] != objects[j]
    ensures var after := Moved(next, objects, start, window, inPeriod, k);
      && (forall i | 0 <= i < k && objects[i] == o && Movable(objects, start, window, inPeriod, i) ::
            o in after && after[o] == Slot(start, window, |objects|, i).sec)
      && ((forall i | 0 <= i < k && objects[i] == o :: !Movable(objects, start, window, inPeriod, i)) ==>
            (o in after <==> o in next) && (o in after ==> after[o] == next[o]))
  {
    if k > 0 {
      MovedTimes(next, objects, start, window, inPeriod, k - 1, o);
    }
  }

  /** Moves a queued check. */
  method Move(s: Scheduler, e: TimedEvent, slot: When)
    requires s.Sound() && e in s.queue && e.eventData.Some?
    modifies s`nextCheck, e`runTime, e`sqEvent
    ensures s.Sound() && e.runTime == slot.sec && e.sqEvent == Some(slot)
    ensures s.nextCheck == old(s.nextCheck)[e.eventData.value := slot.sec]
  {
    s.nextCheck := s.nextCheck[e.eventData.value := slot.sec];
    e.runTime := slot.sec;
    e.sqEvent := Some(slot);
  }

  /** Gives every check its slot, unless it may not run then. */
  method Spread(s: Scheduler, checks: seq<TimedEvent>, start: int, window: int, inPeriod: (CheckedObject, int) -> bool,
                ghost objects: seq<CheckedObject>, ghost times: seq<When>, ghost dues: seq<int>)
    requires s.Sound() && checks != [] && Distinct(checks) && ObjectsOf(checks, objects)
    requires QueuedAt(checks, times) && DueAt(checks, dues) && forall e :: e in checks ==> e in s.queue
    modifies s`nextCheck, (set e | e in checks)`runTime, (set e | e in checks)`sqEvent
    ensures s.Sound()
    ensures AtSlots(checks, objects, times, dues, start, window, inPeriod, |checks|)
    ensures s.nextCheck == Moved(old(s.nextCheck), objects, start, window, inPeriod, |checks|)
  {
    var delay := Delay(window, |checks|);
    var offset := delay * 0.5;
    for i := 0 to |checks|
      invariant s.Sound() && offset == Midpoint(delay, i)
      invariant AtSlots(checks, objects, times, dues, start, window, inPeriod, i)
      invariant s.nextCheck == Moved(old(s.nextCheck), objects, start, window, inPeriod, i)
    {
      var slot := NewTime(start, offset);
      assert slot == Slot(start, window, |checks|, i);
      if inPeriod(checks[i].eventData.value, slot.sec) {
        Move(s, checks[i], slot);
      }
      NextMidpoint(delay, i);
      offset := offset + delay;
    }
  }

  /** Collects the eligible checks; there are none when the first event comes after the window. */
  method Gather(s: Scheduler, first: int, last: int, threshold: real)
    returns (checks: seq<TimedEvent>, overlap: bool, ghost times: seq<When>)
    requires s.Sound() && first <= last
    ensures Distinct(checks) && QueuedAt(checks, times) && Ascending(times)
    ensures forall e :: e in checks ==> e in s.queue && Eligible(s, e, first, last)
    ensures AllGathered(s, checks, first, last) && NoneBeyond(s, checks, first, last)
    ensures overlap <==> SomeTooClose(times, threshold)
  {
    checks, overlap, times := [], false, [];
    var e := s.Peek();
    if e == null || e.runTime > last {
      return;
    }
    checks, overlap, times := Collect(s, first, last, threshold);
  }

  /** What some events are about. */
  ghost function Data(events: seq<TimedEvent>): (objects: seq<CheckedObject>)
    requires forall i | 0 <= i < |events| :: events[i].eventData.Some?
    reads set i | 0 <= i < |events| :: events[i]`eventData
    ensures |objects| == |events| && forall i | 0 <= i < |events| :: events[i].eventData == Some(objects[i])
  {
    if events == [] then []
    else
      var last := |events| - 1;
      assert forall i | 0 <= i < last :: events[..last][i] == events[i];
      Data(events[..last]) + [events[last].eventData.value]
  }

  /** Different pending checks belong to different objects. */
  lemma OwnObjects(s: Scheduler, checks: seq<TimedEvent>) returns (objects: seq<CheckedObject>)
    requires s.Linked(null) && Distinct(checks)
    requires forall e :: e in checks ==> e in s.queue && e.IsCheck()
    ensures ObjectsOf(checks, objects)
  {
    assert forall i | 0 <= i < |checks| :: checks[i] in checks;
    objects := Data(checks);
  }

  /** The checks to spread, their objects, and the times they have. */
  method Plan(s: Scheduler, first: int, last: int, threshold: real)
    returns (checks: seq<TimedEvent>, overlap: bool, ghost objects: seq<CheckedObject>, ghost times: seq<When>,
             ghost dues: seq<int>)
    requires s.Sound() && s.Linked(null) && first <= last
    ensures Distinct(checks) && QueuedAt(checks, times) && Ascending(times) && DueAt(checks, dues) &&
      ObjectsOf(checks, objects)
    ensures forall e :: e in checks ==> e in s.queue && MayMove(e, first, last)
    ensures AllGathered(s, checks, first, last) && NoneBeyond(s, checks, first, last)
    ensures s.clock <= first ==> forall e :: e in s.queue && MayMove(e, first, last) ==> e in checks
    ensures overlap <==> SomeTooClose(times, threshold)
  {
    checks, overlap, times := Gather(s, first, last, threshold);
    dues := RunTimes(checks);
    objects := OwnObjects(s, checks);
    forall e | e in s.queue ensures Eligible(s, e, first, last) <==> MayMove(e, first, last) {
      EligibleIff(s, e, first, last);
    }
    forall e | s.clock <= first && e in s.queue && MayMove(e, first, last) ensures e in checks {
      NothingCutShort(s, e, last);
    }
  }

  /** Objects whose checks have moved to their slots are still to be checked at the time of their pending checks. */
  lemma MovedInTime(s: Scheduler, checks: seq<TimedEvent>, objects: seq<CheckedObject>, times: seq<When>,
                    dues: seq<int>, next: map<CheckedObject, int>, start: int, window: int,
                    inPeriod: (CheckedObject, int) -> bool)
    requires s.Linked(null) && |checks| == |times| == |dues| && ObjectsOf(checks, objects)
    requires AtSlots(checks, objects, times, dues, start, window, inPeriod, |checks|)
    requires s.nextCheck == Moved(next, objects, start, window, inPeriod, |checks|)
    requires forall i | 0 <= i < |checks| :: checks[i] in s.queue && checks[i].IsCheck()
    requires forall i | 0 <= i < |checks| :: objects[i] in next && dues[i] == next[objects[i]]
    requires forall o :: o in s.nextCheckEvent && s.nextCheckEvent[o] !in checks ==>
      o in next && s.nextCheckEvent[o].runTime == next[o]
    ensures s.InTime()
  {
    forall o | o in s.nextCheckEvent ensures o in s.nextCheck && s.nextCheck[o] == s.nextCheckEvent[o].runTime {
      MovedTimes(next, objects, start, window, inPeriod, |checks|, o);
      var e := s.nextCheckEvent[o];
      if e in checks {
        var i :| 0 <= i < |checks| && checks[i] == e;
        assert e.Checks(o) && objects[i] == o;
      } else {
        forall i | 0 <= i < |checks| ensures objects[i] != o {
          assert s.nextCheckEvent[objects[i]] == checks[i];
        }
      }
    }
  }

  /** Spreads the checks if there is an overlap. */
  method SpreadIf(s: Scheduler, overlap: bool, checks: seq<TimedEvent>, start: int, window: int,
                  inPeriod: (CheckedObject, int) -> bool, ghost objects: seq<CheckedObject>, ghost times: seq<When>,
                  ghost dues: seq<int>)
    requires s.Sound() && s.Linked(null) && (overlap ==> |checks| >= 2) && Distinct(checks) &&
      ObjectsOf(checks, objects)
    requires QueuedAt(checks, times) && DueAt(checks, dues) && forall e :: e in checks ==> e in s.queue && e.IsCheck()
    modifies s`nextCheck, (set e | e in checks)`runTime, (set e | e in checks)`sqEvent
    ensures s.Sound() && s.Linked(null) && (old(s.InTime()) ==> s.InTime())
    ensures overlap ==> AtSlots(checks, objects, times, dues, start, window, inPeriod, |checks|)
    ensures forall e :: e in s.queue && (e in checks ==> !overlap) ==>
      e.sqEvent == old(e.sqEvent) && e.runTime == old(e.runTime)
    ensures s.nextCheck ==
      if overlap then Moved(old(s.nextCheck), objects, start, window, inPeriod, |checks|) else old(s.nextCheck)
  {
    if |checks| < 2 || !overlap {
      return;
    }
    ghost var inTime, next := s.InTime(), s.nextCheck;
    assert forall i | 0 <= i < |checks| :: s.nextCheckEvent[objects[i]] == checks[i];
    Spread(s, checks, start, window, inPeriod, objects, times, dues);
    if inTime {
      MovedInTime(s, checks, objects, times, dues, next, start, window, inPeriod);
    }
  }

  /**
   Spreads the eligible checks over the window when two of them come too close together: every one
   gets its slot unless it may not run then. Nothing else changes, and no event comes or goes.
   */
  method AdjustCheckScheduling(s: Scheduler, now: int, window: int, interCheckDelay: real,
                               inPeriod: (CheckedObject, int) -> bool)
    returns (checks: seq<TimedEvent>, overlap: bool, ghost objects: seq<CheckedObject>, ghost times: seq<When>,
             ghost dues: seq<int>)
    requires s.Sound() && s.Linked(null) && window > 0
    modifies s`nextCheck, s.queue`runTime, s.queue`sqEvent
    ensures s.Sound() && s.Linked(null) && (old(s.InTime()) ==> s.InTime())
    ensures forall e :: e in checks ==> e in old(s.queue) && old(MayMove(e, now, now + window))
    ensures old(s.clock) <= now ==>
      forall e :: e in old(s.queue) && old(MayMove(e, now, now + window)) ==> e in checks
    ensures Distinct(checks) && ObjectsOf(checks, objects) && |times| == |dues| == |checks| && Ascending(times)
    ensures forall i | 0 <= i < |checks| ::
              checks[i] in old(s.queue) && old(checks[i].sqEvent) == Some(times[i]) && old(checks[i].runTime) == dues[i]
    ensures overlap <==> SomeTooClose(times, interCheckDelay * 0.25)
    ensures forall e :: e in s.queue && (e in checks ==> !overlap) ==>
              e.sqEvent == old(e.sqEvent) && e.runTime == old(e.runTime)
    ensures overlap ==> AtSlots(checks, objects, times, dues, now, window, inPeriod, |checks|)
    ensures s.nextCheck ==
      if overlap then Moved(old(s.nextCheck), objects, now, window, inPeriod, |checks|)
      else old(s.nextCheck)
  {
    checks, overlap, objects, times, dues := Plan(s, now, now + window, interCheckDelay * 0.25);
    SpreadIf(s, overlap, checks, now, window, inPeriod, objects, times, dues);
  }
}
