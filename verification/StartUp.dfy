/**
 Start-up of the schedule (init_timing_loop): services get slots so that checks of neighbours in
 the list, which mostly share a host, are spread apart; then every check is queued.
 */
module StartUp {
  import opened Wrappers
  import opened EventQueue
  import opened CheckScheduling

  /** A service when the daemon starts; checkable says whether its check period ever allows a check. */
  datatype Candidate = Candidate(checkInterval: real, checksEnabled: bool, checkable: bool, shouldBeScheduled: bool,
                                 nextCheck: int, checkWindow: int)

  predicate Schedulable(c: Candidate) {
    c.checkInterval != 0.0 && c.checksEnabled && c.checkable
  }

  function Schedule(c: Candidate): Candidate {
    if Schedulable(c) then c else c.(shouldBeScheduled := false)
  }

  /** A service that needs a slot: not one that is already due in the near future. */
  predicate Placed(c: Candidate, now: int) {
    c.shouldBeScheduled && !(0 < c.nextCheck - now < c.checkWindow)
  }

  function CountSchedulable(list: seq<Candidate>): nat {
    if list == [] then 0 else CountSchedulable(list[..|list| - 1]) + if Schedulable(list[|list| - 1]) then 1 else 0
  }

  function CountPlaced(list: seq<Candidate>, now: int): nat {
    if list == [] then 0 else CountPlaced(list[..|list| - 1], now) + if Placed(list[|list| - 1], now) then 1 else 0
  }

  /** The number of interleave blocks: the scheduled services over the factor, rounded up. */
  function Blocks(scheduled: nat, factor: nat): nat {
    if factor == 0 then scheduled else (scheduled + factor - 1) / factor
  }

  /** The interleave block of the n-th service that gets a slot, and its place in the block. */
  function Block(n: nat, factor: nat): nat
    requires factor > 0
  {
    if n < factor then 0 else Block(n - factor, factor) + 1
  }

  function Index(n: nat, factor: nat): nat
    requires factor > 0
  {
    if n < factor then n else Index(n - factor, factor)
  }

  /** The slot of the n-th service that gets one. */
  function Slot(n: nat, factor: nat, blocks: nat): nat
    requires factor > 0
  {
    Block(n, factor) + (Index(n, factor) + 1) * blocks
  }

  lemma {:induction false} BlockAndIndex(n: nat, factor: nat)
    requires factor > 0
    ensures n == Block(n, factor) * factor + Index(n, factor) && Index(n, factor) < factor
  {
    if n >= factor {
      BlockAndIndex(n - factor, factor);
      assert Block(n, factor) * factor == Block(n - factor, factor) * factor + factor;
    }
  }

  /** The slots of the services of a list, in its order. */
  function Slots(list: seq<Candidate>, now: int, factor: nat, blocks: nat): (r: seq<Option<nat>>)
    requires factor > 0
    ensures |r| == |list|
  {
    if list == [] then []
    else
      var before := list[..|list| - 1];
      Slots(before, now, factor, blocks) +
        [if Placed(list[|list| - 1], now) then Some(Slot(CountPlaced(before, now), factor, blocks)) else None]
  }

  /**
   How slots become times: the delay between checks, which times the check period of the service at a
   position allows, the next one it allows, and what chance has in store for a service whose slot lies too far away.
   */
  datatype Timing = Timing(interCheckDelay: real, allowed: (nat, int) -> bool, nextAllowed: (nat, int) -> int,
                           chance: nat -> int)

  predicate TimingOk(x: Timing, list: seq<Candidate>) {
    x.interCheckDelay >= 0.0 && forall i | 0 <= i < |list| :: 0 <= x.chance(i) <= list[i].checkWindow
  }

  /** How long after the start a slot comes. */
  function Delay(slot: nat, interCheckDelay: real): int {
    (slot as real * interCheckDelay).Floor
  }

  /** The delay that the service at position i gets: a time in its window by chance, if its slot lies beyond it. */
  function CheckDelay(c: Candidate, slot: nat, x: Timing, i: nat): int {
    if Delay(slot, x.interCheckDelay) > c.checkWindow then x.chance(i) else Delay(slot, x.interCheckDelay)
  }

  /** A service with a slot is checked after its delay, or as long after the next time its period allows. */
  function Timed(c: Candidate, slot: Option<nat>, x: Timing, i: nat, now: int): Candidate {
    match slot
    case None => c
    case Some(n) =>
      var delay := CheckDelay(c, n, x, i);
      c.(nextCheck := if x.allowed(i, now + delay) then now + delay else x.nextAllowed(i, now + delay) + delay)
  }

  /** The services have the times of their slots. */
  ghost predicate AllTimed(placed: seq<Candidate>, list: seq<Candidate>, from: nat, slots: seq<Option<nat>>, x: Timing,
                           now: int) {
    && |placed| == |slots| && from + |slots| <= |list|
    && forall k | 0 <= k < |slots| :: placed[k] == Timed(list[from + k], slots[k], x, from + k, now)
  }

  /** The places of the services with a check interval, with checks enabled, and with times to be checked at. */
  ghost function WithChecks(list: seq<Candidate>): set<nat> {
    set i: nat | i < |list| && list[i].checkInterval != 0.0 && list[i].checksEnabled && list[i].checkable
  }

  /** Those are counted. */
  lemma {:induction false} CountOf(list: seq<Candidate>)
    ensures CountSchedulable(list) == |WithChecks(list)|
  {
    if list != [] {
      var last := |list| - 1;
      CountOf(list[..last]);
      OneMoreWithChecks(list, last);
    }
  }

  lemma OneMoreWithChecks(list: seq<Candidate>, last: nat)
    requires last == |list| - 1
    ensures WithChecks(list) == WithChecks(list[..last]) + if last in WithChecks(list) then {last} else {}
    ensures last !in WithChecks(list[..last])
  {
    assert forall i: nat | i < last :: list[..last][i] == list[i];
  }

  /** Those to be scheduled get a slot, but for those already due within their window. */
  lemma SlotsGoTo(list: seq<Candidate>, now: int, factor: nat, blocks: nat, i: nat)
    requires factor > 0 && i < |list|
    ensures Slots(list, now, factor, blocks)[i].Some? <==>
      list[i].shouldBeScheduled && (list[i].nextCheck <= now || list[i].nextCheck >= now + list[i].checkWindow)
  {
    SlotAt(list, now, factor, blocks, i);
  }

  /** There are just enough blocks for all the services. */
  lemma JustEnoughBlocks(scheduled: nat, factor: nat)
    requires factor > 0
    ensures scheduled <= Blocks(scheduled, factor) * factor < scheduled + factor
  {
    var padded := scheduled + factor - 1;
    assert padded == padded / factor * factor + padded % factor;
  }

  /**
   A slot within the window is checked at its own time, or if the period forbids it, as long after the next
   allowed.
   */
  lemma TimeOfSlot(c: Candidate, slot: nat, x: Timing, i: nat, now: int)
    ensures
      var own := (slot as real * x.interCheckDelay).Floor;
      var delay := if own <= c.checkWindow then own else x.chance(i);
      && (x.allowed(i, now + delay) ==> Timed(c, Some(slot), x, i, now).nextCheck == now + delay)
      && (!x.allowed(i, now + delay) ==>
          Timed(c, Some(slot), x, i, now).nextCheck == x.nextAllowed(i, now + delay) + delay)
      && Timed(c, None, x, i, now) == c
  {
  }

  /** Counts the services to schedule, and marks those that should not be. */
  method DetermineScheduling(list: seq<Candidate>) returns (marked: seq<Candidate>, scheduled: nat)
    ensures |marked| == |list| && forall i | 0 <= i < |list| :: marked[i] == Schedule(list[i])
    ensures scheduled == CountSchedulable(list)
    ensures forall i | 0 <= i < |list| ::
      var wanted := list[i].checkInterval != 0.0 && list[i].checksEnabled && list[i].checkable;
      marked[i] == list[i].(shouldBeScheduled := wanted && list[i].shouldBeScheduled)
  {
    marked, scheduled := [], 0;
    for i := 0 to |list|
      invariant |marked| == i && forall k | 0 <= k < i :: marked[k] == Schedule(list[k])
      invariant scheduled == CountSchedulable(list[..i])
    {
      assert list[..i + 1][..i] == list[..i];
      if Schedulable(list[i]) {
        scheduled := scheduled + 1;
        marked := marked + [list[i]];
      } else {
        marked := marked + [list[i].(shouldBeScheduled := false)];
      }
    }
    assert list[..|list|] == list;
  }

  /** The slots and the number of placed services, one service further. */
  lemma OneMoreSlot(list: seq<Candidate>, i: nat, now: int, factor: nat, blocks: nat)
    requires factor > 0 && i < |list|
    ensures CountPlaced(list[..i + 1], now) == CountPlaced(list[..i], now) + if Placed(list[i], now) then 1 else 0
    ensures Slots(list[..i + 1], now, factor, blocks) == Slots(list[..i], now, factor, blocks) +
      [if Placed(list[i], now) then Some(Slot(CountPlaced(list[..i], now), factor, blocks)) else None]
  {
    assert list[..i + 1][..i] == list[..i];
  }

  /** Sets the time of the check of a service that has a slot. */
  method AtSlot(c: Candidate, multFactor: nat, x: Timing, i: nat, now: int) returns (placed: Candidate)
    ensures placed == Timed(c, Some(multFactor), x, i, now)
  {
    var checkDelay := Delay(multFactor, x.interCheckDelay);
    if checkDelay > c.checkWindow {
      checkDelay := x.chance(i);
    }
    placed := c.(nextCheck := now + checkDelay);
    if !x.allowed(i, placed.nextCheck) {
      placed := placed.(nextCheck := x.nextAllowed(i, placed.nextCheck) + checkDelay);
    }
  }

  /** Fills one interleave block, starting with the service at position from. */
  method FillBlock(list: seq<Candidate>, from: nat, block: nat, factor: nat, blocks: nat, x: Timing, now: int)
    returns (slots: seq<Option<nat>>, placed: seq<Candidate>, end: nat)
    requires from < |list| && factor > 0 && CountPlaced(list[..from], now) == block * factor
    ensures from < end <= |list| &&
      Slots(list[..from], now, factor, blocks) + slots == Slots(list[..end], now, factor, blocks)
    ensures end < |list| ==> CountPlaced(list[..end], now) == block * factor + factor
    ensures end == from + |slots| && AllTimed(placed, list, from, slots, x, now)
  {
    slots, placed, end := [], [], from;
    var index := 0;
    ghost var base := block * factor;
    while index < factor && end < |list|
      invariant from <= end <= |list| && index <= factor && (index == factor ==> from < end)
      invariant CountPlaced(list[..end], now) == base + index
      invariant Slots(list[..from], now, factor, blocks) + slots == Slots(list[..end], now, factor, blocks)
      invariant end == from + |slots| && AllTimed(placed, list, from, slots, x, now)
    {
      OneMoreSlot(list, end, now, factor, blocks);
      if !Placed(list[end], now) {
        slots, placed := slots + [None], placed + [list[end]];
      } else {
        SlotIs(base + index, block, index, factor, blocks);
        index := index + 1;
        var multFactor := block + index * blocks;
        var at := AtSlot(list[end], multFactor, x, end, now);
        slots, placed := slots + [Some(multFactor)], placed + [at];
      }
      end := end + 1;
    }
  }

  /** Gives the services their slots and times, block by block; with no interleave factor all stay as they are. */
  method PlaceServices(list: seq<Candidate>, scheduled: nat, factor: nat, x: Timing, now: int)
    returns (slots: seq<Option<nat>>, placed: seq<Candidate>)
    ensures factor > 0 ==>
      slots == Slots(list, now, factor, Blocks(scheduled, factor)) && AllTimed(placed, list, 0, slots, x, now)
    ensures factor == 0 ==> slots == [] && placed == list
  {
    slots, placed := [], [];
    var i, block := 0, 0;
    while i < |list| && factor > 0
      invariant i <= |list| && i == |slots| && (factor == 0 ==> i == 0)
      invariant i < |list| ==> CountPlaced(list[..i], now) == block * factor
      invariant factor > 0 ==> slots == Slots(list[..i], now, factor, Blocks(scheduled, factor))
      invariant AllTimed(placed, list, 0, slots, x, now)
    {
      var filled, timed;
      filled, timed, i := FillBlock(list, i, block, factor, Blocks(scheduled, factor), x, now);
      assert (block + 1) * factor == block * factor + factor;
      slots, placed, block := slots + filled, placed + timed, block + 1;
    }
    assert list[..|list|] == list;
    placed := placed + list[i..];
  }

  lemma Multiples(a: nat, b: nat, factor: nat)
    requires a < b
    ensures a * factor + factor <= b * factor
    decreases b
  {
    assert b * factor == (b - 1) * factor + factor;
    if a + 1 < b {
      Multiples(a, b - 1, factor);
    }
  }

  lemma OneDecoding(q: nat, r: nat, p: nat, t: nat, factor: nat)
    requires q * factor + r == p * factor + t && r < factor && t < factor
    ensures q == p && r == t
  {
    if q < p {
      Multiples(q, p, factor);
    } else if p < q {
      Multiples(p, q, factor);
    }
  }

  lemma SlotIs(n: nat, block: nat, index: nat, factor: nat, blocks: nat)
    requires index < factor && n == block * factor + index
    ensures Slot(n, factor, blocks) == block + (index + 1) * blocks
  {
    BlockAndIndex(n, factor);
    OneDecoding(Block(n, factor), Index(n, factor), block, index, factor);
  }

  lemma {:induction false} SlotAt(list: seq<Candidate>, now: int, factor: nat, blocks: nat, i: nat)
    requires factor > 0 && i < |list|
    ensures Slots(list, now, factor, blocks)[i] ==
      if Placed(list[i], now) then Some(Slot(CountPlaced(list[..i], now), factor, blocks)) else None
    decreases |list|
  {
    var before := list[..|list| - 1];
    if i < |before| {
      SlotAt(before, now, factor, blocks, i);
      assert before[..i] == list[..i];
    }
  }

  lemma {:induction false} CountGrows(list: seq<Candidate>, now: int, i: nat)
    requires i <= |list|
    ensures CountPlaced(list[..i], now) <= CountPlaced(list, now)
    ensures i < |list| && Placed(list[i], now) ==> CountPlaced(list[..i], now) < CountPlaced(list, now)
    decreases |list|
  {
    if i < |list| {
      var before := list[..|list| - 1];
      CountGrows(before, now, i);
      assert before[..i] == list[..i];
    } else {
      assert list[..i] == list;
    }
  }

  /** No more services get slots than were counted as scheduled. */
  lemma {:induction false} PlacedAreCounted(list: seq<Candidate>, marked: seq<Candidate>, now: int)
    requires |marked| == |list| && forall i | 0 <= i < |list| :: marked[i] == Schedule(list[i])
    ensures CountPlaced(marked, now) <= CountSchedulable(list)
    decreases |list|
  {
    if list != [] {
      PlacedAreCounted(list[..|list| - 1], marked[..|list| - 1], now);
    }
  }

  lemma BlocksCover(scheduled: nat, factor: nat)
    requires factor > 0
    ensures scheduled <= Blocks(scheduled, factor) * factor
  {
    var padded := scheduled + factor - 1;
    assert padded == padded / factor * factor + padded % factor;
  }

  lemma BlockInRange(n: nat, factor: nat, blocks: nat)
    requires factor > 0 && n < blocks * factor
    ensures Block(n, factor) < blocks && Index(n, factor) < factor
  {
    BlockAndIndex(n, factor);
    if blocks < Block(n, factor) {
      Multiples(blocks, Block(n, factor), factor);
    }
  }

  lemma OneMoreTimes(n: nat, blocks: nat)
    ensures (n + 1) * blocks == n * blocks + blocks && n * blocks >= 0
  {
  }

  /** Every slot lies between the number of blocks and one more than the factor times that. */
  lemma SlotInRange(n: nat, factor: nat, blocks: nat)
    requires factor > 0 && n < blocks * factor
    ensures blocks <= Slot(n, factor, blocks) < (factor + 1) * blocks
  {
    BlockInRange(n, factor, blocks);
    Multiples(Index(n, factor), factor, blocks);
    OneMoreTimes(Index(n, factor), blocks);
    OneMoreTimes(factor, blocks);
  }

  lemma SlotsDiffer(n: nat, m: nat, factor: nat, blocks: nat)
    requires factor > 0 && n < blocks * factor && m < blocks * factor
    requires Slot(n, factor, blocks) == Slot(m, factor, blocks)
    ensures n == m
  {
    BlockInRange(n, factor, blocks);
    BlockInRange(m, factor, blocks);
    OneDecoding(Index(n, factor) + 1, Block(n, factor), Index(m, factor) + 1, Block(m, factor), blocks);
    BlockAndIndex(n, factor);
    BlockAndIndex(m, factor);
  }

  /** The next service of the same block comes exactly the number of blocks later. */
  lemma NextInBlock(n: nat, factor: nat, blocks: nat)
    requires factor > 0 && Block(n, factor) == Block(n + 1, factor)
    ensures Slot(n + 1, factor, blocks) == Slot(n, factor, blocks) + blocks
  {
    BlockAndIndex(n, factor);
    BlockAndIndex(n + 1, factor);
    var index := Index(n, factor);
    assert (index + 1 + 1) * blocks == (index + 1) * blocks + blocks;
  }

  /** Two services with none between them that gets a slot are counted one after the other. */
  lemma {:induction false} NonePlacedBetween(list: seq<Candidate>, now: int, i: nat, j: nat)
    requires i < j <= |list| && Placed(list[i], now)
    requires forall k | i < k < j :: !Placed(list[k], now)
    ensures CountPlaced(list[..j], now) == CountPlaced(list[..i], now) + 1
  {
    assert list[..j][..j - 1] == list[..j - 1];
    if i < j - 1 {
      NonePlacedBetween(list, now, i, j - 1);
    }
  }

  /**
   Whatever the list of services, those that get slots get different ones, all of them in range;
   two that follow one another within a block lie exactly the number of blocks apart.
   */
  lemma InterleavingIsCollisionFree(list: seq<Candidate>, marked: seq<Candidate>, now: int, factor: nat, i: nat, j: nat)
    requires factor > 0 && i < j < |list|
    requires |marked| == |list| && forall k | 0 <= k < |list| :: marked[k] == Schedule(list[k])
    requires Placed(marked[i], now) && Placed(marked[j], now)
    ensures var blocks := Blocks(CountSchedulable(list), factor);
      var slots := Slots(marked, now, factor, blocks);
      && slots[i].Some? && slots[j].Some? && slots[i] != slots[j]
      && blocks <= slots[i].value < (factor + 1) * blocks
      && blocks <= slots[j].value < (factor + 1) * blocks
      && ((forall k | i < k < j :: !Placed(marked[k], now)) &&
          Block(CountPlaced(marked[..i], now), factor) == Block(CountPlaced(marked[..j], now), factor) ==>
            slots[j].value == slots[i].value + blocks)
  {
    var blocks := Blocks(CountSchedulable(list), factor);
    var n, m := CountPlaced(marked[..i], now), CountPlaced(marked[..j], now);
    SlotAt(marked, now, factor, blocks, i);
    SlotAt(marked, now, factor, blocks, j);
    PlacedInRange(list, marked, now, factor, i);
    PlacedInRange(list, marked, now, factor, j);
    CountGrows(marked[..j], now, i);
    assert marked[..j][..i] == marked[..i];
    SlotInRange(n, factor, blocks);
    SlotInRange(m, factor, blocks);
    if Slot(n, factor, blocks) == Slot(m, factor, blocks) {
      SlotsDiffer(n, m, factor, blocks);
    }
    if (forall k | i < k < j :: !Placed(marked[k], now)) && Block(n, factor) == Block(m, factor) {
      NonePlacedBetween(marked, now, i, j);
      NextInBlock(n, factor, blocks);
    }
  }

  /** The slot can be had: it lies in the service's window, at a time its check period allows. */
  predicate InWindow(c: Candidate, slot: nat, x: Timing, i: nat, now: int) {
    Delay(slot, x.interCheckDelay) <= c.checkWindow && x.allowed(i, now + Delay(slot, x.interCheckDelay))
  }

  /** The delay of a service lies within its window. */
  lemma DelayInWindow(list: seq<Candidate>, slot: nat, x: Timing, i: nat)
    requires TimingOk(x, list) && i < |list|
    ensures 0 <= CheckDelay(list[i], slot, x, i) <= list[i].checkWindow
    ensures CheckDelay(list[i], slot, x, i) == Delay(slot, x.interCheckDelay) ||
      Delay(slot, x.interCheckDelay) > list[i].checkWindow
  {
    assert slot as real * x.interCheckDelay >= 0.0;
  }

  /** Slots n apart are n delays apart in time, up to a second. */
  lemma DelaysFarApart(a: nat, b: nat, interCheckDelay: real)
    requires a <= b && interCheckDelay >= 0.0
    ensures var gap := (b - a) as real * interCheckDelay;
      gap - 1.0 < (Delay(b, interCheckDelay) - Delay(a, interCheckDelay)) as real < gap + 1.0
  {
    assert b as real * interCheckDelay == a as real * interCheckDelay + (b - a) as real * interCheckDelay;
  }

  /**
   No two services whose slots lie in their windows at allowed times start together when the delay
   between checks is a second or more.
   */
  lemma ChecksNeverStartTogether(list: seq<Candidate>, marked: seq<Candidate>, now: int, factor: nat, x: Timing, i: nat,
                                 j: nat)
    requires factor > 0 && i < j < |list| && TimingOk(x, marked) && x.interCheckDelay >= 1.0
    requires |marked| == |list| && forall k | 0 <= k < |list| :: marked[k] == Schedule(list[k])
    requires Placed(marked[i], now) && Placed(marked[j], now)
    ensures var slots := Slots(marked, now, factor, Blocks(CountSchedulable(list), factor));
      && slots[i].Some? && slots[j].Some?
      && (InWindow(marked[i], slots[i].value, x, i, now) && InWindow(marked[j], slots[j].value, x, j, now) ==>
          Timed(marked[i], slots[i], x, i, now).nextCheck != Timed(marked[j], slots[j], x, j, now).nextCheck)
  {
    InterleavingIsCollisionFree(list, marked, now, factor, i, j);
    var slots := Slots(marked, now, factor, Blocks(CountSchedulable(list), factor));
    var a, b := slots[i].value, slots[j].value;
    if a < b {
      DelaysDiffer(a, b, x.interCheckDelay);
    } else {
      DelaysDiffer(b, a, x.interCheckDelay);
    }
  }

  lemma DelaysDiffer(a: nat, b: nat, interCheckDelay: real)
    requires a < b && interCheckDelay >= 1.0
    ensures Delay(a, interCheckDelay) < Delay(b, interCheckDelay)
  {
    DelaysFarApart(a, b, interCheckDelay);
    assert (b - a) as real * interCheckDelay >= interCheckDelay;
  }

  lemma PlacedInRange(list: seq<Candidate>, marked: seq<Candidate>, now: int, factor: nat, i: nat)
    requires factor > 0 && i < |list|
    requires |marked| == |list| && forall k | 0 <= k < |list| :: marked[k] == Schedule(list[k])
    requires Placed(marked[i], now)
    ensures CountPlaced(marked[..i], now) < Blocks(CountSchedulable(list), factor) * factor
  {
    PlacedAreCounted(list, marked, now);
    CountGrows(marked, now, i);
    BlocksCover(CountSchedulable(list), factor);
  }

  /** A host or service whose check is to be queued. */
  datatype InitialCheck = InitialCheck(of: CheckedObject, shouldBeScheduled: bool, checksEnabled: bool, nextCheck: int,
                                       options: set<int>)

  /** Objects without active checks are still checked when a forced check was left over from before. */
  predicate Queued(c: InitialCheck) {
    c.shouldBeScheduled || (!c.checksEnabled && c.nextCheck != 0 && CHECK_OPTION_FORCE_EXECUTION in c.options)
  }

  /** The objects whose first checks get queued. */
  function QueuedObjects(checks: seq<InitialCheck>): set<CheckedObject> {
    set c | c in checks && Queued(c) :: c.of
  }

  /** The check is pending, with its time and options, and the object has the same. */
  ghost predicate HasPending(s: Scheduler, c: InitialCheck)
    reads s`nextCheckEvent, s`nextCheck, s`checkOptions
    reads (if c.of in s.nextCheckEvent then {s.nextCheckEvent[c.of]} else {})`runTime
    reads (if c.of in s.nextCheckEvent then {s.nextCheckEvent[c.of]} else {})`eventOptions
  {
    && c.of in s.nextCheckEvent && s.nextCheckEvent[c.of].runTime == c.nextCheck &&
       s.nextCheckEvent[c.of].eventOptions == c.options
    && c.of in s.nextCheck && s.nextCheck[c.of] == c.nextCheck && c.of in s.checkOptions &&
       s.checkOptions[c.of] == c.options
  }

  /** Queues the first checks; afterwards exactly the queued objects have a pending check, at their time. */
  method QueueInitialChecks(s: Scheduler, checks: seq<InitialCheck>, now: int, usec: int)
    requires s.Sound() && s.Linked(null) && s.nextCheckEvent == map[]
    requires forall i, j | 0 <= i < j < |checks| :: checks[i].of != checks[j].of
    modifies s`queue, s`currentEvent, s`clock, s.eventCount, s`nextCheckEvent, s`nextCheck, s`checkOptions
    ensures s.Sound() && s.Linked(null) && s.nextCheckEvent.Keys == QueuedObjects(checks) && s.InTime()
    ensures forall c :: c in checks && Queued(c) ==> HasPending(s, c)
    ensures forall o :: o in s.nextCheckEvent <==> exists c ::
      c in checks && c.of == o &&
      (c.shouldBeScheduled || (!c.checksEnabled && c.nextCheck != 0 && 0 in c.options))
  {
    for i := 0 to |checks|
      invariant s.Sound() && s.Linked(null) && s.nextCheckEvent.Keys == QueuedObjects(checks[..i])
      invariant forall c :: c in checks[..i] && Queued(c) ==> HasPending(s, c)
    {
      assert checks[..i + 1] == checks[..i] + [checks[i]];
      if Queued(checks[i]) {
        var _ := Place(s, checks[i].of, checks[i].nextCheck, checks[i].options, now, usec, null);
      }
    }
    assert checks[..|checks|] == checks;
  }
}
