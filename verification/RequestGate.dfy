/** The reservation gates in front of a main site's key and log interfaces: under a lock a request
    reserves its slot, then sleeps until the slot outside the lock.  A 429 reply starts a cooldown.
    Times are readings of the monotonic clock, which is read anew at every use. */
module RequestGate {

  type Time = real

  const COOLDOWN_SECONDS := 30.0

  /** The least distance between two requests, normally and while a full refresh is running.  The log
      interface has one interval for both, a quarter of a second. */
  datatype Intervals = Intervals(normal: real, quick: real)

  const KEY_INTERVALS := Intervals(2.0, 0.25)

  /** One gate: the last slot reserved and the end of the cooldown (0 when there was none), and
      whether the fast mode is on. */
  datatype Gate = Gate(last: Time, until: Time, fast: bool)

  const NEW_GATE := Gate(0.0, 0.0, false)

  /** The readings one reservation takes, in order. */
  datatype Clock = Clock(check: Time, read: Time, reserve: Time)
  {
    predicate Valid() {
      0.0 <= check <= read <= reserve
    }
  }

  datatype Outcome = Refused | Granted(slot: Time, wait: Time)

  function IntervalOf(iv: Intervals, g: Gate): real {
    if g.fast then iv.quick else iv.normal
  }

  function Max(a: real, b: real): real {
    if a < b then b else a
  }

  function Reserved(iv: Intervals, g: Gate, c: Clock): (Gate, Outcome) {
    if g.until > c.check then (g, Refused)
    else
      var wait := Max(0.0, IntervalOf(iv, g) - (c.read - g.last));
      var slot := c.reserve + wait;
      (g.(last := slot), Granted(slot, wait))
  }

  function Limited(g: Gate, at: Time): Gate {
    g.(until := at + COOLDOWN_SECONDS)
  }

  datatype Key = Key(admin: nat, base: string)

  /** The gates of all main sites, in maps shared by all request threads. */
  class Gates {
    const intervals: Intervals
    var lastRequestAt: map<Key, Time>
    var rateLimitUntil: map<Key, Time>
    var fastGates: set<Key>

    constructor (intervals: Intervals)
      ensures this.intervals == intervals && forall k :: GateOf(k) == NEW_GATE
    {
      this.intervals := intervals;
      lastRequestAt, rateLimitUntil, fastGates := map[], map[], {};
    }

    function GateOf(k: Key): Gate
      reads this
    {
      Gate(if k in lastRequestAt then lastRequestAt[k] else 0.0,
           if k in rateLimitUntil then rateLimitUntil[k] else 0.0,
           k in fastGates)
    }

    /** The locked part of `fetch_newapi_channel_key` and of `_fetchLogsWithGate`. */
    method Reserve(k: Key, c: Clock) returns (outcome: Outcome)
      modifies `lastRequestAt
      ensures (GateOf(k), outcome) == Reserved(intervals, old(GateOf(k)), c)
      ensures forall j :: j != k ==> GateOf(j) == old(GateOf(j))
    {
      var cooldownUntil := if k in rateLimitUntil then rateLimitUntil[k] else 0.0;
      if cooldownUntil > c.check {
        return Refused;
      }
      var minInterval := if k in fastGates then intervals.quick else intervals.normal;
      var elapsed := c.read - (if k in lastRequestAt then lastRequestAt[k] else 0.0);
      var wait := Max(0.0, minInterval - elapsed);
      lastRequestAt := lastRequestAt[k := c.reserve + wait];
      return Granted(c.reserve + wait, wait);
    }

    method RateLimited(k: Key, at: Time)
      modifies `rateLimitUntil
      ensures GateOf(k) == Limited(old(GateOf(k)), at)
      ensures forall j :: j != k ==> GateOf(j) == old(GateOf(j))
    {
      rateLimitUntil := rateLimitUntil[k := at + COOLDOWN_SECONDS];
    }

    /** `set_newapi_channel_key_fast_mode` */
    method SetFastMode(k: Key, enabled: bool)
      modifies `fastGates
      ensures GateOf(k) == old(GateOf(k)).(fast := enabled)
      ensures forall j :: j != k ==> GateOf(j) == old(GateOf(j))
    {
      if enabled {
        fastGates := fastGates + {k};
      } else {
        fastGates := fastGates - {k};
      }
    }
  }

  // ---------------------------------------------------------------------------------------
  // Runs
  // ---------------------------------------------------------------------------------------

  datatype Event = Reserve(clock: Clock) | RateLimited(at: Time) | SetFast(enabled: bool)

  function After(iv: Intervals, g: Gate, e: Event): Gate {
    match e
    case Reserve(c) => Reserved(iv, g, c).0
    case RateLimited(at) => Limited(g, at)
    case SetFast(enabled) => g.(fast := enabled)
  }

  function AfterRun(iv: Intervals, g: Gate, run: seq<Event>): Gate {
    if run == [] then g else After(iv, AfterRun(iv, g, run[..|run| - 1]), run[|run| - 1])
  }

  /** A slot as it was granted, with the interval in force. */
  datatype Slot = Slot(at: Time, interval: real)

  function Slots(iv: Intervals, g: Gate, run: seq<Event>): seq<Slot> {
    if run == [] then []
    else
      var n := |run| - 1;
      var before, mid := Slots(iv, g, run[..n]), AfterRun(iv, g, run[..n]);
      if run[n].Reserve? && Reserved(iv, mid, run[n].clock).1.Granted? then
        before + [Slot(Reserved(iv, mid, run[n].clock).1.slot, IntervalOf(iv, mid))]
      else before
  }

  ghost predicate ClocksValid(run: seq<Event>) {
    forall k :: 0 <= k < |run| && run[k].Reserve? ==> run[k].clock.Valid()
  }

  /** A slot is never in the past, at least one interval behind the last one, and as early as that
      allows but for the time between the two readings. */
  lemma SlotIsEarliest(iv: Intervals, g: Gate, c: Clock)
    requires c.Valid() && Reserved(iv, g, c).1.Granted?
    ensures var slot := Reserved(iv, g, c).1.slot;
            && c.reserve <= slot == c.reserve + Reserved(iv, g, c).1.wait
            && g.last + (if g.fast then iv.quick else iv.normal) <= slot
            && slot <= Max(c.reserve, g.last + (if g.fast then iv.quick else iv.normal) + (c.reserve - c.read))
  {
  }

  lemma {:induction false} LastIsLast(iv: Intervals, g: Gate, run: seq<Event>)
    ensures var slots := Slots(iv, g, run);
            AfterRun(iv, g, run).last == if slots == [] then g.last else slots[|slots| - 1].at
  {
    if run != [] { LastIsLast(iv, g, run[..|run| - 1]); }
  }

  function TotalInterval(slots: seq<Slot>, i: nat, j: nat): real
    requires i <= j < |slots|
  {
    if i == j then 0.0 else TotalInterval(slots, i, j - 1) + slots[j].interval
  }

  lemma {:induction false} TotalOfPrefix(a: seq<Slot>, b: seq<Slot>, i: nat, j: nat)
    requires i <= j < |a| <= |b| && b[..|a|] == a
    ensures TotalInterval(a, i, j) == TotalInterval(b, i, j)
  {
    if i < j {
      TotalOfPrefix(a, b, i, j - 1);
      assert b[..|a|][j] == b[j];
    }
  }

  /** Over any run, any two slots are apart by at least the intervals in force for all slots after the
      first of them. */
  lemma {:induction false} SlotsAreSpaced(iv: Intervals, g: Gate, run: seq<Event>, i: nat, j: nat)
    requires ClocksValid(run) && i <= j < |Slots(iv, g, run)|
    ensures var slots := Slots(iv, g, run);
            slots[i].at + TotalInterval(slots, i, j) <= slots[j].at
  {
    var n := |run| - 1;
    var before, slots := Slots(iv, g, run[..n]), Slots(iv, g, run);
    if j < |before| {
      SlotsAreSpaced(iv, g, run[..n], i, j);
      TotalOfPrefix(before, slots, i, j);
    } else if i < j {
      SlotsAreSpaced(iv, g, run[..n], i, j - 1);
      TotalOfPrefix(before, slots, i, j - 1);
      LastIsLast(iv, g, run[..n]);
      SlotIsEarliest(iv, AfterRun(iv, g, run[..n]), run[n].clock);
    }
  }

  lemma {:induction false} IntervalsAtLeast(slots: seq<Slot>, i: nat, j: nat, least: real)
    requires i <= j < |slots| && forall k :: i < k <= j ==> least <= slots[k].interval
    ensures (j - i) as real * least <= TotalInterval(slots, i, j)
  {
    if i < j {
      IntervalsAtLeast(slots, i, j - 1, least);
      assert (j - i) as real * least == (j - 1 - i) as real * least + least;
    }
  }

  /** No full refresh switches to the fast mode. */
  ghost predicate NeverFast(g: Gate, run: seq<Event>) {
    !g.fast && forall m :: 0 <= m < |run| ==> run[m] != SetFast(true)
  }

  lemma {:induction false} StaysSlow(iv: Intervals, g: Gate, run: seq<Event>)
    requires NeverFast(g, run)
    ensures !AfterRun(iv, g, run).fast
  {
    if run != [] { StaysSlow(iv, g, run[..|run| - 1]); }
  }

  lemma {:induction false} IntervalsInForce(iv: Intervals, g: Gate, run: seq<Event>, k: nat)
    requires k < |Slots(iv, g, run)|
    ensures Slots(iv, g, run)[k].interval == iv.normal || Slots(iv, g, run)[k].interval == iv.quick
    ensures NeverFast(g, run) ==> Slots(iv, g, run)[k].interval == iv.normal
  {
    var n := |run| - 1;
    if k < |Slots(iv, g, run[..n])| {
      IntervalsInForce(iv, g, run[..n], k);
    } else if NeverFast(g, run) {
      StaysSlow(iv, g, run[..n]);
    }
  }

  lemma SpacedBy(iv: Intervals, g: Gate, run: seq<Event>, i: nat, j: nat, least: real)
    requires ClocksValid(run) && i <= j < |Slots(iv, g, run)|
    requires least <= iv.normal && (least <= iv.quick || NeverFast(g, run))
    ensures Slots(iv, g, run)[i].at + (j - i) as real * least <= Slots(iv, g, run)[j].at
  {
    hide Slots, TotalInterval;
    SlotsAreSpaced(iv, g, run, i, j);
    var slots := Slots(iv, g, run);
    forall k | i < k <= j ensures least <= slots[k].interval {
      IntervalsInForce(iv, g, run, k);
    }
    IntervalsAtLeast(slots, i, j, least);
  }

  /** The key interface is asked at most every quarter of a second, and at most every two seconds as
      long as no full refresh switches to the fast mode. */
  lemma KeySlotsAreSpaced(g: Gate, run: seq<Event>, i: nat, j: nat)
    requires ClocksValid(run) && i <= j < |Slots(KEY_INTERVALS, g, run)|
    ensures var slots := Slots(KEY_INTERVALS, g, run);
            && slots[i].at + (j - i) as real * 0.25 <= slots[j].at
            && (NeverFast(g, run) ==> slots[i].at + (j - i) as real * 2.0 <= slots[j].at)
  {
    hide Slots;
    SpacedBy(KEY_INTERVALS, g, run, i, j, 0.25);
    if NeverFast(g, run) {
      SpacedBy(KEY_INTERVALS, g, run, i, j, 2.0);
    }
  }

  /** A full refresh has switched to the fast mode and not back. */
  ghost predicate FullRefreshOn(run: seq<Event>) {
    exists k :: 0 <= k < |run| && run[k] == SetFast(true)
      && forall m :: k < m < |run| ==> run[m] != SetFast(false)
  }

  lemma {:induction false} ModeInForce(iv: Intervals, run: seq<Event>)
    ensures AfterRun(iv, NEW_GATE, run).fast <==> FullRefreshOn(run)
  {
    if run != [] {
      var n := |run| - 1;
      ModeInForce(iv, run[..n]);
      if run[n].SetFast? {
        assert run[n] == SetFast(true) || run[n] == SetFast(false);
      } else {
        SameModeAfter(run);
      }
    }
  }

  lemma SameModeAfter(run: seq<Event>)
    requires run != [] && !run[|run| - 1].SetFast?
    ensures FullRefreshOn(run) <==> FullRefreshOn(run[..|run| - 1])
  {
    var n := |run| - 1;
    if FullRefreshOn(run[..n]) {
      var k :| 0 <= k < n && run[..n][k] == SetFast(true)
        && forall m :: k < m < n ==> run[..n][m] != SetFast(false);
      assert forall m :: k < m < n ==> run[..n][m] == run[m];
      assert run[k] == SetFast(true);
    }
    if FullRefreshOn(run) {
      var k :| 0 <= k < |run| && run[k] == SetFast(true) && forall m :: k < m < |run| ==> run[m] != SetFast(false);
      assert run[..n][k] == SetFast(true);
    }
  }

  /** Over any run, a slot of the key interface is put off by exactly what is missing of two seconds, or of
      a quarter of a second while a full refresh is running, since the last one. */
  lemma KeySlotIs(run: seq<Event>, c: Clock)
    requires c.Valid() && Reserved(KEY_INTERVALS, AfterRun(KEY_INTERVALS, NEW_GATE, run), c).1.Granted?
    ensures var slots := Slots(KEY_INTERVALS, NEW_GATE, run);
            var last := if slots == [] then 0.0 else slots[|slots| - 1].at;
            var missing := (if FullRefreshOn(run) then 0.25 else 2.0) - (c.read - last);
            Reserved(KEY_INTERVALS, AfterRun(KEY_INTERVALS, NEW_GATE, run), c).1.slot
              == c.reserve + (if missing > 0.0 then missing else 0.0)
  {
    ModeInForce(KEY_INTERVALS, run);
    LastIsLast(KEY_INTERVALS, NEW_GATE, run);
    hide AfterRun, Slots, FullRefreshOn;
  }

  // ---------------------------------------------------------------------------------------
  // The cooldown
  // ---------------------------------------------------------------------------------------

  /** 429 replies are noted in the order of the clock. */
  ghost predicate LimitsAscend(from: Time, run: seq<Event>) {
    forall k :: 0 <= k < |run| && run[k].RateLimited? ==> from <= run[k].at
  }

  lemma {:induction false} CooldownLasts(iv: Intervals, g: Gate, run: seq<Event>, at: Time)
    requires g.until >= at + COOLDOWN_SECONDS && LimitsAscend(at, run)
    ensures AfterRun(iv, g, run).until >= at + COOLDOWN_SECONDS
  {
    if run != [] { CooldownLasts(iv, g, run[..|run| - 1], at); }
  }

  /** After a 429, no request reserves a slot before the cooldown is over, whatever happens in
      between. */
  lemma NoReservationInCooldown(iv: Intervals, g: Gate, at: Time, run: seq<Event>, c: Clock)
    requires LimitsAscend(at, run) && c.check < at + COOLDOWN_SECONDS
    ensures Reserved(iv, AfterRun(iv, Limited(g, at), run), c).1.Refused?
  {
    CooldownLasts(iv, Limited(g, at), run, at);
  }

  /** The 429 replies of a run are noted in the order of the clock. */
  ghost predicate LimitsInOrder(run: seq<Event>) {
    forall j, k :: 0 <= j < k < |run| && run[j].RateLimited? && run[k].RateLimited? ==> run[j].at <= run[k].at
  }

  /** Some 429 of the run is less than half a minute ago. */
  ghost predicate JustLimited(run: seq<Event>, now: Time) {
    exists k :: 0 <= k < |run| && run[k].RateLimited? && now < run[k].at + 30.0
  }

  lemma {:induction false} UntilIs(iv: Intervals, run: seq<Event>, now: Time)
    requires LimitsInOrder(run) && 0.0 <= now
    ensures AfterRun(iv, NEW_GATE, run).until > now <==> JustLimited(run, now)
  {
    if run != [] {
      var n := |run| - 1;
      UntilIs(iv, run[..n], now);
      if JustLimited(run[..n], now) {
        var k :| 0 <= k < n && run[..n][k].RateLimited? && now < run[..n][k].at + 30.0;
        assert run[k].RateLimited? && (run[n].RateLimited? ==> run[k].at <= run[n].at);
      }
      if JustLimited(run, now) {
        var k :| 0 <= k < |run| && run[k].RateLimited? && now < run[k].at + 30.0;
        assert k < n ==> run[..n][k] == run[k];
      }
    }
  }

  /** Over any run, a request is refused exactly if a 429 came less than half a minute before it; every
      other request gets a slot. */
  lemma RefusedIff(iv: Intervals, run: seq<Event>, c: Clock)
    requires LimitsInOrder(run) && c.Valid()
    ensures Reserved(iv, AfterRun(iv, NEW_GATE, run), c).1.Refused? <==> JustLimited(run, c.check)
  {
    UntilIs(iv, run, c.check);
  }

  lemma {:induction false} RunConcat(iv: Intervals, g: Gate, a: seq<Event>, b: seq<Event>)
    ensures AfterRun(iv, g, a + b) == AfterRun(iv, AfterRun(iv, g, a), b)
    ensures Slots(iv, g, a + b) == Slots(iv, g, a) + Slots(iv, AfterRun(iv, g, a), b)
  {
    hide Reserved, After;
    if b == [] {
      assert a + b == a;
    } else {
      var n := |b| - 1;
      RunConcat(iv, g, a, b[..n]);
      assert (a + b)[..|a + b| - 1] == a + b[..n] && (a + b)[|a + b| - 1] == b[n];
    }
  }

  /** Slots granted after a 429 lie behind its cooldown. */
  lemma {:induction false} SlotsAfterLimit(iv: Intervals, g: Gate, run: seq<Event>, at: Time)
    requires g.until >= at + COOLDOWN_SECONDS && LimitsAscend(at, run) && ClocksValid(run)
    ensures forall k :: 0 <= k < |Slots(iv, g, run)| ==> at + COOLDOWN_SECONDS <= Slots(iv, g, run)[k].at
  {
    if run != [] {
      var n := |run| - 1;
      SlotsAfterLimit(iv, g, run[..n], at);
      CooldownLasts(iv, g, run[..n], at);
      if run[n].Reserve? && Reserved(iv, AfterRun(iv, g, run[..n]), run[n].clock).1.Granted? {
        SlotIsEarliest(iv, AfterRun(iv, g, run[..n]), run[n].clock);
      }
    }
  }

  /** No slot falls strictly inside the cooldown. */
  ghost predicate NoneInside(slots: seq<Slot>, at: Time) {
    forall k :: 0 <= k < |slots| ==> !(at < slots[k].at < at + COOLDOWN_SECONDS)
  }

  lemma LastSlotIsLatest(iv: Intervals, run: seq<Event>)
    requires ClocksValid(run) && 0.0 <= iv.normal && 0.0 <= iv.quick
    ensures var slots, last := Slots(iv, NEW_GATE, run), AfterRun(iv, NEW_GATE, run).last;
            && (slots == [] ==> last == 0.0)
            && (slots != [] ==> slots[|slots| - 1].at == last)
            && (forall k :: 0 <= k < |slots| ==> slots[k].at <= last)
  {
    LastIsLast(iv, NEW_GATE, run);
    var slots := Slots(iv, NEW_GATE, run);
    forall k | 0 <= k < |slots| ensures slots[k].at <= slots[|slots| - 1].at {
      SpacedBy(iv, NEW_GATE, run, k, |slots| - 1, 0.0);
    }
  }

  /** Over any run with a 429 in it, no request goes out inside the cooldown, exactly if none of the
      slots granted before the 429 lies there: if the last slot is less than a cooldown ahead, exactly
      if it is not ahead at all. */
  lemma CooldownRespectedIff(iv: Intervals, before: seq<Event>, at: Time, after: seq<Event>)
    requires 0.0 <= iv.normal && 0.0 <= iv.quick && 0.0 <= at
    requires ClocksValid(before) && ClocksValid(after) && LimitsAscend(at, after)
    ensures var slots := Slots(iv, NEW_GATE, before + [RateLimited(at)] + after);
            var last := AfterRun(iv, NEW_GATE, before).last;
            && (NoneInside(slots, at) <==> NoneInside(Slots(iv, NEW_GATE, before), at))
            && (last < at + COOLDOWN_SECONDS ==> (NoneInside(slots, at) <==> last <= at))
  {
    var g := AfterRun(iv, NEW_GATE, before);
    RunConcat(iv, NEW_GATE, before, [RateLimited(at)]);
    RunConcat(iv, NEW_GATE, before + [RateLimited(at)], after);
    OneLimit(iv, g, at);
    SlotsAfterLimit(iv, Limited(g, at), after, at);
    LastSlotIsLatest(iv, before);
    hide Slots, AfterRun;
    var first, later := Slots(iv, NEW_GATE, before), Slots(iv, Limited(g, at), after);
    var slots := Slots(iv, NEW_GATE, before + [RateLimited(at)] + after);
    assert slots == first + later;
    assert forall k :: 0 <= k < |later| ==> slots[|first| + k] == later[k];
    assert forall k :: 0 <= k < |first| ==> slots[k] == first[k];
  }

  lemma OneLimit(iv: Intervals, g: Gate, at: Time)
    ensures AfterRun(iv, g, [RateLimited(at)]) == Limited(g, at) && Slots(iv, g, [RateLimited(at)]) == []
  {
    assert [RateLimited(at)][..0] == [];
    assert AfterRun(iv, g, []) == g && Slots(iv, g, []) == [];
  }

  /** It does happen: of two requests at the same moment the second waits, and its slot, reserved
      before the 429, is used in the cooldown. */
  lemma ReservedSlotOutlivesLimit()
    ensures exists run: seq<Event>, at: Time ::
      && ClocksValid(run)
      && var slots := Slots(KEY_INTERVALS, NEW_GATE, run);
         run != [] && run[|run| - 1] == RateLimited(at) && slots != []
           && at < slots[|slots| - 1].at < AfterRun(KEY_INTERVALS, NEW_GATE, run).until
  {
    var first, second := Event.Reserve(Clock(10.0, 10.0, 10.0)), Event.Reserve(Clock(10.0, 10.0, 10.0));
    var run := [first, second, RateLimited(10.5)];
    assert run[..2] == [first, second] && run[..2][..1] == [first] && run[..2][..1][..0] == [];
    var g1 := Gate(10.0, 0.0, false);
    assert AfterRun(KEY_INTERVALS, NEW_GATE, run[..2][..1]) == g1;
    assert Slots(KEY_INTERVALS, NEW_GATE, run[..2][..1]) == [Slot(10.0, 2.0)];
    assert AfterRun(KEY_INTERVALS, NEW_GATE, run[..2]) == Gate(12.0, 0.0, false);
    assert Slots(KEY_INTERVALS, NEW_GATE, run[..2]) == [Slot(10.0, 2.0), Slot(12.0, 2.0)];
    assert Slots(KEY_INTERVALS, NEW_GATE, run) == Slots(KEY_INTERVALS, NEW_GATE, run[..2]);
    assert AfterRun(KEY_INTERVALS, NEW_GATE, run).until == 40.5;
  }
}
