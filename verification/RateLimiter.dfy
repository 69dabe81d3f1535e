/**
 The in-process rate limiter: one pruned deque per key, proved to agree with the full history
 of accepted requests for every run whose clock readings do not decrease.
 */
module RateLimiter {

  const WINDOW := 60.0

  /** The accepted requests after `cutoff`. */
  function Recent(accepted: seq<real>, cutoff: real): seq<real> {
    if accepted == [] then []
    else Recent(accepted[..|accepted| - 1], cutoff)
         + (if accepted[|accepted| - 1] > cutoff then [accepted[|accepted| - 1]] else [])
  }

  /* ---- The reference: decide from the whole history ---- */

  predicate Admits(limit: int, accepted: seq<real>, now: real) {
    |Recent(accepted, now - WINDOW)| < limit
  }

  function Accepted(limit: int, readings: seq<real>): seq<real> {
    if readings == [] then [] else
    var before, now := Accepted(limit, readings[..|readings| - 1]), readings[|readings| - 1];
    if Admits(limit, before, now) then before + [now] else before
  }

  ghost predicate Ordered(times: seq<real>) {
    forall i, j :: 0 <= i < j < |times| ==> times[i] <= times[j]
  }

  /* ---- The deque ---- */

  function Pruned(events: seq<real>, cutoff: real): seq<real> {
    if events != [] && events[0] <= cutoff then Pruned(events[1..], cutoff) else events
  }

  /** One call of the limiter on the deque of its key. */
  function Call(limit: int, events: seq<real>, now: real): seq<real> {
    var kept := Pruned(events, now - WINDOW);
    if |kept| < limit then kept + [now] else kept
  }

  function Deque(limit: int, readings: seq<real>): seq<real> {
    if readings == [] then [] else Call(limit, Deque(limit, readings[..|readings| - 1]), readings[|readings| - 1])
  }

  lemma {:induction false} RecentAppend(a: seq<real>, b: seq<real>, cutoff: real)
    ensures Recent(a + b, cutoff) == Recent(a, cutoff) + Recent(b, cutoff)
  {
    if b == [] {
      assert a + b == a;
    } else {
      assert (a + b)[..|a + b| - 1] == a + b[..|b| - 1];
      RecentAppend(a, b[..|b| - 1], cutoff);
    }
  }

  lemma {:induction false} RecentAll(a: seq<real>, cutoff: real)
    requires forall i :: 0 <= i < |a| ==> a[i] > cutoff
    ensures Recent(a, cutoff) == a
  {
    if a != [] {
      RecentAll(a[..|a| - 1], cutoff);
    }
  }

  /** Pruning an ordered deque keeps exactly what is after the cutoff. */
  lemma {:induction false} PrunedIsRecent(events: seq<real>, cutoff: real)
    requires Ordered(events)
    ensures Pruned(events, cutoff) == Recent(events, cutoff)
    decreases |events|
  {
    if events == [] {
    } else if events[0] <= cutoff {
      PrunedIsRecent(events[1..], cutoff);
      assert events == [events[0]] + events[1..];
      RecentAppend([events[0]], events[1..], cutoff);
      assert Recent([events[0]], cutoff) == [];
    } else {
      RecentAll(events, cutoff);
    }
  }

  lemma RecentOne(t: real, cutoff: real)
    ensures Recent([t], cutoff) == if t > cutoff then [t] else []
  {
    assert [t][..0] == [];
  }

  lemma {:induction false} RecentTwice(a: seq<real>, earlier: real, later: real)
    requires earlier <= later
    ensures Recent(Recent(a, earlier), later) == Recent(a, later)
  {
    if a != [] {
      var last := a[|a| - 1];
      RecentTwice(a[..|a| - 1], earlier, later);
      if last > earlier {
        RecentAppend(Recent(a[..|a| - 1], earlier), [last], later);
        RecentOne(last, later);
      } else {
        assert Recent(a, earlier) == Recent(a[..|a| - 1], earlier);
      }
    }
  }

  lemma {:induction false} RecentOrdered(a: seq<real>, cutoff: real)
    requires Ordered(a)
    ensures Ordered(Recent(a, cutoff))
    ensures forall i :: 0 <= i < |Recent(a, cutoff)| ==> Recent(a, cutoff)[i] in a
  {
    if a != [] {
      RecentOrdered(a[..|a| - 1], cutoff);
    }
  }

  lemma {:induction false} AcceptedOrdered(limit: int, readings: seq<real>)
    requires Ordered(readings)
    ensures Ordered(Accepted(limit, readings))
    ensures readings != [] ==> forall t :: t in Accepted(limit, readings) ==> t <= readings[|readings| - 1]
    ensures readings == [] ==> Accepted(limit, readings) == []
  {
    if readings != [] {
      var before, now := readings[..|readings| - 1], readings[|readings| - 1];
      AcceptedOrdered(limit, before);
      forall t | t in Accepted(limit, before)
        ensures t <= now
      {
        assert before != [] && t <= before[|before| - 1] == readings[|before| - 1];
      }
      var history := Accepted(limit, before);
      assert forall i | 0 <= i < |history| :: history[i] in history && history[i] <= now;
    }
  }

  /** Pruning the deque for a new reading leaves the accepted requests of the 60 seconds before it. */
  lemma {:induction false} PrunedDeque(limit: int, before: seq<real>, now: real)
    requires Ordered(before) && (before != [] ==> before[|before| - 1] <= now)
    ensures Pruned(Deque(limit, before), now - WINDOW) == Recent(Accepted(limit, before), now - WINDOW)
    decreases |before|, 1
  {
    if before != [] {
      var last, history := before[|before| - 1], Accepted(limit, before);
      DequeIsRecentHistory(limit, before);
      AcceptedOrdered(limit, before);
      RecentOrdered(history, last - WINDOW);
      PrunedIsRecent(Deque(limit, before), now - WINDOW);
      RecentTwice(history, last - WINDOW, now - WINDOW);
    }
  }

  /** One call on a deque that agrees with a history: it decides alike and agrees again. */
  lemma CallAgrees(limit: int, events: seq<real>, history: seq<real>, now: real)
    requires Pruned(events, now - WINDOW) == Recent(history, now - WINDOW)
    ensures Call(limit, events, now)
         == Recent(if Admits(limit, history, now) then history + [now] else history, now - WINDOW)
  {
    RecentAppend(history, [now], now - WINDOW);
    RecentOne(now, now - WINDOW);
  }

  /** The deque is always the accepted requests of the last 60 seconds of the full history. */
  lemma {:induction false} DequeIsRecentHistory(limit: int, readings: seq<real>)
    requires Ordered(readings) && readings != []
    ensures Deque(limit, readings) == Recent(Accepted(limit, readings), readings[|readings| - 1] - WINDOW)
    decreases |readings|, 0
  {
    var before, now := readings[..|readings| - 1], readings[|readings| - 1];
    PrunedDeque(limit, before, now);
    CallAgrees(limit, Deque(limit, before), Accepted(limit, before), now);
  }

  /* ---- The bound on every window ---- */

  function InWindow(accepted: seq<real>, from: real): nat {
    if accepted == [] then 0 else
    var last := accepted[|accepted| - 1];
    InWindow(accepted[..|accepted| - 1], from) + (if from < last <= from + WINDOW then 1 else 0)
  }

  lemma {:induction false} WindowWithinRecent(a: seq<real>, from: real, cutoff: real)
    requires cutoff <= from
    ensures InWindow(a, from) <= |Recent(a, cutoff)|
  {
    if a != [] {
      WindowWithinRecent(a[..|a| - 1], from, cutoff);
    }
  }

  /** Every half-open window of 60 seconds holds at most `limit` accepted requests. */
  lemma {:induction false} WindowBounded(limit: int, readings: seq<real>, from: real)
    requires limit >= 0
    ensures InWindow(Accepted(limit, readings), from) <= limit
  {
    if readings != [] {
      var before, now := readings[..|readings| - 1], readings[|readings| - 1];
      WindowBounded(limit, before, from);
      var history := Accepted(limit, before);
      if Admits(limit, history, now) && from < now <= from + WINDOW {
        WindowWithinRecent(history, from, now - WINDOW);
        assert (history + [now])[..|history|] == history;
      } else if Admits(limit, history, now) {
        assert (history + [now])[..|history|] == history;
      }
    }
  }

  /* ---- What the deque itself admits ---- */

  predicate Grants(limit: int, before: seq<real>, now: real) {
    |Pruned(Deque(limit, before), now - WINDOW)| < limit
  }

  /** The readings of the calls that the deque lets through. */
  function Granted(limit: int, readings: seq<real>): seq<real> {
    if readings == [] then [] else
    var (before, now) := (readings[..|readings| - 1], readings[|readings| - 1]);
    Granted(limit, before) + if Grants(limit, before, now) then [now] else []
  }

  /** The leading events that a call pops. */
  function Leading(events: seq<real>, cutoff: real): seq<real> {
    if events != [] && events[0] <= cutoff then [events[0]] + Leading(events[1..], cutoff) else []
  }

  /** The granted readings that are no longer in the deque. */
  function Popped(limit: int, readings: seq<real>): seq<real> {
    if readings == [] then [] else
    var (before, now) := (readings[..|readings| - 1], readings[|readings| - 1]);
    Popped(limit, before) + Leading(Deque(limit, before), now - WINDOW)
  }

  lemma Regroup(a: seq<real>, b: seq<real>, c: seq<real>)
    ensures (a + b) + c == a + (b + c)
  {
  }

  lemma {:induction false} LeadingAndRest(events: seq<real>, cutoff: real)
    ensures Leading(events, cutoff) + Pruned(events, cutoff) == events
    decreases |events|
  {
    if events != [] && events[0] <= cutoff {
      LeadingAndRest(events[1..], cutoff);
      Regroup([events[0]], Leading(events[1..], cutoff), Pruned(events[1..], cutoff));
    }
  }

  lemma {:induction false} LeadingIsOld(events: seq<real>, cutoff: real)
    ensures forall t :: t in Leading(events, cutoff) ==> t <= cutoff
    decreases |events|
  {
    if events != [] && events[0] <= cutoff {
      LeadingIsOld(events[1..], cutoff);
    }
  }

  /** One call moves events from the deque to the popped ones and appends what it grants. */
  lemma CallSplits(limit: int, granted: seq<real>, popped: seq<real>, events: seq<real>, now: real)
    requires granted == popped + events
    ensures granted + (if |Pruned(events, now - WINDOW)| < limit then [now] else [])
         == (popped + Leading(events, now - WINDOW)) + Call(limit, events, now)
  {
    var (leading, rest) := (Leading(events, now - WINDOW), Pruned(events, now - WINDOW));
    LeadingAndRest(events, now - WINDOW);
    if |rest| < limit {
      PopAndPush(popped, leading, rest, [now]);
    } else {
      Regroup(popped, leading, rest);
      assert granted + [] == granted;
    }
  }

  lemma {:induction false} GrantedIsPoppedAndDeque(limit: int, readings: seq<real>)
    ensures Granted(limit, readings) == Popped(limit, readings) + Deque(limit, readings)
    decreases |readings|
  {
    if readings != [] {
      var (before, now) := (readings[..|readings| - 1], readings[|readings| - 1]);
      GrantedIsPoppedAndDeque(limit, before);
      CallSplits(limit, Granted(limit, before), Popped(limit, before), Deque(limit, before), now);
    }
  }

  lemma PopAndPush(popped: seq<real>, leading: seq<real>, rest: seq<real>, added: seq<real>)
    ensures (popped + (leading + rest)) + added == (popped + leading) + (rest + added)
  {
  }

  /** A call misses an event: one it should still count was popped for an earlier call. */
  predicate Misses(limit: int, before: seq<real>, now: real) {
    exists t :: t in Popped(limit, before) && t > now - WINDOW
  }

  lemma {:induction false} RecentEmptyIff(a: seq<real>, cutoff: real)
    ensures Recent(a, cutoff) == [] <==> forall t :: t in a ==> t <= cutoff
  {
    if a != [] {
      var (front, last) := (a[..|a| - 1], a[|a| - 1]);
      RecentEmptyIff(front, cutoff);
      assert a == front + [last];
      assert last in a && forall t :: t in front ==> t in a;
    }
  }

  lemma RecentOfSplit(limit: int, before: seq<real>, cutoff: real)
    ensures Recent(Granted(limit, before), cutoff)
         == Recent(Popped(limit, before), cutoff) + Recent(Pruned(Deque(limit, before), cutoff), cutoff)
  {
    var deque := Deque(limit, before);
    GrantedIsPoppedAndDeque(limit, before);
    LeadingAndRest(deque, cutoff);
    LeadingIsOld(deque, cutoff);
    RecentEmptyIff(Leading(deque, cutoff), cutoff);
    RecentAppend(Popped(limit, before), deque, cutoff);
    RecentAppend(Leading(deque, cutoff), Pruned(deque, cutoff), cutoff);
  }

  /** A call sees every granted reading of the 60 seconds before it iff none of them was popped already. */
  lemma SeesAllIff(limit: int, before: seq<real>, now: real)
    ensures Recent(Pruned(Deque(limit, before), now - WINDOW), now - WINDOW) == Recent(Granted(limit, before), now - WINDOW)
            <==> !Misses(limit, before, now)
  {
    RecentOfSplit(limit, before, now - WINDOW);
    RecentEmptyIff(Popped(limit, before), now - WINDOW);
    var cutoff := now - WINDOW;
    var (lost, seen) := (Recent(Popped(limit, before), cutoff), Recent(Pruned(Deque(limit, before), cutoff), cutoff));
    assert |lost + seen| == |lost| + |seen|;
  }

  lemma {:induction false} RecentShorter(a: seq<real>, cutoff: real)
    ensures |Recent(a, cutoff)| <= |a|
  {
    if a != [] {
      RecentShorter(a[..|a| - 1], cutoff);
    }
  }

  ghost predicate NothingMissed(limit: int, readings: seq<real>) {
    forall n :: 0 <= n < |readings| ==> !Misses(limit, readings[..n], readings[n])
  }

  lemma NothingMissedBefore(limit: int, readings: seq<real>)
    requires readings != [] && NothingMissed(limit, readings)
    ensures NothingMissed(limit, readings[..|readings| - 1])
    ensures !Misses(limit, readings[..|readings| - 1], readings[|readings| - 1])
  {
    var before := readings[..|readings| - 1];
    forall n | 0 <= n < |before|
      ensures !Misses(limit, before[..n], before[n])
    {
      assert before[..n] == readings[..n];
      assert !Misses(limit, readings[..n], readings[n]);
    }
  }

  lemma InWindowSnoc(a: seq<real>, t: real, from: real)
    ensures InWindow(a + [t], from) == InWindow(a, from) + if from < t <= from + WINDOW then 1 else 0
  {
    assert (a + [t])[..|a|] == a;
  }

  /** As long as no call misses an event, every window of 60 seconds holds at most `limit` granted requests. */
  lemma {:induction false} GrantedWindowBounded(limit: int, readings: seq<real>, from: real)
    requires limit >= 0 && NothingMissed(limit, readings)
    ensures InWindow(Granted(limit, readings), from) <= limit
    decreases |readings|
  {
    if readings != [] {
      var (before, now) := (readings[..|readings| - 1], readings[|readings| - 1]);
      NothingMissedBefore(limit, readings);
      GrantedWindowBounded(limit, before, from);
      var (history, cutoff) := (Granted(limit, before), now - WINDOW);
      if Grants(limit, before, now) {
        InWindowSnoc(history, now, from);
        SeesAllIff(limit, before, now);
        RecentShorter(Pruned(Deque(limit, before), cutoff), cutoff);
        if from < now <= from + WINDOW {
          WindowWithinRecent(history, from, cutoff);
        }
      } else {
        assert history + [] == history;
      }
    }
  }

  lemma OrderedBefore(readings: seq<real>)
    requires readings != [] && Ordered(readings)
    ensures var before := readings[..|readings| - 1];
      Ordered(before) && AllUpTo(before, readings[|readings| - 1])
  {
  }

  predicate AllUpTo(times: seq<real>, bound: real) {
    forall t :: t in times ==> t <= bound
  }

  lemma UpToBoth(a: seq<real>, b: seq<real>, early: real, late: real)
    requires AllUpTo(a, early) && AllUpTo(b, late) && early <= late
    ensures AllUpTo(a + b, late)
  {
  }

  lemma {:induction false} PoppedAreOld(limit: int, readings: seq<real>, bound: real)
    requires Ordered(readings) && AllUpTo(readings, bound)
    ensures AllUpTo(Popped(limit, readings), bound - WINDOW)
    decreases |readings|
  {
    if readings != [] {
      var (before, now) := (readings[..|readings| - 1], readings[|readings| - 1]);
      OrderedBefore(readings);
      PoppedAreOld(limit, before, now);
      LeadingIsOld(Deque(limit, before), now - WINDOW);
      assert now in readings;
      UpToBoth(Popped(limit, before), Leading(Deque(limit, before), now - WINDOW), now - WINDOW, bound - WINDOW);
    }
  }

  lemma {:induction false} OrderedGrants(limit: int, readings: seq<real>)
    requires Ordered(readings)
    ensures Granted(limit, readings) == Accepted(limit, readings)
    decreases |readings|
  {
    if readings != [] {
      var (before, now) := (readings[..|readings| - 1], readings[|readings| - 1]);
      OrderedBefore(readings);
      OrderedGrants(limit, before);
      if before != [] {
        assert before[|before| - 1] in before;
      }
      PrunedDeque(limit, before, now);
      if !Grants(limit, before, now) {
        assert Granted(limit, before) + [] == Granted(limit, before);
      }
    }
  }

  lemma OrderedMissesNothing(limit: int, readings: seq<real>)
    requires Ordered(readings)
    ensures NothingMissed(limit, readings)
  {
    forall n | 0 <= n < |readings|
      ensures !Misses(limit, readings[..n], readings[n])
    {
      PoppedAreOld(limit, readings[..n], readings[n]);
    }
  }

  /** Readings that never decrease miss nothing, and the deque then decides as the full history does. */
  lemma OrderedFollowsHistory(limit: int, readings: seq<real>)
    requires Ordered(readings)
    ensures Granted(limit, readings) == Accepted(limit, readings) && NothingMissed(limit, readings)
  {
    OrderedGrants(limit, readings);
    OrderedMissesNothing(limit, readings);
  }

  /** For readings that never decrease every window holds at most `limit` granted requests. */
  lemma OrderedWindowBounded(limit: int, readings: seq<real>, from: real)
    requires limit >= 0 && Ordered(readings)
    ensures InWindow(Granted(limit, readings), from) <= limit
  {
    OrderedMissesNothing(limit, readings);
    GrantedWindowBounded(limit, readings, from);
  }

  /* ---- An older reading ---- */

  lemma GrantedSnoc(limit: int, before: seq<real>, now: real)
    ensures Deque(limit, before + [now]) == Call(limit, Deque(limit, before), now)
    ensures Granted(limit, before + [now]) == Granted(limit, before) + if Grants(limit, before, now) then [now] else []
    ensures Popped(limit, before + [now]) == Popped(limit, before) + Leading(Deque(limit, before), now - WINDOW)
  {
    assert (before + [now])[..|before|] == before;
  }

  lemma FirstOne()
    ensures Granted(2, [0.0]) == [0.0] && Deque(2, [0.0]) == [0.0] && Popped(2, [0.0]) == []
  {
    GrantedSnoc(2, [], 0.0);
    assert [] + [0.0] == [0.0];
  }

  lemma FirstTwo()
    ensures Granted(2, [0.0, 1.0]) == [0.0, 1.0] && Deque(2, [0.0, 1.0]) == [0.0, 1.0] && Popped(2, [0.0, 1.0]) == []
  {
    FirstOne();
    GrantedSnoc(2, [0.0], 1.0);
    assert [0.0] + [1.0] == [0.0, 1.0];
    assert Pruned([0.0], 1.0 - WINDOW) == [0.0] && Leading([0.0], 1.0 - WINDOW) == [];
  }

  lemma BothPopped()
    ensures Pruned([0.0, 1.0], 1.0) == [] && Leading([0.0, 1.0], 1.0) == [0.0, 1.0]
  {
    assert [0.0, 1.0][1..] == [1.0] && [1.0][1..] == [];
    assert Pruned([1.0], 1.0) == [] && Leading([1.0], 1.0) == [1.0];
  }

  lemma FirstThree()
    ensures Granted(2, [0.0, 1.0, 61.0]) == [0.0, 1.0, 61.0]
    ensures Deque(2, [0.0, 1.0, 61.0]) == [61.0] && Popped(2, [0.0, 1.0, 61.0]) == [0.0, 1.0]
  {
    FirstTwo();
    BothPopped();
    GrantedSnoc(2, [0.0, 1.0], 61.0);
    assert [0.0, 1.0] + [61.0] == [0.0, 1.0, 61.0];
  }

  /**
   The clock is read before the lock is taken, so a late thread can bring an older reading.
   With readings 0, 1, 61 and then 59 and a limit of 2, all four are granted: the last call misses
   the reading 0 or 1 that was popped for the third, and three requests fall into one window.
   */
  lemma OlderReadingOverfills()
    ensures !Ordered([0.0, 1.0, 61.0, 59.0])
    ensures Granted(2, [0.0, 1.0, 61.0, 59.0]) == [0.0, 1.0, 61.0, 59.0]
    ensures Misses(2, [0.0, 1.0, 61.0], 59.0)
    ensures InWindow(Granted(2, [0.0, 1.0, 61.0, 59.0]), -1.0) == 3
  {
    var r := [0.0, 1.0, 61.0, 59.0];
    assert r[2] > r[3];
    FirstThree();
    GrantedSnoc(2, [0.0, 1.0, 61.0], 59.0);
    assert [0.0, 1.0, 61.0] + [59.0] == r;
    assert 0.0 in Popped(2, [0.0, 1.0, 61.0]);
    ThreeInWindow();
  }

  lemma ThreeInWindow()
    ensures InWindow([0.0, 1.0, 61.0, 59.0], -1.0) == 3
  {
    InWindowSnoc([], 0.0, -1.0);
    InWindowSnoc([0.0], 1.0, -1.0);
    InWindowSnoc([0.0, 1.0], 61.0, -1.0);
    InWindowSnoc([0.0, 1.0, 61.0], 59.0, -1.0);
    assert [] + [0.0] == [0.0] && [0.0] + [1.0] == [0.0, 1.0] && [0.0, 1.0] + [61.0] == [0.0, 1.0, 61.0];
    assert [0.0, 1.0, 61.0] + [59.0] == [0.0, 1.0, 61.0, 59.0];
  }

  /* ---- The object ---- */

  /** A decision and a deque as the full history of accepted requests gives them. */
  ghost predicate FollowsHistory(limit: int, before: seq<real>, now: real, allowed: bool, events: seq<real>) {
    && (allowed <==> Admits(limit, Accepted(limit, before), now))
    && events == Recent(Accepted(limit, before + [now]), now - WINDOW)
  }

  function Of(entries: map<string, seq<real>>, key: string): seq<real> {
    if key in entries then entries[key] else []
  }

  predicate AgreeAt(limit: int, events: map<string, seq<real>>, readings: map<string, seq<real>>, key: string) {
    Of(events, key) == Deque(limit, Of(readings, key))
  }

  /** Every key's deque is the one its readings give. */
  ghost predicate Agree(limit: int, events: map<string, seq<real>>, readings: map<string, seq<real>>) {
    forall key: string :: AgreeAt(limit, events, readings, key)
  }

  lemma AgreeUpdated(
    limit: int, events: map<string, seq<real>>, readings: map<string, seq<real>>, key: string, deque: seq<real>, all: seq<real>)
    requires Agree(limit, events, readings) && deque == Deque(limit, all)
    ensures Agree(limit, events[key := deque], readings[key := all])
  {
    var (events', readings') := (events[key := deque], readings[key := all]);
    forall other: string
      ensures AgreeAt(limit, events', readings', other)
    {
      assert AgreeAt(limit, events, readings, other);
    }
  }

  class InMemoryRateLimiter {
    const requestsPerMinute: int
    var events: map<string, seq<real>>
    // The readings each key was called with, in order.
    ghost var readings: map<string, seq<real>>

    function EventsOf(key: string): seq<real>
      reads this
    {
      Of(events, key)
    }

    ghost function ReadingsOf(key: string): seq<real>
      reads this
    {
      Of(readings, key)
    }

    ghost predicate Valid()
      reads this
    {
      Agree(requestsPerMinute, events, readings)
    }

    constructor (requestsPerMinute: int)
      ensures Valid() && this.requestsPerMinute == requestsPerMinute
      ensures forall key: string :: ReadingsOf(key) == []
    {
      this.requestsPerMinute := requestsPerMinute;
      events := map[];
      readings := map[];
    }

    /**
     The decision for a key is the deque's over its readings, and for readings that never decrease
     the reference decision from the full history; other keys are left alone.
     */
    method Allow(key: string, now: real) returns (allowed: bool)
      requires Valid()
      modifies this
      ensures Valid()
      ensures readings == old(readings)[key := old(ReadingsOf(key)) + [now]]
      ensures events == old(events)[key := Call(requestsPerMinute, old(EventsOf(key)), now)]
      ensures allowed <==> Grants(requestsPerMinute, old(ReadingsOf(key)), now)
      ensures Ordered(old(ReadingsOf(key)) + [now]) ==>
                FollowsHistory(requestsPerMinute, old(ReadingsOf(key)), now, allowed, EventsOf(key))
    {
      ghost var before := ReadingsOf(key);
      assert AgreeAt(requestsPerMinute, events, readings, key);
      var deque;
      deque, allowed := Decide(EventsOf(key), now);
      CallIsDeque(requestsPerMinute, before, now, deque, allowed);
      AgreeUpdated(requestsPerMinute, events, readings, key, deque, before + [now]);
      events := events[key := deque];
      readings := readings[key := before + [now]];
    }

    /** One call on the deque of a key. */
    method Decide(events: seq<real>, now: real) returns (deque: seq<real>, allowed: bool)
      ensures deque == Call(requestsPerMinute, events, now)
      ensures allowed <==> |Pruned(events, now - WINDOW)| < requestsPerMinute
    {
      deque := PopOld(events, now - WINDOW);
      allowed := |deque| < requestsPerMinute;
      if allowed {
        deque := deque + [now];
      }
    }

    method PopOld(events: seq<real>, cutoff: real) returns (deque: seq<real>)
      ensures deque == Pruned(events, cutoff)
    {
      deque := events;
      while deque != [] && deque[0] <= cutoff
        invariant Pruned(deque, cutoff) == Pruned(events, cutoff)
        decreases |deque|
      {
        deque := deque[1..];
      }
    }
  }

  lemma LimiterStep(limit: int, before: seq<real>, now: real)
    ensures Deque(limit, before + [now]) == Call(limit, Deque(limit, before), now)
  {
    var all := before + [now];
    assert all[..|all| - 1] == before;
  }

  lemma LimiterDecision(limit: int, before: seq<real>, now: real)
    requires Ordered(before + [now])
    ensures |Pruned(Deque(limit, before), now - WINDOW)| < limit <==> Admits(limit, Accepted(limit, before), now)
  {
    OrderedPrefix(before, now);
    PrunedDeque(limit, before, now);
  }

  lemma LimiterDeque(limit: int, before: seq<real>, now: real)
    requires Ordered(before + [now])
    ensures Deque(limit, before + [now]) == Recent(Accepted(limit, before + [now]), now - WINDOW)
  {
    var all := before + [now];
    DequeIsRecentHistory(limit, all);
    assert all[|all| - 1] == now;
  }

  lemma LimiterFollowsHistory(limit: int, before: seq<real>, now: real, allowed: bool)
    requires Ordered(before + [now]) && (allowed <==> Grants(limit, before, now))
    ensures FollowsHistory(limit, before, now, allowed, Deque(limit, before + [now]))
  {
    LimiterDecision(limit, before, now);
    LimiterDeque(limit, before, now);
  }

  lemma CallIsDeque(limit: int, before: seq<real>, now: real, deque: seq<real>, allowed: bool)
    requires deque == Call(limit, Deque(limit, before), now) && (allowed <==> Grants(limit, before, now))
    ensures deque == Deque(limit, before + [now])
    ensures Ordered(before + [now]) ==> FollowsHistory(limit, before, now, allowed, deque)
  {
    LimiterStep(limit, before, now);
    if Ordered(before + [now]) {
      LimiterFollowsHistory(limit, before, now, allowed);
    }
  }

  lemma OrderedPrefix(before: seq<real>, now: real)
    requires Ordered(before + [now])
    ensures Ordered(before) && (before != [] ==> before[|before| - 1] <= now)
  {
    var all := before + [now];
    assert forall i | 0 <= i < |before| :: before[i] == all[i];
    assert all[|before|] == now;
  }
}
