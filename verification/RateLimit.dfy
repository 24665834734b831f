/**
 * The sliding-window rate limiter. The reference is the full history of
 * accepted checks; the limiter keeps only what it has not yet dropped.
 */
module RateLimit {
  type Key = string

  // The timestamps later than the cutoff, in order.
  function After(times: seq<int>, cutoff: int): seq<int> {
    if times == [] then [] else (if times[0] > cutoff then [times[0]] else []) + After(times[1..], cutoff)
  }

  function Get(store: map<Key, seq<int>>, key: Key): seq<int> {
    if key in store then store[key] else []
  }

  datatype Limits = Limits(max: nat, windowMs: int)

  datatype Event = Check(key: Key, now: int) | Sweep(now: int)

  // ---- The limiter as it is -------------------------------------------------------------

  function CheckStore(l: Limits, store: map<Key, seq<int>>, key: Key, now: int): (map<Key, seq<int>>, bool) {
    var timestamps := After(Get(store, key), now - l.windowMs);
    if |timestamps| >= l.max then (store[key := timestamps], false) else (store[key := timestamps + [now]], true)
  }

  function SweepStore(l: Limits, store: map<Key, seq<int>>, now: int): map<Key, seq<int>> {
    map key | key in store && After(store[key], now - l.windowMs) != [] :: store[key]
  }

  /** The verdicts of a run, newest last. */
  function Verdicts(l: Limits, store: map<Key, seq<int>>, events: seq<Event>): seq<bool>
    decreases events
  {
    if events == [] then []
    else match events[0]
      case Check(key, now) =>
        var (next, ok) := CheckStore(l, store, key, now);
        [ok] + Verdicts(l, next, events[1..])
      case Sweep(now) => Verdicts(l, SweepStore(l, store, now), events[1..])
  }

  // ---- The reference: all accepted checks ------------------------------------------------

  predicate MayPass(l: Limits, history: map<Key, seq<int>>, key: Key, now: int) {
    |After(Get(history, key), now - l.windowMs)| < l.max
  }

  function Accepted(l: Limits, history: map<Key, seq<int>>, key: Key, now: int): map<Key, seq<int>> {
    if MayPass(l, history, key, now) then history[key := Get(history, key) + [now]] else history
  }

  // The verdicts if every accepted check was remembered forever and nothing was ever swept.
  function ReferenceVerdicts(l: Limits, history: map<Key, seq<int>>, events: seq<Event>): seq<bool>
    decreases events
  {
    if events == [] then []
    else match events[0]
      case Check(key, now) =>
        [MayPass(l, history, key, now)] + ReferenceVerdicts(l, Accepted(l, history, key, now), events[1..])
      case Sweep(_) => ReferenceVerdicts(l, history, events[1..])
  }

  function FinalHistory(l: Limits, history: map<Key, seq<int>>, events: seq<Event>): map<Key, seq<int>>
    decreases events
  {
    if events == [] then history
    else match events[0]
      case Check(key, now) => FinalHistory(l, Accepted(l, history, key, now), events[1..])
      case Sweep(_) => FinalHistory(l, history, events[1..])
  }

  // The clock never goes back.
  predicate ClockFrom(clock: int, events: seq<Event>)
    decreases events
  {
    events == [] || (clock <= events[0].now && ClockFrom(events[0].now, events[1..]))
  }

  // ---- Forgetting and sweeping change no verdict -------------------------------------------

  lemma {:induction false} AfterTwice(times: seq<int>, early: int, late: int)
    requires early <= late
    ensures After(After(times, early), late) == After(times, late)
  {
    if times != [] {
      AfterTwice(times[1..], early, late);
      AfterConcat(if times[0] > early then [times[0]] else [], After(times[1..], early), late);
    }
  }

  lemma {:induction false} AfterConcat(a: seq<int>, b: seq<int>, cutoff: int)
    ensures After(a + b, cutoff) == After(a, cutoff) + After(b, cutoff)
  {
    if a == [] {
      assert a + b == b;
    } else {
      assert (a + b)[1..] == a[1..] + b;
      AfterConcat(a[1..], b, cutoff);
    }
  }

  lemma {:induction false} AfterHolds(times: seq<int>, cutoff: int)
    ensures After(times, cutoff) != [] <==> exists t :: t in times && t > cutoff
  {
    if times != [] {
      AfterHolds(times[1..], cutoff);
      if t :| t in times && t > cutoff && t != times[0] {
        assert t in times[1..];
      }
      if t :| t in times[1..] && t > cutoff {
        assert t in times;
      }
      assert times[0] in times;
    }
  }

  lemma AfterFrom(times: seq<int>, i: nat, cutoff: int)
    requires i < |times|
    ensures After(times[i..], cutoff) ==
            if times[i] > cutoff then [times[i]] + After(times[i + 1..], cutoff) else After(times[i + 1..], cutoff)
  {
    assert times[i..][0] == times[i] && times[i..][1..] == times[i + 1..];
    assert [] + After(times[i + 1..], cutoff) == After(times[i + 1..], cutoff);
  }

  lemma NothingAfter(cutoff: int)
    ensures After([], cutoff) == []
  {
  }

  lemma AllOldExactlyWhen(times: seq<int>, cutoff: int)
    ensures (forall t | t in times :: t <= cutoff) <==> After(times, cutoff) == []
  {
    hide After;
    AfterHolds(times, cutoff);
  }

  lemma SweepKeeps(l: Limits, store: map<Key, seq<int>>, now: int)
    ensures var swept := SweepStore(l, store, now);
            && (forall key :: key in swept <==> key in store && exists t :: t in store[key] && t > now - l.windowMs)
            && forall key | key in swept :: swept[key] == store[key]
  {
    hide After;
    forall key | key in store
      ensures After(store[key], now - l.windowMs) != [] <==> exists t :: t in store[key] && t > now - l.windowMs
    {
      AfterHolds(store[key], now - l.windowMs);
    }
  }

  // The limiter remembers all that still counts at the time `clock`.
  ghost predicate Remembers(l: Limits, store: map<Key, seq<int>>, history: map<Key, seq<int>>, clock: int) {
    forall key :: After(Get(store, key), clock - l.windowMs) == After(Get(history, key), clock - l.windowMs)
  }

  lemma StillRemembers(l: Limits, store: map<Key, seq<int>>, history: map<Key, seq<int>>, clock: int, now: int)
    requires Remembers(l, store, history, clock) && clock <= now
    ensures Remembers(l, store, history, now)
  {
    hide After;
    forall key ensures After(Get(store, key), now - l.windowMs) == After(Get(history, key), now - l.windowMs) {
      AfterTwice(Get(store, key), clock - l.windowMs, now - l.windowMs);
      AfterTwice(Get(history, key), clock - l.windowMs, now - l.windowMs);
    }
  }

  lemma CheckRemembers(l: Limits, store: map<Key, seq<int>>, history: map<Key, seq<int>>, key: Key, now: int)
    requires Remembers(l, store, history, now)
    ensures CheckStore(l, store, key, now).1 == MayPass(l, history, key, now)
    ensures Remembers(l, CheckStore(l, store, key, now).0, Accepted(l, history, key, now), now)
  {
    var cutoff := now - l.windowMs;
    var next, later := CheckStore(l, store, key, now).0, Accepted(l, history, key, now);
    AfterTwice(Get(store, key), cutoff, cutoff);
    AfterConcat(After(Get(store, key), cutoff), [now], cutoff);
    AfterConcat(Get(history, key), [now], cutoff);
    assert After(Get(store, key), cutoff) == After(Get(history, key), cutoff);
    forall k ensures After(Get(next, k), cutoff) == After(Get(later, k), cutoff) {
      if k != key {
        assert Get(next, k) == Get(store, k) && Get(later, k) == Get(history, k);
      }
    }
  }

  /**
   * At any times the sweep runs, the limiter gives exactly the verdicts of a
   * limiter that remembers everything: a check is refused exactly when its
   * window already holds the maximum.
   */
  lemma {:induction false} SweepsChangeNothing(
    l: Limits, store: map<Key, seq<int>>, history: map<Key, seq<int>>, clock: int, events: seq<Event>)
    requires Remembers(l, store, history, clock) && ClockFrom(clock, events)
    ensures Verdicts(l, store, events) == ReferenceVerdicts(l, history, events)
    decreases events
  {
    if events != [] {
      var now := events[0].now;
      StillRemembers(l, store, history, clock, now);
      match events[0]
      case Check(key, _) =>
        CheckRemembers(l, store, history, key, now);
        SweepsChangeNothing(l, CheckStore(l, store, key, now).0, Accepted(l, history, key, now), now, events[1..]);
      case Sweep(_) =>
        assert forall k ::
          After(Get(SweepStore(l, store, now), k), now - l.windowMs) == After(Get(store, k), now - l.windowMs);
        SweepsChangeNothing(l, SweepStore(l, store, now), history, now, events[1..]);
    }
  }

  // ---- No window holds more than the maximum --------------------------------------------------

  predicate Sorted(times: seq<int>) {
    forall i, j | 0 <= i < j < |times| :: times[i] <= times[j]
  }

  // Any accepted check comes a full window after the one `max` places before it.
  predicate Spaced(l: Limits, times: seq<int>) {
    forall i | l.max <= i < |times| :: times[i - l.max] + l.windowMs <= times[i]
  }

  ghost predicate WellSpaced(l: Limits, history: map<Key, seq<int>>, clock: int) {
    forall key | key in history ::
      Sorted(history[key]) && Spaced(l, history[key]) && forall t | t in history[key] :: t <= clock
  }

  // Of sorted timestamps, those after the cutoff are the last ones.
  lemma {:induction false} AfterIsSuffix(times: seq<int>, cutoff: int)
    requires Sorted(times)
    ensures var n := |After(times, cutoff)|;
            n <= |times| && (forall i | 0 <= i < |times| :: times[i] > cutoff <==> i >= |times| - n)
  {
    if times != [] {
      AfterIsSuffix(times[1..], cutoff);
      forall i | 0 < i < |times| ensures times[i] == times[1..][i - 1] { }
    }
  }

  lemma AcceptedStaysSpaced(l: Limits, history: map<Key, seq<int>>, clock: int, key: Key, now: int)
    requires WellSpaced(l, history, clock) && clock <= now
    ensures WellSpaced(l, Accepted(l, history, key, now), now)
  {
    hide Sorted, Spaced, After;
    SortedNothing(l);
    if MayPass(l, history, key, now) {
      OneMoreStaysSpaced(l, Get(history, key), now);
    }
  }

  lemma SortedNothing(l: Limits)
    ensures Sorted([]) && Spaced(l, [])
  {
  }

  lemma OneMoreStaysSpaced(l: Limits, times: seq<int>, now: int)
    requires Sorted(times) && Spaced(l, times) && (forall t | t in times :: t <= now)
    requires |After(times, now - l.windowMs)| < l.max
    ensures Sorted(times + [now]) && Spaced(l, times + [now])
  {
    hide After;
    AfterIsSuffix(times, now - l.windowMs);
    var longer := times + [now];
    forall i | l.max <= i < |longer| ensures longer[i - l.max] + l.windowMs <= longer[i] {
      if i == |times| && l.max > 0 {
        assert times[i - l.max] <= now - l.windowMs;
      }
    }
    forall i, j | 0 <= i < j < |longer| ensures longer[i] <= longer[j] {
      assert times[i] in times;
    }
  }

  lemma {:induction false} HistoryStaysSpaced(l: Limits, history: map<Key, seq<int>>, clock: int, events: seq<Event>)
    returns (last: int)
    requires WellSpaced(l, history, clock) && ClockFrom(clock, events)
    ensures WellSpaced(l, FinalHistory(l, history, events), last)
    decreases events
  {
    if events == [] {
      last := clock;
    } else {
      var now := events[0].now;
      match events[0] {
        case Check(key, _) =>
          AcceptedStaysSpaced(l, history, clock, key, now);
          last := HistoryStaysSpaced(l, Accepted(l, history, key, now), now, events[1..]);
        case Sweep(_) => last := HistoryStaysSpaced(l, history, now, events[1..]);
      }
    }
  }

  // How many timestamps lie in (to - length, to].
  function CountWithin(times: seq<int>, to: int, length: int): nat {
    if times == [] then 0
    else (if to - length < times[0] <= to then 1 else 0) + CountWithin(times[1..], to, length)
  }

  lemma {:induction false} CountWithinBounded(l: Limits, times: seq<int>, to: int)
    requires Sorted(times) && Spaced(l, times)
    ensures CountWithin(times, to, l.windowMs) <= l.max
  {
    if times != [] {
      var rest := times[1..];
      assert Sorted(rest) && Spaced(l, rest);
      if to - l.windowMs < times[0] <= to {
        FirstInWindow(l, times, to);
      } else {
        CountWithinBounded(l, rest, to);
      }
    }
  }

  // When the first timestamp is in the window, the one `max` places on is past it.
  lemma FirstInWindow(l: Limits, times: seq<int>, to: int)
    requires times != [] && Sorted(times) && Spaced(l, times) && to - l.windowMs < times[0] <= to
    ensures CountWithin(times, to, l.windowMs) <= l.max
  {
    if |times| > l.max {
      assert times[l.max - l.max] + l.windowMs <= times[l.max];
      CountPast(times, to, l.windowMs, l.max);
    } else {
      CountPast(times, to, l.windowMs, |times|);
    }
  }

  lemma {:induction false} CountPast(times: seq<int>, to: int, length: int, n: nat)
    requires n <= |times| && forall i | n <= i < |times| :: times[i] > to
    ensures CountWithin(times, to, length) <= n
    decreases times
  {
    if times != [] {
      CountPast(times[1..], to, length, if n > 0 then n - 1 else 0);
    }
  }

  /**
   * In every run with a clock that never goes back, no window of the limiter's length
   * holds more than `max` accepted checks.
   */
  lemma NoWindowOverflows(l: Limits, clock: int, events: seq<Event>, key: Key, to: int)
    requires ClockFrom(clock, events)
    ensures CountWithin(Get(FinalHistory(l, map[], events), key), to, l.windowMs) <= l.max
  {
    var _ := HistoryStaysSpaced(l, map[], clock, events);
    var history := FinalHistory(l, map[], events);
    if key in history {
      CountWithinBounded(l, history[key], to);
    }
  }

  // ---- The limiter's map ------------------------------------------------------------------------

  class RateLimiter {
    const limits: Limits
    var store: map<Key, seq<int>>

    constructor (max: nat, windowMs: int)
      ensures limits == Limits(max, windowMs) && store == map[]
    {
      limits, store := Limits(max, windowMs), map[];
    }

    method Check(key: Key, now: int) returns (ok: bool)
      modifies this
      ensures (store, ok) == CheckStore(limits, old(store), key, now)
    {
      hide After;
      var cutoff := now - limits.windowMs;
      var kept := Get(store, key);
      var timestamps := [];
      assert kept[0..] == kept && [] + After(kept, cutoff) == After(kept, cutoff);
      for i := 0 to |kept|
        invariant store == old(store)
        invariant timestamps + After(kept[i..], cutoff) == After(kept, cutoff)
      {
        AfterFrom(kept, i, cutoff);
        if kept[i] > cutoff {
          assert timestamps + ([kept[i]] + After(kept[i + 1..], cutoff))
                 == timestamps + [kept[i]] + After(kept[i + 1..], cutoff);
          timestamps := timestamps + [kept[i]];
        }
      }
      NothingAfter(cutoff);
      assert kept[|kept|..] == [];
      assert timestamps + [] == timestamps;
      if |timestamps| >= limits.max {
        store := store[key := timestamps];
        return false;
      }
      store := store[key := timestamps + [now]];
      return true;
    }

    /** A key survives exactly if one of its timestamps is younger than the cutoff, and with all of them. */
    method Sweep(now: int)
      modifies this
      ensures store == SweepStore(limits, old(store), now)
      ensures forall key ::
                key in store <==> key in old(store) && exists t :: t in old(store)[key] && t > now - limits.windowMs
      ensures forall key | key in store :: store[key] == old(store)[key]
    {
      hide After;
      var cutoff := now - limits.windowMs;
      var pending := store.Keys;
      while pending != {}
        invariant pending <= store.Keys && store.Keys <= old(store).Keys
        invariant forall key | key in store :: store[key] == old(store)[key]
        invariant forall key | key in old(store) && key !in pending ::
                    key in store <==> After(old(store)[key], cutoff) != []
        decreases pending
      {
        var key :| key in pending;
        AllOldExactlyWhen(store[key], cutoff);
        if forall t | t in store[key] :: t <= cutoff {
          store := store - {key};
        }
        pending := pending - {key};
      }
      SweepKeeps(limits, old(store), now);
      assert store.Keys == SweepStore(limits, old(store), now).Keys;
    }
  }
}
