/**
 The counter pattern shared by the rate limiter and the report counter: INCR, and EXPIRE
 on the first increment only, so the window is fixed and does not slide. The increment
 and its expiry are one step.
 */
module FixedWindow {
  import opened Redis

  type Counter = Option<Keyed<nat>>

  function Hit(c: Counter, now: int, window: int): Keyed<nat> {
    if c.Some? && now < c.value.expireAt then Keyed(c.value.value + 1, c.value.expireAt)
    else Keyed(1, now + window)
  }

  ghost predicate Monotone(ts: seq<int>) {
    forall i, j :: 0 <= i <= j < |ts| ==> ts[i] <= ts[j]
  }

  /** The counter after the first n increments at times ts. */
  function State(ts: seq<int>, window: int, n: nat): Counter
    requires n <= |ts|
  {
    if n == 0 then None else Some(Hit(State(ts, window, n - 1), ts[n - 1], window))
  }

  /** What the i-th increment returns, and when its window began. */
  function CountAt(ts: seq<int>, window: int, i: nat): nat
    requires i < |ts|
  {
    State(ts, window, i + 1).value.value
  }

  function StartAt(ts: seq<int>, window: int, i: nat): int
    requires i < |ts|
  {
    State(ts, window, i + 1).value.expireAt - window
  }

  function Min(a: int, b: int): int {
    if a < b then a else b
  }

  // ----- windows -----

  /** An increment falls in the window it is counted in, which began with the increment
      as many places back as its count says. */
  lemma {:induction false} WindowOf(ts: seq<int>, window: int, i: nat)
    requires Monotone(ts) && window > 0 && i < |ts|
    ensures StartAt(ts, window, i) <= ts[i] < StartAt(ts, window, i) + window
    ensures 1 <= CountAt(ts, window, i) <= i + 1
    ensures ts[i + 1 - CountAt(ts, window, i)] == StartAt(ts, window, i)
  {
    if i == 0 {
      assert State(ts, window, 0) == None;
    } else {
      WindowOf(ts, window, i - 1);
    }
  }

  /** After a silence of one window a new window begins, and counts from one. */
  lemma {:induction false} FreshWindow(ts: seq<int>, window: int, i: nat, k: nat)
    requires Monotone(ts) && window > 0 && i <= k < |ts|
    requires i > 0 ==> ts[i - 1] + window <= ts[i]
    requires ts[k] < ts[i] + window
    ensures StartAt(ts, window, k) == ts[i] && CountAt(ts, window, k) == k - i + 1
  {
    if k == i {
      if i == 0 {
        assert State(ts, window, 0) == None;
      } else {
        WindowOf(ts, window, i - 1);
      }
    } else {
      FreshWindow(ts, window, i, k - 1);
    }
  }

  function SizeOf(ts: seq<int>, window: int, start: int, n: nat): nat
    requires n <= |ts|
  {
    if n == 0 then 0
    else SizeOf(ts, window, start, n - 1) + if StartAt(ts, window, n - 1) == start then 1 else 0
  }

  function ServedIn(ts: seq<int>, window: int, limit: int, start: int, n: nat): nat
    requires n <= |ts|
  {
    if n == 0 then 0
    else ServedIn(ts, window, limit, start, n - 1) +
         if StartAt(ts, window, n - 1) == start && CountAt(ts, window, n - 1) <= limit then 1 else 0
  }

  /** Each window serves exactly its first limit increments. */
  lemma {:induction false} FirstComeFirstServed(ts: seq<int>, window: int, limit: nat, start: int, n: nat)
    requires Monotone(ts) && window > 0 && n <= |ts|
    ensures ServedIn(ts, window, limit, start, n) == Min(SizeOf(ts, window, start, n), limit)
    ensures n > 0 ==> StartAt(ts, window, n - 1) == start ==> SizeOf(ts, window, start, n) == CountAt(ts, window, n - 1)
    ensures n > 0 && start > StartAt(ts, window, n - 1) ==> SizeOf(ts, window, start, n) == 0
  {
    if n > 0 {
      FirstComeFirstServed(ts, window, limit, start, n - 1);
      WindowOf(ts, window, n - 1);
      if n > 1 {
        WindowOf(ts, window, n - 2);
      }
    }
  }

  // ----- any span as long as the window -----

  function ServedDuring(ts: seq<int>, window: int, limit: int, from: int, n: nat): nat
    requires n <= |ts|
  {
    if n == 0 then 0
    else ServedDuring(ts, window, limit, from, n - 1) +
         if from <= ts[n - 1] < from + window && CountAt(ts, window, n - 1) <= limit then 1 else 0
  }

  lemma {:induction false} SpanInvariant(ts: seq<int>, window: int, limit: nat, from: int, n: nat)
    requires Monotone(ts) && window > 0 && limit >= 1 && 0 < n <= |ts|
    ensures var served, start, count :=
              ServedDuring(ts, window, limit, from, n), StartAt(ts, window, n - 1), CountAt(ts, window, n - 1);
      && (ts[n - 1] < from ==> served == 0)
      && (start < from ==> served <= Min(count, limit) - 1)
      && (from <= start < from + window ==> served <= limit - 1 + Min(count, limit))
      && served <= 2 * limit - 1
  {
    WindowOf(ts, window, n - 1);
    if n > 1 {
      SpanInvariant(ts, window, limit, from, n - 1);
      WindowOf(ts, window, n - 2);
    }
  }

  /** No half-open span of one window length serves more than 2 * limit - 1 increments. */
  lemma SpanBound(ts: seq<int>, window: int, limit: nat, from: int, n: nat)
    requires Monotone(ts) && window > 0 && limit >= 1 && n <= |ts|
    ensures ServedDuring(ts, window, limit, from, n) <= 2 * limit - 1
  {
    if n > 0 {
      SpanInvariant(ts, window, limit, from, n);
    }
  }

  // ----- many counters -----

  type Counters = map<string, Keyed<nat>>

  datatype Event = Event(key: string, at: int, window: int)

  function Lookup(counters: Counters, key: string): Counter {
    if key in counters then Some(counters[key]) else None
  }

  function Incremented(counters: Counters, key: string, now: int, window: int): Counters {
    counters[key := Hit(Lookup(counters, key), now, window)]
  }

  /** The counters after the first n events. */
  function After(events: seq<Event>, n: nat): Counters
    requires n <= |events|
  {
    if n == 0 then map[]
    else Incremented(After(events, n - 1), events[n - 1].key, events[n - 1].at, events[n - 1].window)
  }

  /** The times of the events for key. */
  function TimesOf(events: seq<Event>, key: string, n: nat): seq<int>
    requires n <= |events|
  {
    if n == 0 then []
    else TimesOf(events, key, n - 1) + if events[n - 1].key == key then [events[n - 1].at] else []
  }

  ghost predicate Ordered(events: seq<Event>) {
    forall i, j :: 0 <= i <= j < |events| ==> events[i].at <= events[j].at
  }

  /** All events for key use the same window. */
  ghost predicate SameWindow(events: seq<Event>, key: string, window: int) {
    forall i :: 0 <= i < |events| && events[i].key == key ==> events[i].window == window
  }

  lemma {:induction false} StatePrefix(ts: seq<int>, t: int, window: int, n: nat)
    requires n <= |ts|
    ensures State(ts + [t], window, n) == State(ts, window, n)
  {
    if n > 0 {
      StatePrefix(ts, t, window, n - 1);
    }
  }

  lemma {:induction false} ServedPrefix(ts: seq<int>, t: int, window: int, limit: int, from: int, n: nat)
    requires n <= |ts|
    ensures ServedDuring(ts + [t], window, limit, from, n) == ServedDuring(ts, window, limit, from, n)
  {
    if n > 0 {
      ServedPrefix(ts, t, window, limit, from, n - 1);
      StatePrefix(ts, t, window, n);
    }
  }

  /** Events for other keys make no difference: a key's counter is that of its own events. */
  lemma {:induction false} KeysAreIndependent(events: seq<Event>, key: string, window: int, n: nat)
    requires n <= |events| && SameWindow(events, key, window)
    ensures var ts := TimesOf(events, key, n); Lookup(After(events, n), key) == State(ts, window, |ts|)
  {
    if n > 0 {
      KeysAreIndependent(events, key, window, n - 1);
      if events[n - 1].key == key {
        var ts := TimesOf(events, key, n - 1);
        StatePrefix(ts, events[n - 1].at, window, |ts|);
      } else {
        assert TimesOf(events, key, n) == TimesOf(events, key, n - 1);
      }
    }
  }

  lemma {:induction false} TimesAreMonotone(events: seq<Event>, key: string, n: nat)
    requires Ordered(events) && n <= |events|
    ensures Monotone(TimesOf(events, key, n))
    ensures forall t :: t in TimesOf(events, key, n) ==> n > 0 && t <= events[n - 1].at
  {
    if n > 0 {
      TimesAreMonotone(events, key, n - 1);
      var ts := TimesOf(events, key, n - 1);
      assert forall i :: 0 <= i < |ts| ==> ts[i] in ts;
    }
  }

  // ----- the bound is reached -----

  function Repeat(t: int, n: nat): (r: seq<int>)
    ensures |r| == n && forall i :: 0 <= i < n ==> r[i] == t
  {
    seq(n, _ => t)
  }

  /** One early increment, the rest of its window at the last moment, and a full window
      right after. */
  function Burst(window: int, limit: nat): (ts: seq<int>)
    requires limit >= 1
    ensures |ts| == 2 * limit
  {
    [0] + Repeat(window - 1, limit - 1) + Repeat(window, limit)
  }

  lemma {:induction false} BurstCounts(window: int, limit: nat, n: nat)
    requires window >= 2 && limit >= 1 && 1 <= n <= 2 * limit
    ensures State(Burst(window, limit), window, n) ==
            Some(if n <= limit then Keyed(n, window) else Keyed(n - limit, 2 * window))
    ensures ServedDuring(Burst(window, limit), window, limit, window - 1, n) == n - 1
  {
    var ts := Burst(window, limit);
    assert ts[n - 1] == if n == 1 then 0 else if n <= limit then window - 1 else window;
    if n == 1 {
      assert State(ts, window, 0) == None;
    } else {
      BurstCounts(window, limit, n - 1);
    }
  }

  lemma SpanBoundIsTight(window: int, limit: nat)
    requires window >= 2 && limit >= 1
    ensures var ts := Burst(window, limit);
      Monotone(ts) && ServedDuring(ts, window, limit, window - 1, |ts|) == 2 * limit - 1
  {
    BurstCounts(window, limit, 2 * limit);
    var ts := Burst(window, limit);
    assert forall i :: 0 <= i < |ts| ==> ts[i] == if i == 0 then 0 else if i < limit then window - 1 else window;
  }
}
