/** The fixed-window limiter on client challenges (api/client_challenge.go). */
module RateLimit {
  import opened Basics
  import opened Coverage

  const LIMIT: nat := 30
  const WINDOW: Time := 60_000_000_000   // one minute, in nanoseconds

  datatype State = State(window: Time, counts: map<string, nat>)

  function Count(s: State, key: string): nat {
    if key in s.counts then s.counts[key] else 0
  }

  /** The state a call finds: a lapsed window starts afresh and drops all counts. */
  function Opened(s: State, now: Time): State {
    if now - s.window >= WINDOW then State(now, map[]) else s
  }

  predicate Allows(s: State, key: string, now: Time) {
    Count(Opened(s, now), key) < LIMIT
  }

  function Called(s: State, key: string, now: Time): State {
    var o := Opened(s, now);
    if Allows(s, key, now) then o.(counts := o.counts[key := Count(o, key) + 1]) else o
  }

  class Limiter {
    var window: Time
    var entries: map<string, nat>

    function Value(): State
      reads this
    {
      State(window, entries)
    }

    method Allow(key: string, now: Time) returns (ok: bool)
      modifies this
      ensures ok == Allows(old(Value()), key, now)
      ensures Value() == Called(old(Value()), key, now)
    {
      if now - window >= WINDOW {
        window := now;
        entries := map[];
      }
      if (if key in entries then entries[key] else 0) >= LIMIT {
        return false;
      }
      entries := entries[key := (if key in entries then entries[key] else 0) + 1];
      return true;
    }
  }

  // ----- runs -----

  datatype Call = Call(key: string, now: Time)

  ghost predicate Ordered(calls: seq<Call>, from: Time) {
    calls != [] ==> from <= calls[0].now && Ordered(calls[1..], calls[0].now)
  }

  /** How many calls for key get through from state s at times in [from, from + WINDOW). */
  function Passed(s: State, calls: seq<Call>, key: string, from: Time): nat
    decreases |calls|
  {
    if calls == [] then 0
    else
      var c := calls[0];
      (if c.key == key && Allows(s, key, c.now) && from <= c.now < from + WINDOW then 1 else 0)
      + Passed(Called(s, c.key, c.now), calls[1..], key, from)
  }

  /**
   * What can still get through: the rest of a window that began after `from`; that and one more window
   * if it began up to one minute earlier; two windows if it will have lapsed by then.
   */
  lemma {:induction false} AtMostTwoWindows(s: State, calls: seq<Call>, key: string, from: Time, last: Time)
    requires Ordered(calls, last) && Count(s, key) <= LIMIT
    ensures Passed(s, calls, key, from)
            <= if s.window <= from - WINDOW then 2 * LIMIT
               else LIMIT - Count(s, key) + if s.window <= from then LIMIT else 0
    decreases |calls|
  {
    if calls != [] {
      var c := calls[0];
      AtMostTwoWindows(Called(s, c.key, c.now), calls[1..], key, from, c.now);
      if c.now >= from + WINDOW {
        NonePassLate(Called(s, c.key, c.now), calls[1..], key, from, c.now);
      }
    }
  }

  lemma {:induction false} NonePassLate(s: State, calls: seq<Call>, key: string, from: Time, last: Time)
    requires Ordered(calls, last) && last >= from + WINDOW
    ensures Passed(s, calls, key, from) == 0
    decreases |calls|
  {
    if calls != [] {
      NonePassLate(Called(s, calls[0].key, calls[0].now), calls[1..], key, from, calls[0].now);
    }
  }

  /** The state after a limiter's first calls; a new one has no counts. */
  function Reached(window: Time, calls: seq<Call>): State {
    if calls == [] then State(window, map[])
    else Called(Reached(window, calls[..|calls| - 1]), calls[|calls| - 1].key, calls[|calls| - 1].now)
  }

  /** A call never takes a count past the limit. */
  lemma CountsStayLimited(s: State, key: string, now: Time, other: string)
    requires Count(s, other) <= LIMIT
    ensures Count(Called(s, key, now), other) <= LIMIT
  {
  }

  lemma {:induction false} ReachedIsLimited(window: Time, calls: seq<Call>, key: string)
    ensures Count(Reached(window, calls), key) <= LIMIT
  {
    if calls != [] {
      var last := calls[|calls| - 1];
      ReachedIsLimited(window, calls[..|calls| - 1], key);
      CountsStayLimited(Reached(window, calls[..|calls| - 1]), last.key, last.now, key);
    }
  }

  /**
   * For calls in time order, after any earlier calls to a new limiter: a key gets at most 60 of them
   * through in any half-open interval of one minute.
   */
  lemma SixtyPerMinute(window: Time, earlier: seq<Call>, calls: seq<Call>, key: string, from: Time, last: Time)
    requires Ordered(calls, last)
    ensures Passed(Reached(window, earlier), calls, key, from) <= 2 * LIMIT
  {
    ReachedIsLimited(window, earlier, key);
    AtMostTwoWindows(Reached(window, earlier), calls, key, from, last);
  }

  function PassedInWindow(s: State, calls: seq<Call>, key: string): nat
    decreases |calls|
  {
    if calls == [] || calls[0].now - s.window >= WINDOW then 0
    else
      var c := calls[0];
      (if c.key == key && Allows(s, key, c.now) then 1 else 0) + PassedInWindow(Called(s, c.key, c.now), calls[1..], key)
  }

  /** Between two resets a key gets through no more than its count had left: at most thirty calls. */
  lemma {:induction false} ThirtyPerWindow(s: State, calls: seq<Call>, key: string)
    requires Count(s, key) <= LIMIT
    ensures PassedInWindow(s, calls, key) <= LIMIT - Count(s, key)
    decreases |calls|
  {
    if calls != [] && calls[0].now - s.window < WINDOW {
      ThirtyPerWindow(Called(s, calls[0].key, calls[0].now), calls[1..], key);
    }
  }

  /** All calls fall into the window that is open in state s. */
  ghost predicate InWindow(s: State, calls: seq<Call>) {
    forall k :: 0 <= k < |calls| ==> calls[k].now - s.window < WINDOW
  }

  function After(s: State, calls: seq<Call>): State
    decreases |calls|
  {
    if calls == [] then s else Called(After(s, calls[..|calls| - 1]), calls[|calls| - 1].key, calls[|calls| - 1].now)
  }

  /** How often the key was asked for, allowed or not. */
  function Asked(calls: seq<Call>, key: string): nat
    decreases |calls|
  {
    if calls == [] then 0 else Asked(calls[..|calls| - 1], key) + if calls[|calls| - 1].key == key then 1 else 0
  }

  lemma {:induction false} CountIsAsked(s: State, calls: seq<Call>, key: string)
    requires s.counts == map[] && InWindow(s, calls)
    ensures After(s, calls).window == s.window
    ensures Count(After(s, calls), key) == if Asked(calls, key) < LIMIT then Asked(calls, key) else LIMIT
    decreases |calls|
  {
    if calls != [] {
      CountIsAsked(s, calls[..|calls| - 1], key);
    }
  }

  /**
   * Exactly the first thirty calls of a key in a window get through: after any calls since the window was
   * opened, the next one is allowed if and only if fewer than thirty of them were for the same key.
   */
  lemma FirstThirtyPass(s: State, calls: seq<Call>, key: string, now: Time)
    requires s.counts == map[] && InWindow(s, calls + [Call(key, now)])
    ensures Allows(After(s, calls), key, now) <==> Asked(calls, key) < 30
  {
    var all := calls + [Call(key, now)];
    assert forall k :: 0 <= k < |calls| ==> all[k] == calls[k];
    assert all[|calls|] == Call(key, now);
    CountIsAsked(s, calls, key);
  }

  /** No key is locked out: one minute after the window's start any call gets through. */
  lemma NextWindowAllows(s: State, key: string, now: Time)
    requires now >= s.window + WINDOW
    ensures Allows(s, key, now) && Called(s, key, now).window == now
  {
  }
}
