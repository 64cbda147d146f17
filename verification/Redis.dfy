/** The keyed store with expiry, and what its counters admit over time. A key set with a time to live
    of w at time t is there for t <= now < t + w. */
module Redis {
  import opened Json

  datatype Value = Count(n: nat) | Text(s: string)
  datatype Entry = Entry(value: Value, expiresAt: Option<int>)

  predicate Live(e: Entry, now: int) {
    e.expiresAt.None? || now < e.expiresAt.value
  }

  function Lookup(keys: map<string, Entry>, key: string, now: int): Option<Entry> {
    if key in keys && Live(keys[key], now) then Some(keys[key]) else None
  }

  // ----- counters as functions of what is stored under one key -----

  /** INCR creates a missing key without an expiry; on text it is an error. */
  function Incremented(e: Option<Entry>): Option<Entry> {
    match e
    case None => Some(Entry(Count(1), None))
    case Some(Entry(Count(n), x)) => Some(Entry(Count(n + 1), x))
    case _ => None
  }

  /** SET key 0 EX window NX, then INCR. */
  function RateLimited(e: Option<Entry>, window: nat, now: int): Option<Entry> {
    Incremented(if e.None? then Some(Entry(Count(0), Some(now + window))) else e)
  }

  /** INCR, then EXPIRE when the count came out as 1. */
  function IncrThenExpire(e: Option<Entry>, window: nat, now: int): Option<Entry> {
    match Incremented(e)
    case Some(Entry(Count(1), _)) => Some(Entry(Count(1), Some(now + window)))
    case other => other
  }

  // ----- locks and tokens as functions of what is stored under one key -----

  function LiveAt(e: Option<Entry>, now: int): Option<Entry> {
    if e.Some? && Live(e.value, now) then e else None
  }

  /** What is stored under a key, expired or not. */
  function Stored(keys: map<string, Entry>, key: string): Option<Entry> {
    if key in keys then Some(keys[key]) else None
  }

  predicate OthersKept(before: map<string, Entry>, after: map<string, Entry>, key: string) {
    before - {key} == after - {key}
  }

  lemma OtherIsKept(before: map<string, Entry>, after: map<string, Entry>, key: string, other: string)
    requires OthersKept(before, after, key) && other != key
    ensures Stored(after, other) == Stored(before, other)
  {
    assert other in before <==> other in before - {key};
    assert other in after <==> other in after - {key};
    if other in before {
      assert before[other] == (before - {key})[other] == (after - {key})[other] == after[other];
    }
  }

  /** SET EX */
  function AfterSet(value: string, ttl: nat, now: int): Option<Entry> {
    Some(Entry(Text(value), Some(now + ttl)))
  }

  /** SET EX NX */
  function AfterSetNx(e: Option<Entry>, value: string, ttl: nat, now: int): Option<Entry> {
    if LiveAt(e, now).None? then AfterSet(value, ttl, now) else e
  }

  /** releaseLock with nothing between its two commands: GET, and DEL when this token came back. */
  function AfterRelease(e: Option<Entry>, token: string, now: int): Option<Entry> {
    if Holds(e, token, now) then None else e
  }

  predicate Holds(e: Option<Entry>, token: string, now: int) {
    LiveAt(e, now).Some? && e.value.value == Text(token)
  }

  /** What each command leaves under its key: a value set with a time to live is there until that has
      passed, a key without a live value counts from 1 with a full window, a counter counts on with the
      expiry it had, and text is no counter. */
  lemma CommandsLeave(e: Option<Entry>, value: string, ttl: nat, now: int, later: int)
    ensures Holds(AfterSet(value, ttl, now), value, later) <==> later < now + ttl
    ensures (e.None? || (e.value.expiresAt.Some? && e.value.expiresAt.value <= now)) ==>
              AfterSetNx(e, value, ttl, now) == AfterSet(value, ttl, now)
    ensures e.Some? && (e.value.expiresAt.None? || now < e.value.expiresAt.value) ==>
              AfterSetNx(e, value, ttl, now) == e
    ensures e.None? ==>
              RateLimited(e, ttl, now) == IncrThenExpire(e, ttl, now) == Some(Entry(Count(1), Some(now + ttl)))
    ensures e.Some? && e.value.value.Count? ==>
              RateLimited(e, ttl, now) == Some(Entry(Count(e.value.value.n + 1), e.value.expiresAt))
    ensures e.Some? && e.value.value.Count? && e.value.value.n > 0 ==>
              IncrThenExpire(e, ttl, now) == Some(Entry(Count(e.value.value.n + 1), e.value.expiresAt))
    ensures e.Some? && e.value.value.Text? ==>
              RateLimited(e, ttl, now) == IncrThenExpire(e, ttl, now) == None
    ensures AfterRelease(e, value, now) == if Holds(e, value, now) then None else e
    ensures Holds(e, value, now) <==>
              e.Some? && e.value.value == Text(value) && (e.value.expiresAt.Some? ==> now < e.value.expiresAt.value)
  {
  }

  class RedisStore {
    var keys: map<string, Entry>

    constructor ()
      ensures keys == map[]
    {
      keys := map[];
    }

    method Set(key: string, value: string, ttl: nat, now: int)
      modifies this
      ensures Stored(keys, key) == AfterSet(value, ttl, now) && OthersKept(old(keys), keys, key)
    {
      keys := keys[key := Entry(Text(value), Some(now + ttl))];
    }

    method SetNx(key: string, value: string, ttl: nat, now: int) returns (ok: bool)
      modifies this
      ensures ok <==> LiveAt(Stored(old(keys), key), now).None?
      ensures Stored(keys, key) == AfterSetNx(Stored(old(keys), key), value, ttl, now)
                && OthersKept(old(keys), keys, key)
    {
      ok := Lookup(keys, key, now).None?;
      if ok {
        keys := keys[key := Entry(Text(value), Some(now + ttl))];
      }
    }

    /** Get and delete in one command. */
    method GetDel(key: string, now: int) returns (value: Option<Value>)
      modifies this
      ensures value.Some? <==> LiveAt(Stored(old(keys), key), now).Some?
      ensures value.Some? ==> value.value == old(keys)[key].value
      ensures Stored(keys, key) == None && OthersKept(old(keys), keys, key)
    {
      var e := Lookup(keys, key, now);
      keys := keys - {key};
      value := match e case Some(x) => Some(x.value) case None => None;
    }

    /** Frees the lock only for the holder whose token is stored. */
    method ReleaseLock(key: string, token: string, now: int)
      modifies this
      ensures Stored(keys, key) == AfterRelease(Stored(old(keys), key), token, now) && OthersKept(old(keys), keys, key)
    {
      var current := Lookup(keys, key, now);
      if current.Some? && current.value.value == Text(token) {
        keys := keys - {key};
      }
    }

    method Incr(key: string, now: int) returns (count: Option<nat>)
      modifies this
      ensures var e := Incremented(Lookup(old(keys), key, now));
              if e.Some? then count == Some(e.value.value.n) && keys == old(keys)[key := e.value]
              else count == None && keys == old(keys)
    {
      var e := Lookup(keys, key, now);
      if e.None? {
        keys := keys[key := Entry(Count(1), None)];
        return Some(1);
      }
      if !e.value.value.Count? {
        return None;
      }
      keys := keys[key := Entry(Count(e.value.value.n + 1), e.value.expiresAt)];
      count := Some(e.value.value.n + 1);
    }

    method Expire(key: string, ttl: nat, now: int)
      modifies this
      ensures keys == match Lookup(old(keys), key, now)
                      case Some(e) => old(keys)[key := Entry(e.value, Some(now + ttl))]
                      case None => old(keys)
    {
      var e := Lookup(keys, key, now);
      if e.Some? {
        keys := keys[key := Entry(e.value.value, Some(now + ttl))];
      }
    }

    /** Fails open: when the key holds no counter nothing is exceeded. */
    method RateLimit(key: string, limit: nat, window: nat, now: int) returns (count: nat, exceeded: bool)
      requires window > 0
      modifies this
      ensures var e := RateLimited(Lookup(old(keys), key, now), window, now);
              if e.Some? then count == e.value.value.n && exceeded == (count > limit)
                  && keys == old(keys)[key := e.value]
              else count == 0 && !exceeded && keys == old(keys)
    {
      if Lookup(keys, key, now).None? {
        keys := keys[key := Entry(Count(0), Some(now + window))];
      }
      var c := Incr(key, now);
      if c.None? {
        return 0, false;
      }
      count, exceeded := c.value, c.value > limit;
    }

    /** The counter of sendOtp (limit 5) and forgotPassword (limit 3), 900 seconds. */
    method CountAttempt(key: string, limit: nat, window: nat, now: int) returns (refused: bool)
      modifies this
      ensures var e := IncrThenExpire(Lookup(old(keys), key, now), window, now);
              if e.Some? then refused == (e.value.value.n > limit) && keys == old(keys)[key := e.value]
              else !refused && keys == old(keys)
    {
      var newCount := Incr(key, now);
      if newCount.None? {
        return false;
      }
      if newCount.value == 1 {
        Expire(key, window, now);
      }
      refused := newCount.value > limit;
    }
  }

  // ----- admissions of a key that is never deleted, call by call -----

  /** The entry after a rateLimit call at `now` on a counter key. */
  function Next(e: Option<Entry>, window: nat, now: int): Option<Entry> {
    RateLimited(LiveAt(e, now), window, now)
  }

  /** A counter key with an expiry, or no key at all. */
  predicate CounterKey(e: Option<Entry>) {
    e.Some? ==> e.value.value.Count? && e.value.value.n > 0 && e.value.expiresAt.Some?
  }

  predicate Admitted(e: Option<Entry>, limit: nat, window: nat, now: int)
    requires CounterKey(e)
  {
    Next(e, window, now).value.value.n <= limit
  }

  predicate Ascending(times: seq<int>) {
    forall i, j | 0 <= i <= j < |times| :: times[i] <= times[j]
  }

  /** How many of the calls at `times` are admitted at a time in [a, b). */
  function AdmittedIn(e: Option<Entry>, times: seq<int>, limit: nat, window: nat, a: int, b: int): nat
    requires CounterKey(e)
    decreases |times|
  {
    if times == [] then 0
    else
      var t := times[0];
      (if Admitted(e, limit, window, t) && a <= t < b then 1 else 0)
      + AdmittedIn(Next(e, window, t), times[1..], limit, window, a, b)
  }

  function Min(x: nat, y: nat): nat {
    if x < y then x else y
  }

  /** Within one window exactly the first `limit` calls are admitted. */
  lemma {:induction false} WindowAdmitsFirstCalls(count: nat, expiry: int, times: seq<int>, limit: nat, window: nat,
                                                  a: int)
    requires count > 0 && Ascending(times) && forall t | t in times :: a <= t < expiry
    ensures AdmittedIn(Some(Entry(Count(count), Some(expiry))), times, limit, window, a, expiry)
            == Min(|times|, if count <= limit then limit - count else 0)
    decreases |times|
  {
    if times != [] {
      assert times[0] in times;
      assert forall t | t in times[1..] :: t in times;
      WindowAdmitsFirstCalls(count + 1, expiry, times[1..], limit, window, a);
    }
  }

  /** The most calls an interval of one window's length can admit; times are whole, so an interval of
      length 1 lies within one window. */
  function Bound(limit: nat, window: nat): nat {
    if limit == 0 then 0 else if window == 1 then limit else 2 * limit - 1
  }

  /** The most that can still be admitted in [a, a + window) from here on, for calls at times >= now. */
  function Budget(e: Option<Entry>, limit: nat, window: nat, now: int, a: int): nat
    requires CounterKey(e)
  {
    if limit == 0 || now >= a + window then 0
    else if e.Some? && Live(e.value, now) then
      var left := if e.value.value.n <= limit then limit - e.value.value.n else 0;
      if e.value.expiresAt.value <= a then Bound(limit, window)
      else if e.value.expiresAt.value - window < a then left + limit
      else left
    else if now < a then Bound(limit, window)
    else limit
  }

  lemma {:induction false} BudgetBoundsAdmissions(e: Option<Entry>, times: seq<int>, limit: nat, window: nat,
                                                  now: int, a: int)
    requires CounterKey(e) && window > 0 && Ascending(times) && (times != [] ==> now <= times[0])
    requires e.Some? ==> e.value.expiresAt.value <= now + window
    ensures AdmittedIn(e, times, limit, window, a, a + window) <= Budget(e, limit, window, now, a)
    decreases |times|
  {
    if times != [] {
      var t := times[0];
      if times[1..] != [] {
        assert times[1..][0] == times[1];
      }
      BudgetBoundsAdmissions(Next(e, window, t), times[1..], limit, window, t, a);
    }
  }

  /** Any half-open interval of one window length admits at most 2 * limit - 1 calls. */
  lemma IntervalAdmitsAtMost(times: seq<int>, limit: nat, window: nat, a: int)
    requires window > 0 && Ascending(times)
    ensures AdmittedIn(None, times, limit, window, a, a + window) <= Bound(limit, window)
  {
    if times != [] {
      BudgetBoundsAdmissions(None, times, limit, window, times[0], a);
    }
  }

  function Repeat(t: int, n: nat): seq<int> {
    seq(n, i => t)
  }

  lemma {:induction false} RepeatedCalls(count: nat, expiry: int, t: int, n: nat, rest: seq<int>, limit: nat,
                                         window: nat, a: int, b: int)
    requires count > 0 && t < expiry && count + n <= limit && a <= t < b
    ensures AdmittedIn(Some(Entry(Count(count), Some(expiry))), Repeat(t, n) + rest, limit, window, a, b)
            == n + AdmittedIn(Some(Entry(Count(count + n), Some(expiry))), rest, limit, window, a, b)
    decreases n
  {
    if n == 0 {
      assert Repeat(t, n) + rest == rest;
    } else {
      assert (Repeat(t, n) + rest)[1..] == Repeat(t, n - 1) + rest;
      RepeatedCalls(count + 1, expiry, t, n - 1, rest, limit, window, a, b);
    }
  }

  /** The bound is reached: one call opens a window, the rest of it is used up just before it ends and
      the next one right after. */
  lemma IntervalBoundIsReached(limit: nat, window: nat) returns (times: seq<int>)
    requires window > 0
    ensures Ascending(times) && AdmittedIn(None, times, limit, window, 1, 1 + window) == Bound(limit, window)
  {
    if limit == 0 {
      times := [];
    } else if window == 1 {
      times := OneWindow(limit);
    } else {
      times := TwoWindows(limit, window);
    }
  }

  /** A call without a live key opens a window. */
  lemma FirstCall(e: Option<Entry>, t: int, rest: seq<int>, limit: nat, window: nat, a: int, b: int)
    requires CounterKey(e) && LiveAt(e, t).None? && limit > 0
    ensures AdmittedIn(e, [t] + rest, limit, window, a, b)
            == (if a <= t < b then 1 else 0)
               + AdmittedIn(Some(Entry(Count(1), Some(t + window))), rest, limit, window, a, b)
  {
    assert ([t] + rest)[1..] == rest;
  }

  lemma OneWindow(limit: nat) returns (times: seq<int>)
    requires limit > 0
    ensures Ascending(times) && AdmittedIn(None, times, limit, 1, 1, 2) == limit
  {
    var more := Repeat(1, limit - 1);
    times := [1] + more;
    FirstCall(None, 1, more, limit, 1, 1, 2);
    RepeatedCalls(1, 2, 1, limit - 1, [], limit, 1, 1, 2);
    assert more + [] == more;
  }

  lemma TwoWindows(limit: nat, window: nat) returns (times: seq<int>)
    requires limit > 0 && window > 1
    ensures Ascending(times) && AdmittedIn(None, times, limit, window, 1, 1 + window) == 2 * limit - 1
  {
    var second, more := Repeat(window, limit), Repeat(window, limit - 1);
    var late := Repeat(window - 1, limit - 1) + second;
    times := [0] + late;
    FirstCall(None, 0, late, limit, window, 1, 1 + window);
    RepeatedCalls(1, window, window - 1, limit - 1, second, limit, window, 1, 1 + window);
    assert second == [window] + more && more + [] == more;
    FirstCall(Some(Entry(Count(limit), Some(window))), window, more, limit, window, 1, 1 + window);
    RepeatedCalls(1, 2 * window, window, limit - 1, [], limit, window, 1, 1 + window);
  }

  // ----- the other counter -----

  function OtherNext(e: Option<Entry>, window: nat, now: int): Option<Entry> {
    IncrThenExpire(LiveAt(e, now), window, now)
  }

  function Decisions(e: Option<Entry>, times: seq<int>, limit: nat, window: nat): seq<bool>
    requires CounterKey(e)
    decreases |times|
  {
    if times == [] then []
    else [Next(e, window, times[0]).value.value.n <= limit]
         + Decisions(Next(e, window, times[0]), times[1..], limit, window)
  }

  function OtherDecisions(e: Option<Entry>, times: seq<int>, limit: nat, window: nat): seq<bool>
    requires CounterKey(e)
    decreases |times|
  {
    if times == [] then []
    else [OtherNext(e, window, times[0]).value.value.n <= limit]
         + OtherDecisions(OtherNext(e, window, times[0]), times[1..], limit, window)
  }

  /** Undisturbed, incr-then-expire decides every sequence of calls as rateLimit does. */
  lemma {:induction false} CountersDecideAlike(e: Option<Entry>, times: seq<int>, limit: nat, window: nat)
    requires CounterKey(e)
    ensures OtherDecisions(e, times, limit, window) == Decisions(e, times, limit, window)
    decreases |times|
  {
    if times != [] {
      assert OtherNext(e, window, times[0]) == Next(e, window, times[0]);
      CountersDecideAlike(Next(e, window, times[0]), times[1..], limit, window);
    }
  }

  function Counted(e: Option<Entry>, times: seq<int>, window: nat): Option<Entry>
    decreases |times|
  {
    if times == [] then e else Counted(OtherNext(e, window, times[0]), times[1..], window)
  }

  /** But when the process stops between its INCR and its EXPIRE the key never expires: the count only
      grows, and once it passes the limit every later call is refused, at whatever time. */
  lemma {:induction false} LostExpireCountsForever(n: nat, times: seq<int>, window: nat)
    requires n > 0
    ensures Counted(Some(Entry(Count(n), None)), times, window) == Some(Entry(Count(n + |times|), None))
    decreases |times|
  {
    if times != [] {
      LostExpireCountsForever(n + 1, times[1..], window);
    }
  }
}
