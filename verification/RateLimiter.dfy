/** The fixed-window limiter of app/rate_limiter.py: the Lua script on one Redis key, its decision, and how many
    requests it lets through in any interval. Time is in whole seconds; a key is gone once its expiry is reached. */
module RateLimiter {
  import opened Wrappers

  datatype Entry = Entry(count: nat, expiresAt: Option<Time>)

  datatype RateLimitDecision = RateLimitDecision(allowed: bool, limit: nat, count: nat, remaining: nat, retryAfter: nat)

  predicate Live(bucket: Option<Entry>, now: Time) {
    bucket.Some? && (bucket.value.expiresAt.Some? ==> now < bucket.value.expiresAt.value)
  }

  /** The entry after one run of the script: a new window, or one more in the running one; a missing TTL is repaired. */
  function Counted(bucket: Option<Entry>, window: nat, now: Time): Entry {
    if !Live(bucket, now) || bucket.value.count == 0 then Entry(1, Some(now + window))
    else Entry(bucket.value.count + 1,
               Some(if bucket.value.expiresAt.Some? then bucket.value.expiresAt.value else now + window))
  }

  /** What one run of the script leaves: no other key changes; a running window counts one more and keeps its end, or
      ends one window from now if its TTL was lost; otherwise a new window starts with this request. */
  ghost predicate WindowPromise(before: map<string, Entry>, key: string, window: nat, now: Time,
                                after: map<string, Entry>) {
    && key in after
    && (forall k :: k != key ==> (k in before <==> k in after) && (k in before ==> after[k] == before[k]))
    && if key in before && before[key].count > 0 && before[key].expiresAt == None then
         after[key].count == before[key].count + 1 && after[key].expiresAt == Some(now + window)
       else if key in before && before[key].count > 0 && now < before[key].expiresAt.value then
         after[key].count == before[key].count + 1 && after[key].expiresAt == before[key].expiresAt
       else
         after[key].count == 1 && after[key].expiresAt == Some(now + window)
  }

  class Redis {
    var keys: map<string, Entry>

    function Bucket(key: string): Option<Entry>
      reads this
    {
      if key in keys then Some(keys[key]) else None
    }

    method Incr(key: string, now: Time) returns (count: nat)
      modifies this
      ensures keys == old(keys)[key := if Live(old(Bucket(key)), now)
                                       then old(keys)[key].(count := old(keys)[key].count + 1)
                                       else Entry(1, None)]
      ensures count == keys[key].count
    {
      if Live(Bucket(key), now) {
        keys := keys[key := keys[key].(count := keys[key].count + 1)];
      } else {
        keys := keys[key := Entry(1, None)];
      }
      count := keys[key].count;
    }

    method Ttl(key: string, now: Time) returns (ttl: int)
      ensures ttl == if !Live(Bucket(key), now) then -2
                     else if keys[key].expiresAt.None? then -1 else keys[key].expiresAt.value - now
    {
      if !Live(Bucket(key), now) {
        return -2;
      }
      if keys[key].expiresAt.None? {
        return -1;
      }
      return keys[key].expiresAt.value - now;
    }

    method Expire(key: string, seconds: nat, now: Time)
      requires key in keys
      modifies this
      ensures keys == old(keys)[key := old(keys)[key].(expiresAt := Some(now + seconds))]
    {
      keys := keys[key := keys[key].(expiresAt := Some(now + seconds))];
    }

    /** FIXED_WINDOW_LUA, which Redis runs as one operation. */
    method FixedWindow(key: string, window: nat, now: Time) returns (count: nat, ttl: int)
      requires window > 0
      modifies this
      ensures var entry := Counted(old(Bucket(key)), window, now);
              keys == old(keys)[key := entry] && count == entry.count && ttl == entry.expiresAt.value - now && ttl >= 1
      ensures WindowPromise(old(keys), key, window, now, keys)
    {
      count := Incr(key, now);
      ttl := Ttl(key, now);
      if count == 1 || ttl < 0 {
        Expire(key, window, now);
        ttl := Ttl(key, now);
      }
    }

    method CheckKey(key: string, limit: nat, window: nat, now: Time) returns (d: RateLimitDecision)
      requires window > 0
      modifies this
      ensures var entry := Counted(old(Bucket(key)), window, now);
              && keys == old(keys)[key := entry]
              && (d.allowed <==> entry.count <= limit)
              && d.limit == limit && d.count == entry.count
              && (if d.allowed then d.remaining + d.count == limit else d.remaining == 0)
              && now + d.retryAfter == entry.expiresAt.value
      ensures WindowPromise(old(keys), key, window, now, keys)
    {
      var count, ttl := FixedWindow(key, window, now);
      var retryAfter := if ttl > 1 then ttl else 1;
      d := RateLimitDecision(count <= limit, limit, count, if limit > count then limit - count else 0, retryAfter);
    }
  }

  // ---------------------------------------------------------------- traces on one key

  datatype KeyEvent = Hit(at: Time) | LoseTtl(at: Time)

  /** Events in time order, none before `now`. */
  ghost predicate InTimeOrder(trace: seq<KeyEvent>, now: Time) {
    trace == [] || (now <= trace[0].at && InTimeOrder(trace[1..], trace[0].at))
  }

  function Step(bucket: Option<Entry>, e: KeyEvent, window: nat): Option<Entry> {
    match e
    case Hit(t) => Some(Counted(bucket, window, t))
    case LoseTtl(t) => if Live(bucket, t) then Some(bucket.value.(expiresAt := None)) else None
  }

  predicate Allows(bucket: Option<Entry>, e: KeyEvent, window: nat, limit: nat) {
    e.Hit? && Counted(bucket, window, e.at).count <= limit
  }

  /** How many requests the trace gets through at times from `lo` up to, not including, `hi`. */
  function AllowedIn(bucket: Option<Entry>, trace: seq<KeyEvent>, window: nat, limit: nat, lo: Time, hi: Time): nat
    decreases trace
  {
    if trace == [] then 0
    else (if lo <= trace[0].at < hi && Allows(bucket, trace[0], window, limit) then 1 else 0)
         + AllowedIn(Step(bucket, trace[0], window), trace[1..], window, limit, lo, hi)
  }

  /** Entries the script can leave behind: counted at least once, expiring within one window. */
  predicate Proper(bucket: Option<Entry>, window: nat, now: Time) {
    bucket.Some? ==>
      && bucket.value.count >= 1
      && (bucket.value.expiresAt.Some? ==> bucket.value.expiresAt.value <= now + window)
  }

  /** What new windows can let through from `from` on, when they start at least one window apart. */
  function Budget(from: Time, hi: Time, window: nat, limit: nat): nat
    requires window > 0
    decreases if from < hi then hi - from else 0
  {
    if from >= hi then 0 else limit + Budget(from + window, hi, window, limit)
  }

  lemma {:induction false} BudgetShrinks(from: Time, later: Time, hi: Time, window: nat, limit: nat)
    requires window > 0 && from <= later
    ensures Budget(later, hi, window, limit) <= Budget(from, hi, window, limit)
    decreases if later < hi then hi - later else 0
  {
    if later < hi { BudgetShrinks(from + window, later + window, hi, window, limit); }
  }

  lemma {:induction false} BudgetOfWindows(lo: Time, k: nat, window: nat, limit: nat)
    requires window > 0
    ensures Budget(lo, lo + k * window, window, limit) == k * limit
    decreases k
  {
    if k > 0 {
      assert k * window == window + (k - 1) * window;
      assert k * limit == limit + (k - 1) * limit;
      BudgetOfWindows(lo + window, k - 1, window, limit);
    }
  }

  /** What the running window still lets through. */
  function Quota(bucket: Option<Entry>, now: Time, limit: nat): nat {
    if Live(bucket, now) && bucket.value.count < limit then limit - bucket.value.count else 0
  }

  /** When the next window can start at the earliest. */
  function NextStart(bucket: Option<Entry>, now: Time, window: nat): Time {
    if !Live(bucket, now) then now
    else if bucket.value.expiresAt.Some? then bucket.value.expiresAt.value else now + window
  }

  lemma {:induction false} NothingAfter(bucket: Option<Entry>, trace: seq<KeyEvent>, window: nat, limit: nat,
                                        lo: Time, hi: Time)
    requires InTimeOrder(trace, hi)
    ensures AllowedIn(bucket, trace, window, limit, lo, hi) == 0
    decreases trace
  {
    if trace != [] {
      OrderedFrom(trace[1..], trace[0].at, hi);
      NothingAfter(Step(bucket, trace[0], window), trace[1..], window, limit, lo, hi);
    }
  }

  lemma OrderedFrom(trace: seq<KeyEvent>, from: Time, earlier: Time)
    requires InTimeOrder(trace, from) && earlier <= from
    ensures InTimeOrder(trace, earlier)
  {
  }

  lemma StepIsProper(bucket: Option<Entry>, e: KeyEvent, window: nat, now: Time)
    requires Proper(bucket, window, now) && now <= e.at
    ensures Proper(Step(bucket, e, window), window, e.at)
  {
  }

  /** One event never gains: what it lets through comes out of the quota or out of a new window. */
  lemma StepPaysUp(bucket: Option<Entry>, e: KeyEvent, window: nat, limit: nat, hi: Time, now: Time)
    requires window > 0 && limit > 0 && Proper(bucket, window, now) && now <= e.at < hi
    ensures (if Allows(bucket, e, window, limit) then 1 else 0)
            + Quota(Step(bucket, e, window), e.at, limit)
            + Budget(NextStart(Step(bucket, e, window), e.at, window), hi, window, limit)
         <= Quota(bucket, now, limit) + Budget(NextStart(bucket, now, window), hi, window, limit)
  {
    var next := Step(bucket, e, window);
    if !Live(bucket, e.at) {
      BudgetShrinks(NextStart(bucket, now, window), e.at, hi, window, limit);
    } else {
      BudgetShrinks(NextStart(bucket, now, window), NextStart(next, e.at, window), hi, window, limit);
    }
  }

  lemma {:induction false} AllowedWithin(bucket: Option<Entry>, trace: seq<KeyEvent>, window: nat, limit: nat,
                                         lo: Time, hi: Time, now: Time)
    requires window > 0 && limit > 0 && Proper(bucket, window, now) && lo <= now && InTimeOrder(trace, now)
    ensures AllowedIn(bucket, trace, window, limit, lo, hi)
         <= Quota(bucket, now, limit) + Budget(NextStart(bucket, now, window), hi, window, limit)
    decreases trace
  {
    if trace == [] {
    } else if trace[0].at >= hi {
      OrderedFrom(trace, trace[0].at, hi);
      NothingAfter(bucket, trace, window, limit, lo, hi);
    } else {
      var e := trace[0];
      StepIsProper(bucket, e, window, now);
      StepPaysUp(bucket, e, window, limit, hi, now);
      AllowedWithin(Step(bucket, e, window), trace[1..], window, limit, lo, hi, e.at);
    }
  }

  lemma {:induction false} AllowedFrom(bucket: Option<Entry>, trace: seq<KeyEvent>, window: nat, limit: nat, lo: Time,
                                       hi: Time, now: Time)
    requires window > 0 && limit > 0 && Proper(bucket, window, now) && now <= lo && InTimeOrder(trace, now)
    ensures AllowedIn(bucket, trace, window, limit, lo, hi) <= limit - 1 + Budget(lo, hi, window, limit)
    decreases trace
  {
    if trace == [] {
    } else if trace[0].at >= lo {
      AllowedWithin(bucket, trace, window, limit, lo, hi, lo);
      BudgetShrinks(lo, NextStart(bucket, lo, window), hi, window, limit);
    } else {
      StepIsProper(bucket, trace[0], window, now);
      AllowedFrom(Step(bucket, trace[0], window), trace[1..], window, limit, lo, hi, trace[0].at);
    }
  }

  /** Rate bound: any interval of `k` windows lets through at most (k + 1) * limit - 1 requests, also when TTLs get
      lost and are repaired. For k = 1 this is the "nearly twice" of the source. */
  lemma RateBound(bucket: Option<Entry>, trace: seq<KeyEvent>, window: nat, limit: nat, lo: Time, k: nat, start: Time)
    requires window > 0 && limit > 0 && Proper(bucket, window, start) && InTimeOrder(trace, start) && start <= lo
    ensures AllowedIn(bucket, trace, window, limit, lo, lo + k * window) <= (k + 1) * limit - 1
  {
    AllowedFrom(bucket, trace, window, limit, lo, lo + k * window, start);
    BudgetOfWindows(lo, k, window, limit);
  }

  lemma {:induction false} AllowedEachSecond(bucket: Option<Entry>, trace: seq<KeyEvent>, limit: nat, lo: Time,
                                             hi: Time, now: Time)
    requires limit > 0 && lo < hi && Proper(bucket, 1, now) && now <= lo && InTimeOrder(trace, now)
    ensures AllowedIn(bucket, trace, 1, limit, lo, hi) <= Budget(lo, hi, 1, limit)
    decreases trace
  {
    if trace == [] {
    } else if trace[0].at >= lo {
      AllowedWithin(bucket, trace, 1, limit, lo, hi, lo);
      if Live(bucket, lo) { BudgetShrinks(lo + 1, NextStart(bucket, lo, 1), hi, 1, limit); }
    } else {
      StepIsProper(bucket, trace[0], 1, now);
      AllowedEachSecond(Step(bucket, trace[0], 1), trace[1..], limit, lo, hi, trace[0].at);
    }
  }

  /** With one-second windows nothing spills over: `k` seconds let through at most `k * limit`. */
  lemma OneSecondBound(bucket: Option<Entry>, trace: seq<KeyEvent>, limit: nat, lo: Time, k: nat, start: Time)
    requires limit > 0 && k > 0 && Proper(bucket, 1, start) && InTimeOrder(trace, start) && start <= lo
    ensures AllowedIn(bucket, trace, 1, limit, lo, lo + k) <= k * limit
  {
    AllowedEachSecond(bucket, trace, limit, lo, lo + k, start);
    BudgetOfWindows(lo, k, 1, limit);
    assert k * 1 == k;
  }

  // ---------------------------------------------------------------- the bound is reached

  function Burst(n: nat, at: Time): seq<KeyEvent> {
    if n == 0 then [] else [Hit(at)] + Burst(n - 1, at)
  }

  /** `k` full windows, starting back to back at `at`. */
  function FullWindows(k: nat, at: Time, window: nat, limit: nat): seq<KeyEvent> {
    if k == 0 then [] else Burst(limit, at) + FullWindows(k - 1, at + window, window, limit)
  }

  lemma {:induction false} BurstCounts(e: Entry, n: nat, at: Time, rest: seq<KeyEvent>, window: nat, limit: nat,
                                       lo: Time, hi: Time)
    requires e.count >= 1 && e.expiresAt.Some? && lo <= at < e.expiresAt.value && at < hi && e.count + n <= limit
    ensures AllowedIn(Some(e), Burst(n, at) + rest, window, limit, lo, hi)
         == n + AllowedIn(Some(e.(count := e.count + n)), rest, window, limit, lo, hi)
    decreases n
  {
    if n == 0 {
      assert Burst(0, at) + rest == rest;
      assert e.(count := e.count + 0) == e;
    } else {
      assert (Burst(n, at) + rest)[1..] == Burst(n - 1, at) + rest;
      BurstCounts(e.(count := e.count + 1), n - 1, at, rest, window, limit, lo, hi);
    }
  }

  lemma {:induction false} FullWindowsCount(bucket: Option<Entry>, k: nat, at: Time, window: nat, limit: nat,
                                            lo: Time, hi: Time)
    requires window > 0 && limit > 0 && !Live(bucket, at) && lo <= at && at + k * window < hi + window
    ensures AllowedIn(bucket, FullWindows(k, at, window, limit), window, limit, lo, hi) == k * limit
    decreases k
  {
    if k > 0 {
      assert k * window == window + (k - 1) * window;
      assert (k - 1) * window >= 0;
      assert k * limit == limit + (k - 1) * limit;
      var rest := FullWindows(k - 1, at + window, window, limit);
      var first := Entry(1, Some(at + window));
      assert FullWindows(k, at, window, limit) == [Hit(at)] + (Burst(limit - 1, at) + rest);
      BurstCounts(first, limit - 1, at, rest, window, limit, lo, hi);
      FullWindowsCount(Some(first.(count := limit)), k - 1, at + window, window, limit, lo, hi);
    }
  }

  /** The bound is tight for windows of at least two seconds: one early request, a burst just before the window ends,
      then `k` full windows. */
  lemma RateBoundIsReached(k: nat, window: nat, limit: nat)
    requires window >= 2 && limit > 0 && k > 0
    ensures var trace := [Hit(0)] + (Burst(limit - 1, window - 1) + FullWindows(k, window, window, limit));
            AllowedIn(None, trace, window, limit, window - 1, window - 1 + k * window) == (k + 1) * limit - 1
  {
    var lo, hi := window - 1, window - 1 + k * window;
    var windows := FullWindows(k, window, window, limit);
    assert k * window >= window by { assert k * window == window + (k - 1) * window; }
    BurstCounts(Entry(1, Some(window)), limit - 1, lo, windows, window, limit, lo, hi);
    FullWindowsCount(Some(Entry(limit, Some(window))), k, window, window, limit, lo, hi);
    assert (k + 1) * limit == k * limit + limit;
  }

  // ---------------------------------------------------------------- Retry-After

  predicate OnlyHits(trace: seq<KeyEvent>) {
    forall i :: 0 <= i < |trace| ==> trace[i].Hit?
  }

  function After(bucket: Option<Entry>, trace: seq<KeyEvent>, window: nat): Option<Entry>
    decreases trace
  {
    if trace == [] then bucket else After(Step(bucket, trace[0], window), trace[1..], window)
  }

  ghost predicate AllBefore(trace: seq<KeyEvent>, end: Time) {
    forall i :: 0 <= i < |trace| ==> trace[i].at < end
  }

  /** Requests inside a window only count up; they never move its end. */
  lemma {:induction false} HitsKeepExpiry(e: Entry, trace: seq<KeyEvent>, window: nat)
    requires e.count >= 1 && e.expiresAt.Some? && OnlyHits(trace) && AllBefore(trace, e.expiresAt.value)
    ensures After(Some(e), trace, window) == Some(Entry(e.count + |trace|, e.expiresAt))
    decreases trace
  {
    if trace != [] {
      HitsKeepExpiry(Counted(Some(e), window, trace[0].at), trace[1..], window);
    }
  }

  /** After a rejection, and whatever is tried in between, the next request is allowed exactly when Retry-After is
      over. */
  lemma RetryAfterIsExact(bucket: Option<Entry>, now: Time, trace: seq<KeyEvent>, t: Time, window: nat, limit: nat)
    requires window > 0 && limit > 0
    requires var e := Counted(bucket, window, now);
             e.count > limit && OnlyHits(trace) && AllBefore(trace, e.expiresAt.value)
    ensures Allows(After(Some(Counted(bucket, window, now)), trace, window), Hit(t), window, limit)
       <==> t >= Counted(bucket, window, now).expiresAt.value
  {
    HitsKeepExpiry(Counted(bucket, window, now), trace, window);
  }
}
