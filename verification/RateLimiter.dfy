/**
The fixed-window rate limiter with its two counter stores. Clock readings are parameters: the
source reads `time.monotonic()` before it takes its lock, so a history need not be in time
order, and only the results that say so assume that it is.

The Redis server is foreign. It is taken to run INCR, EXPIRE and TTL of one increment at one
instant, to treat a key as gone from its expiry on, and to delete expired keys whenever it likes.
*/
module RateLimiter {
  import opened Prelude

  datatype Key = Key(text: string)

  function Prefixed(prefix: string, key: Key): Key {
    Key(prefix + key.text)
  }

  // ----- the in-memory store

  datatype Window = Window(start: real, count: nat)

  function Lookup<V>(m: map<Key, V>, key: Key): Option<V> {
    if key in m then Some(m[key]) else None
  }

  function Bump(current: Option<Window>, now: real, window: int): Window {
    match current
    case None => Window(now, 1)
    case Some(w) => if now - w.start >= window as real then Window(now, 1) else Window(w.start, w.count + 1)
  }

  /** Python's `int` of a float: truncation toward zero. */
  function Trunc(x: real): int {
    if x >= 0.0 then x.Floor else -((-x).Floor)
  }

  function RetryAfter(start: real, now: real, window: int): int {
    var whole := Trunc(window as real - (now - start));
    if whole > 1 then whole else 1
  }

  class InMemoryRateLimiterBackend {
    var windows: map<Key, Window>

    constructor ()
      ensures windows == map[]
    {
      windows := map[];
    }

    method Increment(key: Key, window: int, now: real) returns (count: nat, retryAfter: int)
      modifies this
      ensures windows == old(windows)[key := Bump(Lookup(old(windows), key), now, window)]
      ensures count == windows[key].count && retryAfter == RetryAfter(windows[key].start, now, window)
    {
      var start, n := now, 0;
      if key in windows {
        start, n := windows[key].start, windows[key].count;
      }
      if now - start >= window as real {
        start, n := now, 0;
      }
      n := n + 1;
      windows := windows[key := Window(start, n)];
      return n, RetryAfter(start, now, window);
    }

    method Reset()
      modifies this
      ensures windows == map[]
    {
      windows := map[];
    }
  }

  // ----- the Redis store

  datatype Counter = Counter(value: nat, expiresAt: Option<real>)

  predicate Expired(c: Counter, now: real) {
    c.expiresAt.Some? && now >= c.expiresAt.value
  }

  /** INCR keeps an expiry and starts a missing or expired key at one, without expiry. */
  function Incremented(current: Option<Counter>, now: real): Counter {
    if current.Some? && !Expired(current.value, now)
    then Counter(current.value.value + 1, current.value.expiresAt)
    else Counter(1, None)
  }

  function Store<V>(m: map<Key, V>, key: Key, v: Option<V>): map<Key, V> {
    if v.Some? then m[key := v.value] else m - {key}
  }

  /** TTL in whole seconds, rounded to the nearest; -1 without expiry, -2 without key. */
  function Ttl(current: Option<Counter>, now: real): int {
    if current.None? || Expired(current.value, now) then -2
    else if current.value.expiresAt.None? then -1
    else (current.value.expiresAt.value - now + 0.5).Floor
  }

  class RedisServer {
    var counters: map<Key, Counter>

    constructor ()
      ensures counters == map[]
    {
      counters := map[];
    }

    method Incr(key: Key, now: real) returns (value: nat)
      modifies this
      ensures counters == old(counters)[key := Incremented(Lookup(old(counters), key), now)]
      ensures value == counters[key].value
    {
      if key in counters && !Expired(counters[key], now) {
        counters := counters[key := Counter(counters[key].value + 1, counters[key].expiresAt)];
      } else {
        counters := counters[key := Counter(1, None)];
      }
      value := counters[key].value;
    }

    method Expire(key: Key, seconds: int, now: real)
      requires key in counters && !Expired(counters[key], now)
      modifies this
      ensures counters == Store(old(counters), key,
                                if seconds <= 0 then None
                                else Some(Counter(old(counters)[key].value, Some(now + seconds as real))))
    {
      if seconds <= 0 {
        counters := counters - {key};
      } else {
        counters := counters[key := counters[key].(expiresAt := Some(now + seconds as real))];
      }
    }
  }

  /** What one increment leaves under its key: an expiry is set by the first count only. */
  function RedisBump(current: Option<Counter>, now: real, window: int): Option<Counter> {
    var c := Incremented(current, now);
    if c.value != 1 then Some(c)
    else if window <= 0 then None
    else Some(Counter(1, Some(now + window as real)))
  }

  class RedisRateLimiterBackend {
    const client: RedisServer
    const prefix: string

    constructor (client: RedisServer, prefix: string)
      ensures this.client == client && this.prefix == prefix
    {
      this.client, this.prefix := client, prefix;
    }

    method Increment(key: Key, window: int, now: real) returns (count: nat, retryAfter: int)
      modifies client
      ensures client.counters == Store(old(client.counters), Prefixed(prefix, key),
                                       RedisBump(Lookup(old(client.counters), Prefixed(prefix, key)), now, window))
      ensures count == Incremented(Lookup(old(client.counters), Prefixed(prefix, key)), now).value
      ensures var ttl := Ttl(Lookup(client.counters, Prefixed(prefix, key)), now);
              retryAfter == if ttl > 0 then ttl else window
    {
      var fullKey := Prefixed(prefix, key);
      count := client.Incr(fullKey, now);
      if count == 1 {
        client.Expire(fullKey, window, now);
      }
      var ttl := Ttl(Lookup(client.counters, fullKey), now);
      retryAfter := if ttl != 0 && ttl > 0 then ttl else window;
    }
  }

  // ----- the limiter

  datatype Backend = InMemory(memory: InMemoryRateLimiterBackend) | Redis(redis: RedisRateLimiterBackend)

  /** What a backend tells about one attempt. */
  datatype Told = Told(count: nat, retryAfter: int)

  function ToldByMemory(current: Option<Window>, now: real, window: int): Told {
    var w := Bump(current, now, window);
    Told(w.count, RetryAfter(w.start, now, window))
  }

  function ToldByRedis(current: Option<Counter>, now: real, window: int): Told {
    var ttl := Ttl(RedisBump(current, now, window), now);
    Told(Incremented(current, now).value, if ttl > 0 then ttl else window)
  }

  /** 429 with its Retry-After header is the error case. */
  class FixedWindowRateLimiter {
    const maxAttempts: int
    const windowSeconds: int
    const backend: Backend

    constructor (maxAttempts: int, windowSeconds: int, backend: Backend)
      ensures this.maxAttempts == maxAttempts && this.windowSeconds == windowSeconds && this.backend == backend
    {
      this.maxAttempts, this.windowSeconds, this.backend := maxAttempts, windowSeconds, backend;
    }

    /** The object whose state the backend keeps. */
    function Footprint(): set<object> {
      match backend case InMemory(memory) => {memory} case Redis(redis) => {redis.client}
    }

    /** What the backend would tell an attempt on `key`. */
    function Answer(key: Key, now: real): Told
      reads Footprint()
    {
      match backend
      case InMemory(memory) => ToldByMemory(Lookup(memory.windows, key), now, windowSeconds)
      case Redis(redis) => ToldByRedis(Lookup(redis.client.counters, Prefixed(redis.prefix, key)), now, windowSeconds)
    }

    /** Passes exactly while the count is within the limit, and counts the attempt either way. */
    method Check(key: Key, now: real) returns (r: Result<(), int>)
      modifies Footprint()
      ensures r == if old(Answer(key, now)).count <= maxAttempts then Ok(()) else Err(old(Answer(key, now)).retryAfter)
      ensures backend.InMemory? ==>
                backend.memory.windows
                == old(backend.memory.windows)[key :=
                        Bump(Lookup(old(backend.memory.windows), key), now, windowSeconds)]
      ensures backend.Redis? ==>
                var fullKey, counters := Prefixed(backend.redis.prefix, key), old(backend.redis.client.counters);
                backend.redis.client.counters
                == Store(counters, fullKey, RedisBump(Lookup(counters, fullKey), now, windowSeconds))
    {
      var count, retryAfter;
      match backend {
        case InMemory(memory) => count, retryAfter := memory.Increment(key, windowSeconds, now);
        case Redis(redis) => count, retryAfter := redis.Increment(key, windowSeconds, now);
      }
      r := if count > maxAttempts then Err(retryAfter) else Ok(());
    }
  }

  // ----- histories of attempts

  datatype Attempt = Attempt(key: Key, time: real)

  /** The in-memory store after the attempts of `h`, in the order they took the lock. */
  ghost function Memory(h: seq<Attempt>, window: int): map<Key, Window> {
    if h == [] then map[] else
      var before, a := Memory(h[..|h| - 1], window), h[|h| - 1];
      before[a.key := Bump(Lookup(before, a.key), a.time, window)]
  }

  /** The count that attempt `i` of `h` is told. */
  ghost function Count(h: seq<Attempt>, i: nat, window: int): nat
    requires i < |h|
  {
    Memory(h[..i + 1], window)[h[i].key].count
  }

  ghost predicate Passes(h: seq<Attempt>, i: nat, window: int, max: int)
    requires i < |h|
  {
    Count(h, i, window) <= max
  }

  ghost predicate InTimeOrder(h: seq<Attempt>) {
    forall i, j :: 0 <= i <= j < |h| ==> h[i].time <= h[j].time
  }

  /** The number of attempts on `key` in `h[from..]`. */
  ghost function Attempts(h: seq<Attempt>, key: Key, from: nat): nat {
    if |h| <= from then 0
    else Attempts(h[..|h| - 1], key, from) + if h[|h| - 1].key == key then 1 else 0
  }

  /** `starts` are the attempts on `key` that open its greedily chosen windows: the first one
      opens a window, and after that the first one at least a window's length later. */
  ghost predicate GreedyWindows(h: seq<Attempt>, key: Key, window: int, starts: seq<nat>) {
    && (forall k: nat :: k < |starts| ==> OpensWindow(h, key, window, starts, k))
    && (forall i: nat :: i < |h| ==> NotBefore(h, key, starts, i))
    && (forall k: nat, i: nat :: k < |starts| && i < |h| ==> StaysInside(h, key, window, starts, k, i))
  }

  /** `starts[k]` is an attempt on `key`, a window or more after `starts[k - 1]`. */
  ghost predicate OpensWindow(h: seq<Attempt>, key: Key, window: int, starts: seq<nat>, k: nat)
    requires k < |starts|
  {
    && starts[k] < |h|
    && h[starts[k]].key == key
    && (k > 0 ==> starts[k - 1] < starts[k] && h[starts[k]].time - h[starts[k - 1]].time >= window as real)
  }

  /** No attempt on `key` precedes its first window. */
  ghost predicate NotBefore(h: seq<Attempt>, key: Key, starts: seq<nat>, i: nat)
    requires i < |h|
  {
    h[i].key == key ==> starts != [] && starts[0] <= i
  }

  /** An attempt on `key` between one start and the next is within a window's length. */
  ghost predicate StaysInside(h: seq<Attempt>, key: Key, window: int, starts: seq<nat>, k: nat, i: nat)
    requires k < |starts| && i < |h|
  {
    h[i].key == key && starts[k] < i && (k + 1 < |starts| ==> i < starts[k + 1])
    ==> h[i].time - h[starts[k]].time < window as real
  }

  /** The attempts on `key` at which the store starts a new count. */
  ghost function Opened(h: seq<Attempt>, key: Key, window: int): (starts: seq<nat>)
    ensures forall k :: 0 <= k < |starts| ==> starts[k] < |h|
  {
    if h == [] then [] else
      var n, a := |h| - 1, h[|h| - 1];
      var starts := Opened(h[..n], key, window);
      if a.key == key && (starts == [] || a.time - h[starts[|starts| - 1]].time >= window as real)
      then starts + [n] else starts
  }

  /** For every clock, in order or not, the store's windows are the greedy ones. */
  lemma {:induction false} OpenedIsGreedy(h: seq<Attempt>, key: Key, window: int)
    ensures GreedyWindows(h, key, window, Opened(h, key, window))
  {
    if h != [] {
      var n, a, before := |h| - 1, h[|h| - 1], h[..|h| - 1];
      var starts, starts' := Opened(before, key, window), Opened(h, key, window);
      OpenedIsGreedy(before, key, window);
      forall k: nat | k < |starts'|
        ensures OpensWindow(h, key, window, starts', k)
      {
        if k < |starts| {
          assert OpensWindow(before, key, window, starts, k);
        }
        if k == |starts| > 0 {
          assert OpensWindow(before, key, window, starts, k - 1);
        }
      }
      forall i: nat | i < |h|
        ensures NotBefore(h, key, starts', i)
      {
        if i < n {
          assert NotBefore(before, key, starts, i);
        } else if starts != [] {
          assert OpensWindow(before, key, window, starts, 0);
        }
      }
      forall k: nat, i: nat | k < |starts'| && i < |h|
        ensures StaysInside(h, key, window, starts', k, i)
      {
        if k < |starts| && i < n {
          assert StaysInside(before, key, window, starts, k, i);
        }
      }
    }
  }

  // ----- how much passes

  /** The number of attempts on `key` in `h` that pass with a time in `[from, from + window)`. */
  ghost function PassedWithin(h: seq<Attempt>, key: Key, window: int, max: int, from: real): nat {
    if h == [] then 0 else
      var n, a := |h| - 1, h[|h| - 1];
      PassedWithin(h[..n], key, window, max, from)
      + if a.key == key && from <= a.time < from + window as real && Passes(h, n, window, max) then 1 else 0
  }

  /** The number of attempts on `key` in `h[from..]` that pass. */
  ghost function PassedFrom(h: seq<Attempt>, key: Key, window: int, max: int, from: nat): nat {
    if |h| <= from then 0 else
      var n := |h| - 1;
      PassedFrom(h[..n], key, window, max, from)
      + if h[n].key == key && Passes(h, n, window, max) then 1 else 0
  }

  function AtMost(count: nat, max: nat): nat {
    if count < max then count else max
  }

  lemma LastCount(h: seq<Attempt>, window: int)
    requires h != []
    ensures var a := h[|h| - 1];
            Count(h, |h| - 1, window) == Bump(Lookup(Memory(h[..|h| - 1], window), a.key), a.time, window).count
  {
    assert h[..|h| - 1 + 1] == h;
  }

  /** For every clock, in order or not: the store holds the start of the open window and its
      number of attempts, and the window has let through that many, up to the limit. */
  lemma {:induction false} MemoryCountsOpenWindow(h: seq<Attempt>, key: Key, window: int, max: nat)
    ensures var starts := Opened(h, key, window);
            && (key in Memory(h, window) <==> starts != [])
            && (starts != [] ==>
                  var s := starts[|starts| - 1];
                  && Memory(h, window)[key] == Window(h[s].time, Attempts(h, key, s))
                  && PassedFrom(h, key, window, max, s) == AtMost(Attempts(h, key, s), max))
  {
    if h != [] {
      LastCount(h, window);
      MemoryCountsOpenWindow(h[..|h| - 1], key, window, max);
      assert Attempts(h[..|h| - 1], key, |h| - 1) == 0;
    }
  }

  /** Up to its next window the history opens what it opens altogether. */
  lemma {:induction false} OpenedBefore(h: seq<Attempt>, key: Key, window: int, k: nat)
    requires k + 1 < |Opened(h, key, window)|
    ensures Opened(h[..Opened(h, key, window)[k + 1]], key, window) == Opened(h, key, window)[..k + 1]
  {
    var n, before, starts := |h| - 1, h[..|h| - 1], Opened(h, key, window);
    var earlier := Opened(before, key, window);
    if k + 1 < |earlier| {
      OpenedBefore(before, key, window, k);
      assert before[..earlier[k + 1]] == h[..earlier[k + 1]];
      assert starts[..k + 1] == earlier[..k + 1];
    } else {
      assert starts == earlier + [n] && starts[..k + 1] == earlier;
    }
  }

  /** For every clock, in order or not: each window, from its start to the next, lets through as
      many attempts as it counted, up to the limit. */
  lemma EveryWindowPassesAtMostMax(h: seq<Attempt>, key: Key, window: int, max: nat, k: nat)
    requires k < |Opened(h, key, window)|
    ensures var starts := Opened(h, key, window);
            var upToNext := if k + 1 < |starts| then h[..starts[k + 1]] else h;
            PassedFrom(upToNext, key, window, max, starts[k]) == AtMost(Attempts(upToNext, key, starts[k]), max)
  {
    var starts := Opened(h, key, window);
    if k + 1 < |starts| {
      OpenedBefore(h, key, window, k);
      MemoryCountsOpenWindow(h[..starts[k + 1]], key, window, max);
    } else {
      MemoryCountsOpenWindow(h, key, window, max);
    }
  }

  lemma {:induction false} StartsAgree(h: seq<Attempt>, key: Key, window: int, a: seq<nat>, b: seq<nat>, k: nat)
    requires GreedyWindows(h, key, window, a) && GreedyWindows(h, key, window, b)
    requires k < |a|
    ensures k < |b| && a[k] == b[k]
  {
    assert OpensWindow(h, key, window, a, k);
    if k > 0 {
      StartsAgree(h, key, window, a, b, k - 1);
      assert StaysInside(h, key, window, b, k - 1, a[k]);
      assert OpensWindow(h, key, window, b, k);
      assert StaysInside(h, key, window, a, k - 1, b[k]);
    } else {
      assert NotBefore(h, key, b, a[0]);
      assert OpensWindow(h, key, window, b, 0);
      assert NotBefore(h, key, a, b[0]);
    }
  }

  /** A history determines its greedy windows. */
  lemma GreedyWindowsAreUnique(h: seq<Attempt>, key: Key, window: int, a: seq<nat>, b: seq<nat>)
    requires GreedyWindows(h, key, window, a) && GreedyWindows(h, key, window, b)
    ensures a == b
  {
    if a != [] {
      StartsAgree(h, key, window, a, b, |a| - 1);
    }
    if b != [] {
      StartsAgree(h, key, window, b, a, |b| - 1);
    }
    forall k | 0 <= k < |a|
      ensures a[k] == b[k]
    {
      StartsAgree(h, key, window, a, b, k);
    }
  }

  /** No attempt on the key has a clock reading more than `stale` behind an earlier one. */
  ghost predicate StaleByAtMost(h: seq<Attempt>, key: Key, stale: real) {
    forall i, j :: 0 <= i <= j < |h| && h[i].key == key && h[j].key == key ==> h[i].time <= h[j].time + stale
  }

  lemma OpenWindowIsNotAhead(h: seq<Attempt>, key: Key, window: int, stale: real)
    requires h != [] && h[|h| - 1].key == key && StaleByAtMost(h, key, stale)
    ensures key in Memory(h, window) && Memory(h, window)[key].start <= h[|h| - 1].time + stale
  {
    var starts := Opened(h, key, window);
    MemoryCountsOpenWindow(h, key, window, 0);
    OpenedIsGreedy(h, key, window);
    assert OpensWindow(h, key, window, starts, |starts| - 1);
  }

  /** The windows that can meet `[from, from + window)` when the open one started at `start` and is
      the `n`-th of them: the next starts a window later, and one too late meets nothing. */
  ghost predicate MetWindows(start: real, count: nat, passed: nat, n: nat, window: int, max: nat, from: real) {
    if start <= from - window as real then n == 0 && passed == 0
    else n >= 1 && start > from + (n - 2) as real * window as real && passed <= (n - 1) * max + AtMost(count, max)
  }

  lemma BumpMetWindows(w: Window, passed: nat, n: nat, now: real, window: int, max: nat, from: real) returns (n': nat)
    requires window > 0 && MetWindows(w.start, w.count, passed, n, window, max, from)
    ensures var w' := Bump(Some(w), now, window);
            var counted := from <= now < from + window as real && w'.count <= max;
            MetWindows(w'.start, w'.count, passed + if counted then 1 else 0, n', window, max, from)
  {
    var w' := Bump(Some(w), now, window);
    n' := if w'.start <= from - window as real then 0 else if now - w.start >= window as real then n + 1 else n;
    if n' == n + 1 {
      assert (n' - 2) as real * window as real == (n - 2) as real * window as real + window as real;
    }
  }
  lemma FirstMetWindow(now: real, window: int, max: nat, from: real) returns (n: nat)
    requires window > 0
    ensures var counted := from <= now < from + window as real && 1 <= max;
            MetWindows(now, 1, if counted then 1 else 0, n, window, max, from)
  {
    n := if now <= from - window as real then 0 else 1;
  }

  /** At most `late + 2` windows start in time to meet the interval, when clock readings are stale
      by at most `late` windows' lengths. */
  lemma FewWindowsMeet(start: real, now: real, count: nat, passed: nat, n: nat, window: int,
                       max: nat, from: real, late: nat)
    requires window > 0 && MetWindows(start, count, passed, n, window, max, from)
    requires start <= now + late as real * window as real && now < from + window as real
    ensures n <= late + 2 && passed <= (late + 2) * max
  {
    if n >= 1 {
      assert (late + 1) as real * window as real == late as real * window as real + window as real;
      if n > late + 2 {
        ScaledUp(late + 1, n - 2, window as real);
        assert false;
      }
      TimesUp(n, late + 2, max);
      assert n * max == (n - 1) * max + max;
    } else {
      TimesUp(0, late + 2, max);
    }
  }

  lemma ScaledUp(a: nat, b: nat, x: real)
    requires a <= b && x >= 0.0
    ensures a as real * x <= b as real * x
  {
  }

  lemma TimesUp(a: nat, b: nat, max: nat)
    requires a <= b
    ensures a * max <= b * max
  {
  }

  /** With a positive window and clock readings that are stale by at most `late` windows' lengths,
      any half-open interval of one window's length lets at most `late + 2` times the limit through. */
  lemma {:induction false} IntervalPassesAtMost(h: seq<Attempt>, key: Key, window: int, max: nat, from: real, late: nat)
    returns (n: nat)
    requires StaleByAtMost(h, key, late as real * window as real) && window > 0
    ensures PassedWithin(h, key, window, max, from) <= (late + 2) * max
    ensures var open := Lookup(Memory(h, window), key);
            if open.None? then PassedWithin(h, key, window, max, from) == 0
            else MetWindows(open.value.start, open.value.count, PassedWithin(h, key, window, max, from),
                            n, window, max, from)
  {
    n := 0;
    TimesUp(0, late + 2, max);
    if h != [] {
      var before, a := h[..|h| - 1], h[|h| - 1];
      n := IntervalPassesAtMost(before, key, window, max, from, late);
      if a.key == key {
        n := LastAttemptPasses(h, key, window, max, from, late, n);
      }
    }
  }

  lemma LastAttemptPasses(h: seq<Attempt>, key: Key, window: int, max: nat, from: real, late: nat, n: nat)
    returns (n': nat)
    requires StaleByAtMost(h, key, late as real * window as real) && window > 0
    requires h != [] && h[|h| - 1].key == key
    requires var before := h[..|h| - 1];
             var open, passed := Lookup(Memory(before, window), key), PassedWithin(before, key, window, max, from);
             && passed <= (late + 2) * max
             && if open.None? then passed == 0
                else MetWindows(open.value.start, open.value.count, passed, n, window, max, from)
    ensures var open, passed := Memory(h, window)[key], PassedWithin(h, key, window, max, from);
            && passed <= (late + 2) * max
            && MetWindows(open.start, open.count, passed, n', window, max, from)
  {
    var before, a := h[..|h| - 1], h[|h| - 1];
    var open := Lookup(Memory(before, window), key);
    LastCount(h, window);
    OpenWindowIsNotAhead(h, key, window, late as real * window as real);
    if open.None? {
      n' := FirstMetWindow(a.time, window, max, from);
    } else {
      n' := BumpMetWindows(open.value, PassedWithin(before, key, window, max, from), n, a.time, window, max, from);
    }
    var w, passed := Memory(h, window)[key], PassedWithin(h, key, window, max, from);
    if passed > PassedWithin(before, key, window, max, from) {
      FewWindowsMeet(w.start, a.time, w.count, passed, n', window, max, from, late);
    }
  }

  /** With the key's own clock readings in order, at most twice the limit passes. */
  lemma IntervalPassesAtMostTwice(h: seq<Attempt>, key: Key, window: int, max: nat, from: real)
    requires InTimeOrder(OnKey(h, key)) && window > 0
    ensures PassedWithin(h, key, window, max, from) <= 2 * max
  {
    OrderOnKey(h, key);
    var n := IntervalPassesAtMost(h, key, window, max, from, 0);
  }

  lemma {:induction false} OrderOnKey(h: seq<Attempt>, key: Key)
    requires InTimeOrder(OnKey(h, key))
    ensures StaleByAtMost(h, key, 0.0)
    ensures forall i :: 0 <= i < |h| && h[i].key == key ==> h[i] in OnKey(h, key)
  {
    if h != [] {
      var before, own := h[..|h| - 1], OnKey(h[..|h| - 1], key);
      assert InTimeOrder(own) by {
        assert forall i :: 0 <= i < |own| ==> own[i] == OnKey(h, key)[i];
      }
      OrderOnKey(before, key);
      forall i, j | 0 <= i <= j < |h| && h[i].key == key && h[j].key == key
        ensures h[i].time <= h[j].time
      {
        if i < j == |h| - 1 {
          assert before[i] in own;
          var k :| 0 <= k < |own| && own[k] == before[i];
          assert OnKey(h, key)[k] == h[i] && OnKey(h, key)[|own|] == h[j];
        } else if j < |h| - 1 {
          assert before[i] == h[i] && before[j] == h[j];
        }
      }
    }
  }

  /** Rounds of one attempt ten seconds after the last round and one with a clock reading of 0,
      taken before the others but processed only now. */
  ghost function StaleRounds(key: Key, n: nat): seq<Attempt> {
    if n == 0 then [] else StaleRounds(key, n - 1) + [Attempt(key, 10.0 * (n - 1) as real)] + [Attempt(key, 0.0)]
  }

  /** Out of order the interval bound is lost: with two attempts allowed per second, any number
      of attempts with times in one and the same second can pass. */
  lemma {:induction false} StaleClocksLoseTheIntervalBound(key: Key, n: nat)
    ensures n > 0 ==> Lookup(Memory(StaleRounds(key, n), 1), key) == Some(Window(10.0 * (n - 1) as real, 2))
    ensures n > 0 ==> PassedWithin(StaleRounds(key, n), key, 1, 2, 0.0) == n + 1
  {
    if n > 0 {
      StaleClocksLoseTheIntervalBound(key, n - 1);
      var before := StaleRounds(key, n - 1);
      var first := before + [Attempt(key, 10.0 * (n - 1) as real)];
      var h := StaleRounds(key, n);
      assert first[..|first| - 1] == before && h[..|h| - 1] == first;
      LastCount(first, 1);
      LastCount(h, 1);
      assert Passes(first, |first| - 1, 1, 2) && Passes(h, |h| - 1, 1, 2);
      var startTime := 10.0 * (n - 1) as real;
      assert startTime == 0.0 || startTime >= 10.0;
      assert PassedWithin(first, key, 1, 2, 0.0)
          == PassedWithin(before, key, 1, 2, 0.0) + if startTime == 0.0 then 1 else 0;
      assert PassedWithin(h, key, 1, 2, 0.0) == PassedWithin(first, key, 1, 2, 0.0) + 1;
    }
  }

  // ----- the two stores agree

  /** Expired keys the server happens to delete. */
  ghost function Sweep(counters: map<Key, Counter>, swept: set<Key>, now: real): map<Key, Counter> {
    map k | k in counters && !(k in swept && Expired(counters[k], now)) :: counters[k]
  }

  /** The Redis store after the attempts of `h`, when the server deletes what it likes of the
      expired keys of `swept[i]` just before attempt `i`. */
  ghost function Redis(h: seq<Attempt>, swept: seq<set<Key>>, prefix: string, window: int): map<Key, Counter>
    requires |swept| == |h|
    decreases |h|, 1
  {
    if h == [] then map[] else
      var before, a := BeforeLast(h, swept, prefix, window), h[|h| - 1];
      var key := Prefixed(prefix, a.key);
      Store(before, key, RedisBump(Lookup(before, key), a.time, window))
  }

  ghost function BeforeLast(h: seq<Attempt>, swept: seq<set<Key>>, prefix: string, window: int): map<Key, Counter>
    requires |swept| == |h| > 0
    decreases |h|, 0
  {
    var n := |h| - 1;
    Sweep(Redis(h[..n], swept[..n], prefix, window), swept[n], h[n].time)
  }

  /** The count that the last attempt of `h` is told by the Redis store. */
  ghost function RedisCount(h: seq<Attempt>, swept: seq<set<Key>>, prefix: string, window: int): nat
    requires |swept| == |h| > 0
  {
    var a := h[|h| - 1];
    Incremented(Lookup(BeforeLast(h, swept, prefix, window), Prefixed(prefix, a.key)), a.time).value
  }

  /** Redis holds the same window as the in-memory store, or nothing once it has expired. */
  ghost predicate SameWindow(w: Option<Window>, c: Option<Counter>, window: int, now: real) {
    match w
    case None => c.None?
    case Some(open) =>
      && open.count >= 1
      && match c
         case None => now >= open.start + window as real
         case Some(counter) => counter == Counter(open.count, Some(open.start + window as real))
  }

  // ----- several limiters on one server

  /** Neither text starts the other. */
  predicate Apart(p: string, q: string) {
    !(p <= q) && !(q <= p)
  }

  /** Prefixes that are apart never give the same full key, and one prefix gives each key its own. */
  lemma FullKeysDiffer(p: string, q: string, a: Key, b: Key)
    requires Apart(p, q) || (p == q && a != b)
    ensures Prefixed(p, a) != Prefixed(q, b)
  {
    if Prefixed(p, a) == Prefixed(q, b) {
      SameFullKey(p, q, a, b);
    }
  }

  lemma SameFullKey(p: string, q: string, a: Key, b: Key)
    requires Prefixed(p, a) == Prefixed(q, b)
    ensures p <= q || q <= p
    ensures p == q ==> a == b
  {
    var s := p + a.text;
    assert s == q + b.text;
    assert p == s[..|p|] && q == s[..|q|];
    assert a.text == s[|p|..] && b.text == s[|q|..];
  }

  /** The prefixes of the limiters for login, signup and forgotten passwords are apart. */
  lemma ProgramPrefixesAreApart()
    ensures Apart("ratelimit:login:", "ratelimit:signup:")
    ensures Apart("ratelimit:login:", "ratelimit:forgot-password:")
    ensures Apart("ratelimit:signup:", "ratelimit:forgot-password:")
  {
    assert "ratelimit:login:"[10] == 'l' && "ratelimit:signup:"[10] == 's' && "ratelimit:forgot-password:"[10] == 'f';
  }

  datatype Limiter = Limiter(prefix: string, window: int)

  /** An attempt at one of the limiters, and the expired keys the server deletes just before. */
  datatype Shared = Shared(limiter: Limiter, attempt: Attempt, swept: set<Key>)

  ghost function SharedServer(h: seq<Shared>): map<Key, Counter>
    decreases |h|, 1
  {
    if h == [] then map[] else
      var e := h[|h| - 1];
      var key, before := Prefixed(e.limiter.prefix, e.attempt.key), SharedBeforeLast(h);
      Store(before, key, RedisBump(Lookup(before, key), e.attempt.time, e.limiter.window))
  }

  ghost function SharedBeforeLast(h: seq<Shared>): map<Key, Counter>
    requires h != []
    decreases |h|, 0
  {
    Sweep(SharedServer(h[..|h| - 1]), h[|h| - 1].swept, h[|h| - 1].attempt.time)
  }

  /** The count that the last attempt is told. */
  ghost function SharedCount(h: seq<Shared>): nat
    requires h != []
  {
    var e := h[|h| - 1];
    Incremented(Lookup(SharedBeforeLast(h), Prefixed(e.limiter.prefix, e.attempt.key)), e.attempt.time).value
  }

  /** The attempts at one limiter. */
  ghost function At(h: seq<Shared>, limiter: Limiter): seq<Attempt> {
    if h == [] then []
    else At(h[..|h| - 1], limiter) + if h[|h| - 1].limiter == limiter then [h[|h| - 1].attempt] else []
  }

  ghost predicate SharedInOrder(h: seq<Shared>) {
    forall i, j :: 0 <= i <= j < |h| ==> h[i].attempt.time <= h[j].attempt.time
  }

  ghost predicate OthersApart(h: seq<Shared>, limiter: Limiter) {
    forall i :: 0 <= i < |h| ==> h[i].limiter == limiter || Apart(h[i].limiter.prefix, limiter.prefix)
  }

  /** What the server stores under a key of the limiter is the window of its own attempts. */
  ghost predicate HoldsOwnWindow(h: seq<Shared>, counters: map<Key, Counter>, limiter: Limiter, key: Key, now: real) {
    SameWindow(Lookup(Memory(At(h, limiter), limiter.window), key), Lookup(counters, Prefixed(limiter.prefix, key)),
               limiter.window, now)
  }

  lemma OwnAttempt(h: seq<Shared>, limiter: Limiter, key: Key)
    requires h != [] && h[|h| - 1].limiter == limiter && limiter.window > 0
    requires HoldsOwnWindow(h[..|h| - 1], SharedBeforeLast(h), limiter, key, h[|h| - 1].attempt.time)
    ensures HoldsOwnWindow(h, SharedServer(h), limiter, key, h[|h| - 1].attempt.time)
    ensures h[|h| - 1].attempt.key == key ==>
              At(h, limiter) != [] && SharedCount(h) == Count(At(h, limiter), |At(h, limiter)| - 1, limiter.window)
  {
    var a, own, all := h[|h| - 1].attempt, At(h[..|h| - 1], limiter), At(h, limiter);
    assert all[..|own|] == own;
    LastCount(all, limiter.window);
    if a.key == key {
      BumpsAgree(Lookup(Memory(own, limiter.window), key), Lookup(SharedBeforeLast(h), Prefixed(limiter.prefix, key)),
                 limiter.window, a.time);
    } else {
      FullKeysDiffer(limiter.prefix, limiter.prefix, key, a.key);
    }
  }

  lemma AttemptElsewhere(h: seq<Shared>, limiter: Limiter, key: Key)
    requires h != [] && h[|h| - 1].limiter != limiter && Apart(h[|h| - 1].limiter.prefix, limiter.prefix)
    requires HoldsOwnWindow(h[..|h| - 1], SharedBeforeLast(h), limiter, key, h[|h| - 1].attempt.time)
    ensures HoldsOwnWindow(h, SharedServer(h), limiter, key, h[|h| - 1].attempt.time)
  {
    var e := h[|h| - 1];
    assert At(h, limiter) == At(h[..|h| - 1], limiter);
    FullKeysDiffer(e.limiter.prefix, limiter.prefix, e.attempt.key, key);
  }

  /** Limiters with prefixes apart do not disturb each other on one server: what it stores under a key
      of a limiter is the window that this limiter's own attempts make, or nothing once that has
      expired, and every attempt is told its place among the own attempts of its limiter. */
  lemma {:induction false} LimitersAreIndependent(h: seq<Shared>, limiter: Limiter, key: Key)
    requires h != [] && SharedInOrder(h) && OthersApart(h, limiter) && limiter.window > 0
    ensures HoldsOwnWindow(h, SharedServer(h), limiter, key, h[|h| - 1].attempt.time)
    ensures h[|h| - 1].limiter == limiter && h[|h| - 1].attempt.key == key ==>
              At(h, limiter) != [] && SharedCount(h) == Count(At(h, limiter), |At(h, limiter)| - 1, limiter.window)
  {
    var n, e := |h| - 1, h[|h| - 1];
    assert HoldsOwnWindow(h[..n], SharedBeforeLast(h), limiter, key, e.attempt.time) by {
      if n > 0 {
        LimitersAreIndependent(h[..n], limiter, key);
        SweepKeepsWindow(Lookup(Memory(At(h[..n], limiter), limiter.window), key), SharedServer(h[..n]),
                         Prefixed(limiter.prefix, key), e.swept, limiter.window, h[n - 1].attempt.time, e.attempt.time);
      } else {
        assert SharedServer(h[..n]) == map[];
      }
    }
    if e.limiter == limiter {
      OwnAttempt(h, limiter, key);
    } else {
      AttemptElsewhere(h, limiter, key);
    }
  }

  lemma SweepKeepsWindow(w: Option<Window>, counters: map<Key, Counter>, key: Key, swept: set<Key>,
                         window: int, earlier: real, now: real)
    requires SameWindow(w, Lookup(counters, key), window, earlier) && earlier <= now
    ensures SameWindow(w, Lookup(Sweep(counters, swept, now), key), window, now)
  {
  }

  lemma BumpsAgree(w: Option<Window>, c: Option<Counter>, window: int, now: real)
    requires SameWindow(w, c, window, now) && window > 0
    ensures SameWindow(Some(Bump(w, now, window)), RedisBump(c, now, window), window, now)
    ensures Incremented(c, now).value == Bump(w, now, window).count
  {
  }

  lemma {:induction false} RedisSimulatesMemory(h: seq<Attempt>, swept: seq<set<Key>>, prefix: string, window: int,
                                                key: Key)
    requires InTimeOrder(h) && window > 0 && |swept| == |h| > 0
    ensures SameWindow(Lookup(Memory(h, window), key), Lookup(Redis(h, swept, prefix, window), Prefixed(prefix, key)),
                       window, h[|h| - 1].time)
    ensures key == h[|h| - 1].key ==> RedisCount(h, swept, prefix, window) == Count(h, |h| - 1, window)
  {
    var n, fullKey := |h| - 1, Prefixed(prefix, key);
    var a, before, mem := h[n], BeforeLast(h, swept, prefix, window), Memory(h[..n], window);
    LastCount(h, window);
    assert SameWindow(Lookup(mem, key), Lookup(before, fullKey), window, a.time) by {
      if n > 0 {
        RedisSimulatesMemory(h[..n], swept[..n], prefix, window, key);
        SweepKeepsWindow(Lookup(mem, key), Redis(h[..n], swept[..n], prefix, window), fullKey, swept[n],
                         window, h[n - 1].time, a.time);
      } else {
        assert Redis(h[..n], swept[..n], prefix, window) == map[];
      }
    }
    if key == a.key {
      BumpsAgree(Lookup(mem, key), Lookup(before, fullKey), window, a.time);
    } else {
      FullKeysDiffer(prefix, prefix, key, a.key);
    }
  }

  /** For every sequence of attempts with the clock in order and a positive window, both stores
      tell every attempt the same count: its place in its greedy window. */
  lemma BackendsTellTheSameCounts(h: seq<Attempt>, swept: seq<set<Key>>, prefix: string, window: int, i: nat)
    requires InTimeOrder(h) && window > 0 && |swept| == |h| && i < |h|
    ensures RedisCount(h[..i + 1], swept[..i + 1], prefix, window) == Count(h, i, window)
    ensures var starts := Opened(h[..i + 1], h[i].key, window);
            && GreedyWindows(h[..i + 1], h[i].key, window, starts)
            && starts != []
            && Count(h, i, window) == Attempts(h[..i + 1], h[i].key, starts[|starts| - 1])
  {
    var g := h[..i + 1];
    assert g[..i + 1] == g && g[|g| - 1] == h[i];
    RedisSimulatesMemory(g, swept[..i + 1], prefix, window, h[i].key);
    OpenedIsGreedy(g, h[i].key, window);
    MemoryCountsOpenWindow(g, h[i].key, window, 0);
  }

  /** Attempts on other keys do not matter: a key's window is the one its own attempts make. */
  lemma {:induction false} KeysAreIndependent(h: seq<Attempt>, window: int, key: Key)
    ensures Lookup(Memory(h, window), key) == Lookup(Memory(OnKey(h, key), window), key)
  {
    if h != [] {
      var before, a := h[..|h| - 1], h[|h| - 1];
      KeysAreIndependent(before, window, key);
      if a.key == key {
        var g := OnKey(h, key);
        assert g == OnKey(before, key) + [a];
        assert g[..|g| - 1] == OnKey(before, key);
      } else {
        assert OnKey(h, key) == OnKey(before, key);
      }
    }
  }

  ghost function OnKey(h: seq<Attempt>, key: Key): seq<Attempt> {
    if h == [] then []
    else OnKey(h[..|h| - 1], key) + if h[|h| - 1].key == key then [h[|h| - 1]] else []
  }

  // ----- Retry-After

  /** The seconds an attempt is told to wait, against the time its window has left. */
  lemma RetryAfterBounds(start: real, now: real, window: int)
    requires window >= 1 && start <= now < start + window as real
    ensures var r, left := RetryAfter(start, now, window), window as real - (now - start);
            1 <= r <= window && left - 1.0 < r as real && (r as real <= left || r == 1)
  {
  }

  /** A caller that was told to wait `r` seconds and makes the key's next attempt `later`, at
      least `r` seconds on, opens a new window exactly when no time of the old one is left. One
      second more than `r` is always enough; `r` itself is enough exactly when the time left was
      a whole number of seconds or less than one. */
  lemma WaitingOutARefusal(h: seq<Attempt>, window: int, later: Attempt)
    requires h != [] && InTimeOrder(h) && window >= 1
    requires later.key == h[|h| - 1].key
    ensures var a := h[|h| - 1];
            var start := Memory(h, window)[a.key].start;
            var r, left := RetryAfter(start, a.time, window), window as real - (a.time - start);
            && 0.0 < left <= window as real
            && (later.time >= a.time + r as real + 1.0 ==> Count(h + [later], |h|, window) == 1)
            && (later.time == a.time + r as real ==>
                  (Count(h + [later], |h|, window) == 1 <==> left <= 1.0 || left == left.Floor as real))
  {
    var a := h[|h| - 1];
    var g := h + [later];
    LastCount(h, window);
    LastCount(g, window);
    assert g[..|g| - 1] == h;
    StoredStartIsPast(h, window, a.key);
    NewWindowAfterWaiting(Memory(h, window)[a.key], a.time, window, later.time);
  }

  /** Refused with 1.5 seconds left, told to wait 1, and refused again after that second. */
  lemma WaitingAsToldCanFail(key: Key)
    ensures var h := [Attempt(key, 0.0), Attempt(key, 8.5)];
            && Memory(h, 10)[key].start == 0.0 && RetryAfter(0.0, 8.5, 10) == 1
            && !Passes(h, 1, 10, 1) && !Passes(h + [Attempt(key, 9.5)], 2, 10, 1)
  {
    var a, b, c := Attempt(key, 0.0), Attempt(key, 8.5), Attempt(key, 9.5);
    assert [a][..0] == [] && [a, b][..1] == [a] && [a, b, c][..2] == [a, b];
    assert Memory([a], 10) == map[key := Window(0.0, 1)];
    assert Memory([a, b], 10)[key] == Window(0.0, 2);
    assert Memory([a, b, c], 10)[key] == Window(0.0, 3);
    assert [a, b] + [c] == [a, b, c];
    assert [a, b, c][..3] == [a, b, c] && [a, b][..2] == [a, b];
  }

  /** The seconds the Redis store tells an attempt to wait, against the time its key has left: whole
      seconds, rounded to the nearest, but the whole window when that is none. */
  lemma RedisRetryAfterBounds(current: Option<Counter>, now: real, window: int)
    requires window >= 1
    requires var c := RedisBump(current, now, window);
             c.Some? && c.value.expiresAt.Some? && now < c.value.expiresAt.value <= now + window as real
    ensures var r, left := ToldByRedis(current, now, window).retryAfter,
                           RedisBump(current, now, window).value.expiresAt.value - now;
            && 1 <= r <= window
            && if left < 0.5 then r == window else left - 0.5 < r as real <= left + 0.5
  {
  }

  /** With a quarter of a second left of ten, the caller is told to wait all ten. */
  lemma ShortRestWaitsAWholeWindow()
    ensures ToldByRedis(Some(Counter(5, Some(10.0))), 9.75, 10) == Told(6, 10)
  {
    assert (10.0 - 9.75 + 0.5).Floor == 0;
  }

  /** With the Redis store a caller that makes the key's next attempt after exactly the wait it was
      told opens a new window exactly when less than half a second was left or rounding did not
      shorten the wait. */
  lemma RedisWaitingAsTold(h: seq<Attempt>, swept: seq<set<Key>>, prefix: string, window: int, later: Attempt,
                           sweptLater: set<Key>)
    requires h != [] && InTimeOrder(h + [later]) && window >= 1 && |swept| == |h|
    requires later.key == h[|h| - 1].key
    requires var a := h[|h| - 1];
             var before := Lookup(BeforeLast(h, swept, prefix, window), Prefixed(prefix, a.key));
             later.time == a.time + ToldByRedis(before, a.time, window).retryAfter as real
    ensures var a := h[|h| - 1];
            var left := window as real - (a.time - Memory(h, window)[a.key].start);
            && 0.0 < left <= window as real
            && (RedisCount(h + [later], swept + [sweptLater], prefix, window) == 1
                <==> left < 0.5 || left == left.Floor as real || left - left.Floor as real >= 0.5)
  {
    var a := h[|h| - 1];
    NextRedisCount(h, swept, prefix, window, later, sweptLater);
    StoredStartIsPast(h, window, a.key);
    StoresAgreeOnRest(h, swept, prefix, window);
    NewWindowAfterRedisWait(Memory(h, window)[a.key], a.time, window);
  }

  lemma NextRedisCount(h: seq<Attempt>, swept: seq<set<Key>>, prefix: string, window: int, later: Attempt,
                       sweptLater: set<Key>)
    requires h != [] && InTimeOrder(h + [later]) && window >= 1 && |swept| == |h|
    requires later.key == h[|h| - 1].key
    ensures InTimeOrder(h)
    ensures RedisCount(h + [later], swept + [sweptLater], prefix, window)
         == Bump(Lookup(Memory(h, window), later.key), later.time, window).count
  {
    var g := h + [later];
    assert g[..|h|] == h;
    assert forall i :: 0 <= i < |h| ==> g[i] == h[i];
    RedisSimulatesMemory(g, swept + [sweptLater], prefix, window, later.key);
    LastCount(g, window);
  }

  /** The wait for a key with this time left. */
  function RedisWait(left: real, window: int): int {
    var ttl := (left + 0.5).Floor;
    if ttl > 0 then ttl else window
  }

  lemma NewWindowAfterRedisWait(w: Window, now: real, window: int)
    requires window >= 1 && w.start <= now < w.start + window as real && w.count >= 1
    ensures var left := window as real - (now - w.start);
            var later := now + RedisWait(left, window) as real;
            Bump(Some(w), later, window).count == 1
            <==> left < 0.5 || left == left.Floor as real || left - left.Floor as real >= 0.5
  {
    var left := window as real - (now - w.start);
    var r := RedisWait(left, window) as real;
    assert Bump(Some(w), now + r, window).count == 1 <==> r >= left;
    RoundedWait(left, window);
  }

  lemma RoundedWait(left: real, window: int)
    requires 0.0 < left <= window as real
    ensures RedisWait(left, window) as real >= left
            <==> left < 0.5 || left == left.Floor as real || left - left.Floor as real >= 0.5
  {
    var whole := left.Floor;
    assert (left + 0.5).Floor == if left - whole as real >= 0.5 then whole + 1 else whole;
  }

  /** The Redis entry after the last attempt expires when its in-memory window ends. */
  lemma StoresAgreeOnRest(h: seq<Attempt>, swept: seq<set<Key>>, prefix: string, window: int)
    requires h != [] && InTimeOrder(h) && window >= 1 && |swept| == |h|
    ensures var a := h[|h| - 1];
            var before := Lookup(BeforeLast(h, swept, prefix, window), Prefixed(prefix, a.key));
            && a.key in Memory(h, window)
            && RedisBump(before, a.time, window)
               == Some(Counter(Memory(h, window)[a.key].count, Some(Memory(h, window)[a.key].start + window as real)))
            && ToldByRedis(before, a.time, window).retryAfter
               == RedisWait(window as real - (a.time - Memory(h, window)[a.key].start), window)
  {
    var a := h[|h| - 1];
    RedisSimulatesMemory(h, swept, prefix, window, a.key);
    StoredStartIsPast(h, window, a.key);
  }

  lemma NewWindowAfterWaiting(w: Window, now: real, window: int, later: real)
    requires window >= 1 && w.start <= now < w.start + window as real && w.count >= 1
    ensures var r, left := RetryAfter(w.start, now, window), window as real - (now - w.start);
            && (later >= now + r as real + 1.0 ==> Bump(Some(w), later, window).count == 1)
            && (later == now + r as real ==>
                  (Bump(Some(w), later, window).count == 1 <==> left <= 1.0 || left == left.Floor as real))
  {
    RetryAfterBounds(w.start, now, window);
  }

  lemma {:induction false} StoredStartIsPast(h: seq<Attempt>, window: int, key: Key)
    requires InTimeOrder(h) && h != [] && window >= 1
    ensures key in Memory(h, window) ==>
              Memory(h, window)[key].start <= h[|h| - 1].time && Memory(h, window)[key].count >= 1
    ensures key == h[|h| - 1].key ==> h[|h| - 1].time < Memory(h, window)[key].start + window as real
  {
    if |h| > 1 {
      StoredStartIsPast(h[..|h| - 1], window, key);
    }
  }
}
