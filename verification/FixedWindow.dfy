/** The shared fixed-window limiter (ratelimit.py): one INCR per request on a counter named after the key
    and the window, with a time to live. Redis and the clock are shared by every process. */
module FixedWindow {
  import opened Basics

  datatype Limit = Limit(max: int, window: real)

  /** A counter and the moment Redis will drop it, if EXPIRE was applied. */
  datatype Entry = Entry(count: nat, deadline: Option<real>)

  type Entries = map<string, Entry>

  /** int(now // window) */
  function WindowIndex(l: Limit, now: real): int
    requires l.window > 0.0
  {
    (now / l.window).Floor
  }

  /** Where the window with this index begins; it ends where the next one begins. */
  function Edge(l: Limit, index: int): real {
    index as real * l.window
  }

  function WindowEnd(l: Limit, index: int): real {
    Edge(l, index + 1)
  }

  lemma IndexBounds(l: Limit, now: real)
    requires l.window > 0.0
    ensures Edge(l, WindowIndex(l, now)) <= now < WindowEnd(l, WindowIndex(l, now))
  {
    var q := now / l.window;
    assert q * l.window == now;
    assert q.Floor as real <= q < (q.Floor + 1) as real;
    MulOrder(q.Floor as real, q, l.window);
    MulStrict(q, (q.Floor + 1) as real, l.window);
  }

  lemma MulOrder(a: real, b: real, w: real)
    requires a <= b && w > 0.0
    ensures a * w <= b * w
  {
  }

  lemma MulStrict(a: real, b: real, w: real)
    requires a < b && w > 0.0
    ensures a * w < b * w
  {
    assert (b - a) * w > 0.0;
  }

  lemma EdgesOrdered(l: Limit, i: int, j: int)
    requires l.window > 0.0 && Edge(l, i) < Edge(l, j)
    ensures i < j
  {
    if j <= i { MulOrder(j as real, i as real, l.window); }
  }

  lemma NextEdge(l: Limit, i: int)
    ensures Edge(l, i + 1) == Edge(l, i) + l.window
  {
    assert (i + 1) as real == i as real + 1.0;
  }

  // ---------------------------------------------------------------- names of counters

  function Digits(n: nat): string {
    if n < 10 then [('0' as int + n) as char] else Digits(n / 10) + [('0' as int + n % 10) as char]
  }

  /** str(index) */
  function IntText(i: int): string {
    if i < 0 then "-" + Digits(-i) else Digits(i)
  }

  /** f"ratelimit:{key}:{index}" */
  function CounterName(key: string, index: int): string {
    "ratelimit:" + key + ":" + IntText(index)
  }

  lemma {:induction false} DigitsHold(n: nat)
    ensures Digits(n) != [] && forall c | c in Digits(n) :: '0' <= c <= '9'
  {
    if n >= 10 {
      DigitsHold(n / 10);
    }
  }

  lemma {:induction false} DigitsInjective(a: nat, b: nat)
    requires Digits(a) == Digits(b)
    ensures a == b
  {
    DigitsHold(a / 10);
    DigitsHold(b / 10);
    var da, db := Digits(a), Digits(b);
    assert da[|da| - 1] == ('0' as int + a % 10) as char;
    assert db[|db| - 1] == ('0' as int + b % 10) as char;
    assert (a < 10 ==> |da| == 1) && (a >= 10 ==> |da| >= 2);
    assert (b < 10 ==> |db| == 1) && (b >= 10 ==> |db| >= 2);
    if a >= 10 && b >= 10 {
      assert da[..|da| - 1] == Digits(a / 10) && db[..|db| - 1] == Digits(b / 10);
      DigitsInjective(a / 10, b / 10);
    }
  }

  lemma IntTextHolds(i: int)
    ensures IntText(i) != [] && forall c | c in IntText(i) :: c != ':'
  {
    DigitsHold(if i < 0 then -i else i);
  }

  lemma IntTextInjective(a: int, b: int)
    requires IntText(a) == IntText(b)
    ensures a == b
  {
    DigitsHold(if a < 0 then -a else a);
    DigitsHold(if b < 0 then -b else b);
    assert a >= 0 ==> IntText(a)[0] in Digits(a);
    assert b >= 0 ==> IntText(b)[0] in Digits(b);
    assert a < 0 <==> b < 0;
    if a < 0 {
      assert IntText(a)[1..] == Digits(-a) && IntText(b)[1..] == Digits(-b);
      DigitsInjective(-a, -b);
    } else {
      DigitsInjective(a, b);
    }
  }

  /** The text after the last colon is the index: no colon can hide in it. */
  lemma LastColon(a: string, x: string, b: string, y: string)
    requires a + ":" + x == b + ":" + y && |x| <= |y|
    requires forall c | c in y :: c != ':'
    ensures a == b && x == y
  {
    var s, t := a + ":" + x, b + ":" + y;
    assert s[|a|] == ':' && |s| == |a| + 1 + |x| && |t| == |b| + 1 + |y|;
    assert forall i | |b| < i < |t| :: t[i] == y[i - |b| - 1] && t[i] in y;
    assert s[|a|] !in y && |a| <= |b|;
    assert a == s[..|a|] && b == t[..|b|];
    assert x == s[|a| + 1..] && y == t[|b| + 1..];
  }

  /** Distinct (key, window) pairs never share a counter, even when keys contain colons or digits. */
  lemma CounterNamesDiffer(key: string, index: int, key': string, index': int)
    requires CounterName(key, index) == CounterName(key', index')
    ensures key == key' && index == index'
  {
    IntTextHolds(index);
    IntTextHolds(index');
    var p := "ratelimit:";
    assert CounterName(key, index) == p + key + ":" + IntText(index);
    if |IntText(index)| <= |IntText(index')| {
      LastColon(p + key, IntText(index), p + key', IntText(index'));
    } else {
      LastColon(p + key', IntText(index'), p + key, IntText(index));
    }
    assert (p + key)[|p|..] == key && (p + key')[|p|..] == key';
    IntTextInjective(index, index');
  }

  // ---------------------------------------------------------------- Redis

  predicate Live(es: Entries, name: string, at: real) {
    name in es && (es[name].deadline.Some? ==> at < es[name].deadline.value)
  }

  /** INCR: a counter that is absent or expired starts again at one, without a deadline. */
  function Incremented(es: Entries, name: string, at: real): Entries {
    es[name := if Live(es, name, at) then Entry(es[name].count + 1, es[name].deadline) else Entry(1, None)]
  }

  /** EXPIRE name int(window) + 1 */
  function WithTtl(l: Limit, es: Entries, name: string, at: real): Entries {
    if Live(es, name, at) then es[name := Entry(es[name].count, Some(at + Ttl(l)))] else es
  }

  /** What any process does to Redis, in the order Redis sees it: an INCR carries the clock reading `now`
      its window was computed from; the EXPIRE of a first INCR may come later, or never. */
  datatype Event = Incr(key: string, now: real, at: real) | SetTtl(owner: string, index: int, at: real)

  function Apply(l: Limit, es: Entries, e: Event): Entries
    requires l.window > 0.0
  {
    match e
    case Incr(key, now, at) => Incremented(es, CounterName(key, WindowIndex(l, now)), at)
    case SetTtl(key, index, at) => WithTtl(l, es, CounterName(key, index), at)
  }

  function Run(l: Limit, events: seq<Event>): Entries
    requires l.window > 0.0
  {
    if events == [] then map[] else Apply(l, Run(l, events[..|events| - 1]), events[|events| - 1])
  }

  function CountAfter(l: Limit, es: Entries, e: Event): nat
    requires l.window > 0.0 && e.Incr?
  {
    Apply(l, es, e)[CounterName(e.key, WindowIndex(l, e.now))].count
  }

  predicate Hits(l: Limit, e: Event, key: string, index: int)
    requires l.window > 0.0
  {
    e.Incr? && e.key == key && WindowIndex(l, e.now) == index
  }

  /** The requests of one key in one aligned window, and those of them that were let through. */
  function Requests(l: Limit, events: seq<Event>, key: string, index: int): nat
    requires l.window > 0.0
  {
    if events == [] then 0
    else Requests(l, events[..|events| - 1], key, index)
         + if Hits(l, events[|events| - 1], key, index) then 1 else 0
  }

  function Admissions(l: Limit, events: seq<Event>, key: string, index: int): nat
    requires l.window > 0.0
  {
    if events == [] then 0
    else
      var front, last := events[..|events| - 1], events[|events| - 1];
      Admissions(l, front, key, index)
      + if Hits(l, last, key, index) && CountAfter(l, Run(l, front), last) <= l.max then 1 else 0
  }

  /** int(window) + 1 */
  function Ttl(l: Limit): real {
    (l.window.Floor + 1) as real
  }

  /** One clock: Redis sees the commands in time order, an INCR arrives less than `lag` after the edge its
      window begins at, and an EXPIRE comes after the INCR it belongs to. */
  ghost predicate OneClock(l: Limit, lag: real, events: seq<Event>)
    requires l.window > 0.0
  {
    && (forall i, j :: 0 <= i <= j < |events| ==> events[i].at <= events[j].at)
    && (forall e | e in events :: InTime(l, lag, e))
  }

  predicate InTime(l: Limit, lag: real, e: Event)
    requires l.window > 0.0
  {
    match e
    case Incr(_, now, at) => now <= at < Edge(l, WindowIndex(l, now)) + lag
    case SetTtl(_, index, at) => Edge(l, index) <= at
  }

  lemma OneClockPrefix(l: Limit, lag: real, events: seq<Event>)
    requires l.window > 0.0 && OneClock(l, lag, events) && events != []
    ensures OneClock(l, lag, events[..|events| - 1])
  {
    var front := events[..|events| - 1];
    assert forall i | 0 <= i < |front| :: front[i] == events[i];
    assert forall e | e in front :: e in events;
  }

  /** The time to live set inside a window always outlives it. */
  lemma TtlOutlivesWindow(l: Limit, index: int, at: real)
    requires l.window > 0.0 && Edge(l, index) <= at
    ensures at + Ttl(l) >= Edge(l, index) + Ttl(l) > WindowEnd(l, index)
    ensures l.window < Ttl(l) <= l.window + 1.0 && Ttl(l) == Ttl(l).Floor as real
  {
    hide Edge;
    NextEdge(l, index);
  }

  /** Until the time to live of a window can be over, the window's counter holds exactly the number of its
      requests, late ones included. */
  lemma {:induction false} CounterCounts(l: Limit, events: seq<Event>, key: string, index: int, until: real)
    requires l.window > 0.0 && OneClock(l, Ttl(l), events) && until < Edge(l, index) + Ttl(l)
    requires events != [] ==> events[|events| - 1].at <= until
    ensures var name := CounterName(key, index);
            var es := Run(l, events);
            && (name in es <==> Requests(l, events, key, index) > 0)
            && (name in es ==> es[name].count == Requests(l, events, key, index)
                               && (es[name].deadline.Some? ==> es[name].deadline.value >= Edge(l, index) + Ttl(l)))
  {
    if events != [] {
      var front, last := events[..|events| - 1], events[|events| - 1];
      OneClockPrefix(l, Ttl(l), events);
      CounterCounts(l, front, key, index, until);
      var other := if last.Incr? then WindowIndex(l, last.now) else last.index;
      var owner := if last.Incr? then last.key else last.owner;
      if CounterName(owner, other) == CounterName(key, index) {
        CounterNamesDiffer(owner, other, key, index);
        assert last in events;
        if last.SetTtl? {
          TtlOutlivesWindow(l, index, last.at);
        }
      }
    }
  }

  function Least(a: nat, b: int): int {
    if a <= b then a else b
  }

  /** Each key gets at most max admissions per aligned window, from all processes together: exactly the
      first max of its requests. */
  lemma {:induction false} AlignedWindowBound(l: Limit, events: seq<Event>, key: string, index: int)
    requires l.window > 0.0 && l.max >= 0 && OneClock(l, Ttl(l), events)
    ensures Admissions(l, events, key, index) == Least(Requests(l, events, key, index), l.max)
  {
    if events != [] {
      var front, last := events[..|events| - 1], events[|events| - 1];
      OneClockPrefix(l, Ttl(l), events);
      AlignedWindowBound(l, front, key, index);
      if Hits(l, last, key, index) {
        assert last in events;
        CounterCounts(l, front, key, index, last.at);
      }
    }
  }

  // ---------------------------------------------------------------- unaligned intervals

  function AdmissionsBetween(l: Limit, events: seq<Event>, key: string, from: real): nat
    requires l.window > 0.0
  {
    if events == [] then 0
    else
      var front, last := events[..|events| - 1], events[|events| - 1];
      AdmissionsBetween(l, front, key, from)
      + if last.Incr? && last.key == key && from <= last.now < from + l.window
           && CountAfter(l, Run(l, front), last) <= l.max then 1 else 0
  }

  lemma TwoWindows(l: Limit, from: real, now: real)
    requires l.window > 0.0 && from <= now < from + l.window
    ensures WindowIndex(l, from) <= WindowIndex(l, now) <= WindowIndex(l, from) + 1
  {
    hide Edge;
    var i, j := WindowIndex(l, from), WindowIndex(l, now);
    IndexBounds(l, from);
    IndexBounds(l, now);
    NextEdge(l, i + 1);
    EdgesOrdered(l, i, j + 1);
    EdgesOrdered(l, j, i + 2);
  }

  lemma {:induction false} SpreadOverTwo(l: Limit, events: seq<Event>, key: string, from: real)
    requires l.window > 0.0
    ensures AdmissionsBetween(l, events, key, from)
            <= Admissions(l, events, key, WindowIndex(l, from)) + Admissions(l, events, key, WindowIndex(l, from) + 1)
  {
    if events != [] {
      var last := events[|events| - 1];
      SpreadOverTwo(l, events[..|events| - 1], key, from);
      if last.Incr? && last.key == key && from <= last.now < from + l.window {
        TwoWindows(l, from, last.now);
      }
    }
  }

  /** An interval as long as the window, wherever it starts, holds at most twice the limit. */
  lemma {:induction false} AnyIntervalBound(l: Limit, events: seq<Event>, key: string, from: real)
    requires l.window > 0.0 && l.max >= 0 && OneClock(l, Ttl(l), events)
    ensures AdmissionsBetween(l, events, key, from) <= 2 * l.max
  {
    SpreadOverTwo(l, events, key, from);
    AlignedWindowBound(l, events, key, WindowIndex(l, from));
    AlignedWindowBound(l, events, key, WindowIndex(l, from) + 1);
  }

  /** int(window - now % window) + 1 */
  function RetryAfter(l: Limit, now: real): int
    requires l.window > 0.0
  {
    (l.window - (now - Edge(l, WindowIndex(l, now)))).Floor + 1
  }

  /** Waiting for the delay always leaves the current window, so the next request meets a new counter; a second
      less would not do. */
  lemma RetryLeavesWindow(l: Limit, key: string, now: real, later: real)
    requires l.window > 0.0 && later >= now + RetryAfter(l, now) as real
    ensures 1 <= RetryAfter(l, now) <= l.window.Floor + 1
    ensures now + (RetryAfter(l, now) - 1) as real <= WindowEnd(l, WindowIndex(l, now))
    ensures WindowEnd(l, WindowIndex(l, now)) < now + RetryAfter(l, now) as real
    ensures WindowIndex(l, later) > WindowIndex(l, now)
    ensures CounterName(key, WindowIndex(l, later)) != CounterName(key, WindowIndex(l, now))
  {
    hide Edge, CounterName;
    var i, j := WindowIndex(l, now), WindowIndex(l, later);
    IndexBounds(l, now);
    IndexBounds(l, later);
    NextEdge(l, i);
    EdgesOrdered(l, i + 1, j + 1);
    if CounterName(key, j) == CounterName(key, i) { CounterNamesDiffer(key, j, key, i); }
  }

  // ---------------------------------------------------------------- the limiter as it is written

  /** Redis as a limiter meets it: a command can raise before or after it took effect. */
  datatype Fault = NoFault | IncrLost(applied: bool) | ExpireLost(applied: bool)

  class Redis {
    var entries: Entries

    constructor ()
      ensures entries == map[]
    {
      entries := map[];
    }
  }

  class RedisRateLimiter {
    const client: Redis
    const max: int
    const window: real

    constructor (client: Redis, max: int, window: real)
      ensures this.client == client && this.max == max && this.window == window
    {
      this.client, this.max, this.window := client, max, window;
    }

    /** (allowed, retry_after_seconds). A Redis error lets the request through. */
    method Check(key: string, now: real, at: real, fault: Fault) returns (allowed: bool, retryAfter: int)
      requires window > 0.0
      modifies client
      ensures var l := Limit(max, window);
              var incr := Incr(key, now, at);
              var es := Apply(l, old(client.entries), incr);
              var count := CountAfter(l, old(client.entries), incr);
              && (fault.NoFault? || (fault.ExpireLost? && count != 1) ==>
                    && client.entries == (if count == 1 then Apply(l, es, SetTtl(key, WindowIndex(l, now), at)) else es)
                    && (allowed <==> count <= max)
                    && retryAfter == if allowed then 0 else RetryAfter(l, now))
              && (fault.IncrLost? || (fault.ExpireLost? && count == 1) ==> allowed && retryAfter == 0)
              && (fault == IncrLost(false) ==> client.entries == old(client.entries))
              && (fault == IncrLost(true) || (fault == ExpireLost(false) && count == 1) ==> client.entries == es)
              && (fault == ExpireLost(true) && count == 1 ==>
                    client.entries == Apply(l, es, SetTtl(key, WindowIndex(l, now), at)))
    {
      var l := Limit(max, window);
      var index := WindowIndex(l, now);
      var name := CounterName(key, index);
      if fault.IncrLost? {
        if fault.applied {
          client.entries := Incremented(client.entries, name, at);
        }
        return true, 0;
      }
      client.entries := Incremented(client.entries, name, at);
      var count := client.entries[name].count;
      if count == 1 {
        if !fault.ExpireLost? || fault.applied {
          client.entries := WithTtl(l, client.entries, name, at);
        }
        if fault.ExpireLost? {
          return true, 0;
        }
      }
      if count > max {
        return false, (window - (now - index as real * window)).Floor + 1;
      }
      return true, 0;
    }
  }

  // ---------------------------------------------------------------- how late an INCR may come

  const KEY := "a"

  /** The first request of a window, with its time to live, and n - 1 more at the same instant. */
  function Burst(n: nat): (events: seq<Event>)
    ensures forall e | e in events :: e == Incr(KEY, 0.0, 0.0) || e == SetTtl(KEY, 0, 0.0)
    ensures n > 0 ==> |events| == n + 1
  {
    if n == 0 then [] else if n == 1 then [Incr(KEY, 0.0, 0.0), SetTtl(KEY, 0, 0.0)]
    else Burst(n - 1) + [Incr(KEY, 0.0, 0.0)]
  }

  lemma FirstIndex(l: Limit)
    requires l.window > 0.0
    ensures WindowIndex(l, 0.0) == 0 && Edge(l, 0) == 0.0
  {
  }

  lemma RunLast(l: Limit, front: seq<Event>, last: Event)
    requires l.window > 0.0
    ensures Run(l, front + [last]) == Apply(l, Run(l, front), last)
    ensures Admissions(l, front + [last], KEY, 0)
            == Admissions(l, front, KEY, 0)
               + if Hits(l, last, KEY, 0) && CountAfter(l, Run(l, front), last) <= l.max then 1 else 0
  {
    assert (front + [last])[..|front|] == front;
  }

  lemma CountUp(l: Limit, count: nat)
    requires l.window > 0.0
    ensures var es := map[CounterName(KEY, 0) := Entry(count, Some(Ttl(l)))];
            && Apply(l, es, Incr(KEY, 0.0, 0.0)) == map[CounterName(KEY, 0) := Entry(count + 1, Some(Ttl(l)))]
            && CountAfter(l, es, Incr(KEY, 0.0, 0.0)) == count + 1
  {
    hide CounterName, Edge, WindowIndex;
    FirstIndex(l);
  }

  lemma BurstOne(l: Limit)
    requires l.window > 0.0 && l.max >= 1
    ensures Run(l, Burst(1)) == map[CounterName(KEY, 0) := Entry(1, Some(Ttl(l)))]
    ensures Admissions(l, Burst(1), KEY, 0) == 1
  {
    var incr, ttl := Incr(KEY, 0.0, 0.0), SetTtl(KEY, 0, 0.0);
    assert Run(l, []) == map[] && Admissions(l, [], KEY, 0) == 0;
    hide CounterName, Edge, WindowIndex, Run, Admissions;
    FirstIndex(l);
    RunLast(l, [], incr);
    RunLast(l, [incr], ttl);
    assert [] + [incr] == [incr] && [incr] + [ttl] == Burst(1);
    assert Run(l, [incr]) == map[CounterName(KEY, 0) := Entry(1, None)];
  }

  lemma {:induction false} BurstIs(l: Limit, n: nat)
    requires l.window > 0.0 && 1 <= n <= l.max
    ensures Run(l, Burst(n)) == map[CounterName(KEY, 0) := Entry(n, Some(Ttl(l)))]
    ensures Admissions(l, Burst(n), KEY, 0) == n
  {
    hide Run, Admissions, CounterName, Ttl;
    if n == 1 {
      BurstOne(l);
    } else {
      BurstIs(l, n - 1);
      OneMore(l, Burst(n - 1), n - 1);
    }
  }

  lemma OneMore(l: Limit, front: seq<Event>, count: nat)
    requires l.window > 0.0 && count < l.max
    requires Run(l, front) == map[CounterName(KEY, 0) := Entry(count, Some(Ttl(l)))]
    ensures var events := front + [Incr(KEY, 0.0, 0.0)];
            && Run(l, events) == map[CounterName(KEY, 0) := Entry(count + 1, Some(Ttl(l)))]
            && Admissions(l, events, KEY, 0) == Admissions(l, front, KEY, 0) + 1
  {
    RunLast(l, front, Incr(KEY, 0.0, 0.0));
    CountUp(l, count);
    FirstIndex(l);
    hide CounterName, Edge, WindowIndex, Run, Admissions, Apply, CountAfter, Ttl;
  }

  /** One INCR too late: it finds its counter expired and starts it again. */
  lemma LateIsAdmitted(l: Limit)
    requires l.window > 0.0 && l.max >= 1
    ensures Admissions(l, Burst(l.max) + [Incr(KEY, 0.0, Ttl(l))], KEY, 0) == l.max + 1
  {
    hide CounterName, Edge, WindowIndex;
    FirstIndex(l);
    BurstIs(l, l.max);
    RunLast(l, Burst(l.max), Incr(KEY, 0.0, Ttl(l)));
  }

  lemma LaterIsWider(l: Limit, lag: real, lag': real, events: seq<Event>)
    requires l.window > 0.0 && lag <= lag' && OneClock(l, lag, events)
    ensures OneClock(l, lag', events)
  {
    assert forall e | e in events :: InTime(l, lag, e) ==> InTime(l, lag', e);
  }

  lemma LateOnOneClock(l: Limit, lag: real)
    requires l.window > 0.0 && l.max >= 1 && lag > Ttl(l)
    ensures OneClock(l, lag, Burst(l.max) + [Incr(KEY, 0.0, Ttl(l))])
  {
    hide WindowIndex, Edge, Burst;
    FirstIndex(l);
    var burst, events := Burst(l.max), Burst(l.max) + [Incr(KEY, 0.0, Ttl(l))];
    assert forall i | 0 <= i < |burst| :: events[i] == burst[i] && burst[i] in burst;
  }

  /** How late an INCR may come: the aligned bound holds in every run on one clock if and only if no INCR
      can be later after the edge of its window than the time to live lasts. */
  lemma LagThreshold(l: Limit, lag: real)
    requires l.window > 0.0 && l.max >= 1
    ensures (forall events, key, index | OneClock(l, lag, events) :: Admissions(l, events, key, index) <= l.max)
            <==> lag <= Ttl(l)
  {
    hide Admissions, OneClock;
    if lag <= Ttl(l) {
      forall events, key, index | OneClock(l, lag, events) ensures Admissions(l, events, key, index) <= l.max {
        LaterIsWider(l, lag, Ttl(l), events);
        AlignedWindowBound(l, events, key, index);
      }
    } else {
      LateOnOneClock(l, lag);
      LateIsAdmitted(l);
    }
  }
}
