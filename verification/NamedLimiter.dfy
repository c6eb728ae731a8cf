/** Named buckets (ratelimit.py, NamedClientLimiter; main.py, enforce_rate_limit): one limiter per
    configured name, whatever address the caller comes from. */
module NamedLimiter {
  import opened Basics
  import opened Clients
  import opened FirstListed
  import opened ClientRules
  import opened SlidingWindow
  import opened SlidingLaws

  const WINDOW := 60.0
  const DEFAULT_MAX_KEYS := 10_000

  datatype Setup = Setup(addressing: Addressing, ttl: real, rules: seq<ClientRule>, default: int)

  /** One request: who, what the clock and DNS would say at each rule, and when the limiter is asked. */
  datatype Call = Call(peer: Option<string>, readings: seq<Reading>, now: real)

  /** What the named limiter remembers: the resolver's cache, the limit each name's limiter was built with,
      and the requests each name has made. */
  datatype Desk = Desk(cache: Cache, built: map<string, int>, seen: map<string, seq<Request>>)

  /** Limits are positive, as the parser makes them. */
  ghost predicate SetupOk(s: Setup) {
    s.default >= 1 && forall rule | rule in s.rules :: rule.maxPerMin.Some? ==> rule.maxPerMin.value >= 1
  }

  function Settings(limit: int): Config {
    Config(limit, WINDOW, DEFAULT_MAX_KEYS)
  }

  /** The rule that covers the caller of the next call. */
  function Covering(s: Setup, cache: Cache, c: Call): (index: Option<nat>)
    requires |c.readings| == |s.rules|
    ensures index.Some? ==> index.value < |s.rules|
  {
    Matched(s.addressing, s.ttl, cache, s.rules, c.peer, c.readings).index
  }

  function Opened(d: Desk, name: string, limit: int): Desk {
    d.(built := d.built[name := limit], seen := d.seen[name := []])
  }

  /** for_peer: a limiter is built the first time a name is matched, with the limit of the rule matched. */
  function Routed(s: Setup, d: Desk, c: Call): Desk
    requires |c.readings| == |s.rules|
  {
    var found := Matched(s.addressing, s.ttl, d.cache, s.rules, c.peer, c.readings);
    if found.index.None? then d.(cache := found.cache)
    else
      var rule := s.rules[found.index.value];
      if rule.name in d.built then d.(cache := found.cache)
      else Opened(d.(cache := found.cache), rule.name, Limit(rule, s.default))
  }

  function RequestsOf(d: Desk, name: string): seq<Request> {
    if name in d.seen then d.seen[name] else []
  }

  function Noted(d: Desk, name: string, now: real): Desk {
    d.(seen := d.seen[name := RequestsOf(d, name) + [Request(name, now)]])
  }

  function Handled(s: Setup, d: Desk, c: Call): Desk
    requires |c.readings| == |s.rules|
  {
    var index, d' := Covering(s, d.cache, c), Routed(s, d, c);
    if index.None? then d'
    else Noted(d', s.rules[index.value].name, c.now)
  }

  function Fresh(): Desk {
    Desk(map[], map[], map[])
  }

  ghost predicate Fits(s: Setup, calls: seq<Call>) {
    forall c | c in calls :: |c.readings| == |s.rules|
  }

  function DeskAfter(s: Setup, calls: seq<Call>): Desk
    requires Fits(s, calls)
  {
    if calls == [] then Fresh()
    else
      assert calls[|calls| - 1] in calls;
      assert forall c | c in calls[..|calls| - 1] :: c in calls;
      Handled(s, DeskAfter(s, calls[..|calls| - 1]), calls[|calls| - 1])
  }

  ghost predicate DeskOk(d: Desk) {
    && d.built.Keys == d.seen.Keys
    && (forall name | name in d.built :: d.built[name] >= 1)
    && forall name, r | name in d.seen && r in d.seen[name] :: r.key == name
  }

  /** What the caller of the next call is told when a rule covers it. */
  ghost function Answered(s: Setup, d: Desk, c: Call): Outcome
    requires SetupOk(s) && DeskOk(d) && |c.readings| == |s.rules|
    requires Covering(s, d.cache, c).Some?
  {
    var name, d' := s.rules[Covering(s, d.cache, c).value].name, Routed(s, d, c);
    RoutedOk(s, d, c);
    Checked(Settings(d'.built[name]), After(Settings(d'.built[name]), d'.seen[name]), name, c.now)
  }

  ghost predicate LetThrough(s: Setup, d: Desk, c: Call)
    requires SetupOk(s) && DeskOk(d) && |c.readings| == |s.rules|
    requires Covering(s, d.cache, c).Some?
  {
    Answered(s, d, c).allowed
  }

  lemma NotedOk(d: Desk, name: string, now: real)
    requires DeskOk(d) && name in d.built
    ensures DeskOk(Noted(d, name, now)) && d.built[name] >= 1 && name in d.seen
  {
  }

  lemma OpenedOk(d: Desk, name: string, limit: int)
    requires DeskOk(d) && name !in d.built && limit >= 1
    ensures DeskOk(Opened(d, name, limit))
  {
  }

  lemma RoutedOk(s: Setup, d: Desk, c: Call)
    requires SetupOk(s) && DeskOk(d) && |c.readings| == |s.rules|
    ensures DeskOk(Routed(s, d, c)) && DeskOk(Handled(s, d, c))
    ensures Covering(s, d.cache, c).Some? ==> s.rules[Covering(s, d.cache, c).value].name in Routed(s, d, c).built
  {
    var index := Covering(s, d.cache, c);
    if index.Some? { assert s.rules[index.value] in s.rules; }
  }

  lemma {:induction false} DeskAfterOk(s: Setup, calls: seq<Call>)
    requires SetupOk(s) && Fits(s, calls)
    ensures DeskOk(DeskAfter(s, calls))
  {
    if calls != [] {
      assert calls[|calls| - 1] in calls;
      assert forall c | c in calls[..|calls| - 1] :: c in calls;
      DeskAfterOk(s, calls[..|calls| - 1]);
      RoutedOk(s, DeskAfter(s, calls[..|calls| - 1]), calls[|calls| - 1]);
    }
  }

  // ---------------------------------------------------------------- what a name gets

  /** The times at which the service of that name was let through, over a whole run. */
  ghost function Admissions(s: Setup, calls: seq<Call>, name: string): seq<real>
    requires SetupOk(s) && Fits(s, calls)
  {
    if calls == [] then []
    else
      assert calls[|calls| - 1] in calls;
      assert forall c | c in calls[..|calls| - 1] :: c in calls;
      var front, last := calls[..|calls| - 1], calls[|calls| - 1];
      var d := DeskAfter(s, front);
      DeskAfterOk(s, front);
      var index := Covering(s, d.cache, last);
      Admissions(s, front, name)
      + if index.Some? && s.rules[index.value].name == name && LetThrough(s, d, last) then [last.now] else []
  }

  ghost predicate InOrder(calls: seq<Call>) {
    forall i, j :: 0 <= i <= j < |calls| ==> calls[i].now <= calls[j].now
  }

  lemma AfterNothing(c: Config, key: string)
    requires ConfigOk(c)
    ensures After(c, []) == Store(map[], []) && Admitted(c, [], key) == []
  {
  }

  /** One more call, seen from one name. */
  lemma HandledForName(s: Setup, d: Desk, c: Call, name: string)
    requires SetupOk(s) && DeskOk(d) && |c.readings| == |s.rules|
    ensures var index, d' := Covering(s, d.cache, c), Handled(s, d, c);
            if index.Some? && s.rules[index.value].name == name then
              && name in d'.built && (name in d.built ==> d'.built[name] == d.built[name])
              && d'.built[name] >= 1
              && d'.seen[name] == RequestsOf(d, name) + [Request(name, c.now)]
              && (name !in d.built ==> RequestsOf(d, name) == [])
              && LetThrough(s, d, c)
                 == Checked(Settings(d'.built[name]), After(Settings(d'.built[name]), RequestsOf(d, name)),
                            name, c.now).allowed
            else
              RequestsOf(d', name) == RequestsOf(d, name) && (name in d'.built <==> name in d.built)
              && (name in d.built ==> d'.built[name] == d.built[name])
  {
    hide Checked, After, Matched, StoreOk;
    RoutedOk(s, d, c);
  }

  ghost predicate AskedBy(asked: seq<Request>, name: string, now: real) {
    forall r | r in asked :: r.key == name && r.now <= now
  }

  lemma AskOnce(asked: seq<Request>, name: string, was: real, now: real)
    requires Monotone(asked) && AskedBy(asked, name, was) && was <= now
    ensures var more := asked + [Request(name, now)];
            AskedBy(asked, name, now) && Monotone(more) && AskedBy(more, name, now)
  {
    assert forall i | 0 <= i < |asked| :: asked[i] in asked;
  }

  /** The requests of a name come in the order of the calls. */
  lemma {:induction false} NamesInOrder(s: Setup, calls: seq<Call>, name: string)
    requires SetupOk(s) && Fits(s, calls) && InOrder(calls)
    ensures var asked := RequestsOf(DeskAfter(s, calls), name);
            if calls == [] then asked == [] else Monotone(asked) && AskedBy(asked, name, calls[|calls| - 1].now)
  {
    if calls != [] {
      var front, last := calls[..|calls| - 1], calls[|calls| - 1];
      assert last in calls;
      assert forall c | c in front :: c in calls;
      assert front != [] ==> front[|front| - 1].now <= last.now;
      NamesInOrder(s, front, name);
      var d := DeskAfter(s, front);
      DeskAfterOk(s, front);
      HandledForName(s, d, last, name);
      AskOnce(RequestsOf(d, name), name, if front == [] then last.now else front[|front| - 1].now, last.now);
      hide Handled, Covering, LetThrough, DeskOk, Checked, After, Admitted, Monotone, AskedBy;
    }
  }

  /** What a name's one limiter let through is what the service was let through. */
  lemma {:induction false} OneLimiterPerName(s: Setup, calls: seq<Call>, name: string)
    requires SetupOk(s) && Fits(s, calls)
    ensures var d := DeskAfter(s, calls);
            DeskOk(d) && Admissions(s, calls, name)
            == if name in d.built then Admitted(Settings(d.built[name]), d.seen[name], name) else []
  {
    DeskAfterOk(s, calls);
    if calls != [] {
      var front, last := calls[..|calls| - 1], calls[|calls| - 1];
      assert last in calls;
      assert forall c | c in front :: c in calls;
      OneLimiterPerName(s, front, name);
      DeskAfterOk(s, front);
      var d := DeskAfter(s, front);
      HandledForName(s, d, last, name);
      var c := if name in Handled(s, d, last).built then Settings(Handled(s, d, last).built[name]) else Settings(1);
      AfterNothing(c, name);
      AfterAppend(c, RequestsOf(d, name), Request(name, last.now), name);
      hide Checked, After, Covering, Handled, LetThrough, Admitted;
    }
  }

  /** The limit of a name is that of a rule listed with it: the first, or one that some peer can get to. */
  lemma {:induction false} BuiltBy(s: Setup, calls: seq<Call>, name: string) returns (i: nat)
    requires SetupOk(s) && Fits(s, calls) && NetworkByName(s.rules) && name in DeskAfter(s, calls).built
    ensures i < |s.rules| && s.rules[i].name == name
    ensures DeskAfter(s, calls).built[name] == Limit(s.rules[i], s.default)
    ensures FirstNamed(s.rules, i) == i
            || (s.rules[i].network.None? && exists peer :: PeerEscapes(s.addressing, s.rules, i, peer))
    ensures s.ttl > 0.0 && (forall c | c in calls :: Quick(c.readings)) ==> FirstNamed(s.rules, i) == i
  {
    var front, last := calls[..|calls| - 1], calls[|calls| - 1];
    assert last in calls;
    assert forall c | c in front :: c in calls;
    var d := DeskAfter(s, front);
    if name in d.built {
      i := BuiltBy(s, front, name);
    } else {
      var ip := PeerIp(s.addressing, last.peer.value).value;
      i := Covering(s, d.cache, last).value;
      RangesAreFirst(s.addressing, s.ttl, d.cache, s.rules, ip, last.readings);
      assert s.rules[i].network.None? ==> PeerEscapes(s.addressing, s.rules, i, last.peer.value);
      if s.ttl > 0.0 && Quick(last.readings) {
        QuickMatchIsFirst(s.addressing, s.ttl, d.cache, s.rules, ip, last.readings);
      }
    }
  }

  lemma SameFirst(rules: seq<ClientRule>, i: nat, j: nat)
    requires i < |rules| && j < |rules| && rules[i].name == rules[j].name
    ensures FirstNamed(rules, i) == FirstNamed(rules, j)
  {
  }

  /** One request after the other on one clock: a request reads the clock at its rules, then at the limiter. */
  ghost predicate Sequential(calls: seq<Call>) {
    && (forall c | c in calls :: ReadingsTick(c.readings) && forall r | r in c.readings :: r.now <= c.now)
    && forall i, j :: 0 <= i < j < |calls| ==>
         calls[i].now <= calls[j].now && forall r | r in calls[j].readings :: calls[i].now <= r.now
  }

  /** The limit in force for a name is that of the first rule listed with it, in every run, if and only if
      duplicates of a name agree on their limit. */
  lemma NamesGetTheirFirstLimit(s: Setup)
    requires SetupOk(s) && s.ttl >= 0.0 && NetworkByName(s.rules)
    ensures (forall calls, j: nat | Sequential(calls) && Fits(s, calls) && j < |s.rules|
                                     && FirstNamed(s.rules, j) == j ::
               s.rules[j].name in DeskAfter(s, calls).built ==>
                 DeskAfter(s, calls).built[s.rules[j].name] == Limit(s.rules[j], s.default))
            <==> DuplicatesAgree(s.addressing, s.rules, s.default)
  {
    if DuplicatesAgree(s.addressing, s.rules, s.default) {
      forall calls, j: nat | Sequential(calls) && Fits(s, calls) && j < |s.rules| && FirstNamed(s.rules, j) == j
        ensures s.rules[j].name in DeskAfter(s, calls).built ==>
                  DeskAfter(s, calls).built[s.rules[j].name] == Limit(s.rules[j], s.default)
      {
        if s.rules[j].name in DeskAfter(s, calls).built {
          var i := BuiltBy(s, calls, s.rules[j].name);
          SameFirst(s.rules, i, j);
        }
      }
    } else {
      var j: nat, peer :| j < |s.rules| && s.rules[j].network.None? && PeerEscapes(s.addressing, s.rules, j, peer)
                     && Limit(s.rules[j], s.default) != Limit(s.rules[FirstNamed(s.rules, j)], s.default);
      var c := SlowCall(s, j, peer);
      SameFirst(s.rules, FirstNamed(s.rules, j), j);
    }
  }

  /** A first call that makes rule j the one its name's limiter is built from. */
  lemma SlowCall(s: Setup, j: nat, peer: string) returns (c: Call)
    requires SetupOk(s) && s.ttl >= 0.0 && j < |s.rules| && s.rules[j].network.None?
    requires PeerEscapes(s.addressing, s.rules, j, peer)
    ensures Sequential([c]) && Fits(s, [c]) && c.peer == Some(peer)
    ensures var d, name := DeskAfter(s, [c]), s.rules[j].name;
            && d.built == map[name := Limit(s.rules[j], s.default)] && d.seen == map[name := [Request(name, c.now)]]
            && FoundUnder(d.cache, name, s.addressing.show(PeerIp(s.addressing, peer).value))
  {
    var readings := SlowReturns(s.addressing, s.ttl, s.rules, j, peer);
    c := Call(Some(peer), readings, readings[|readings| - 1].now);
    assert [c][..0] == [] && CacheAfter(s.ttl, []) == map[];
    assert DeskAfter(s, [c]) == Handled(s, Fresh(), c);
    assert [] + [Request(s.rules[j].name, c.now)] == [Request(s.rules[j].name, c.now)];
  }

  /** Either no duplicate of a name allows more than its first entry, or the clock stands still during each
      match. */
  ghost predicate FirstBounds(s: Setup, calls: seq<Call>) {
    || DuplicatesAllowNoMore(s.addressing, s.rules, s.default)
    || (s.ttl > 0.0 && forall c | c in calls :: Quick(c.readings))
  }

  /** Named buckets bound a whole service: however addresses and DNS answers change, any window holds at
      most as many admissions through one name as the first rule listed with it allows. */
  lemma {:induction false} NamedBound(s: Setup, calls: seq<Call>, j: nat, from: real)
    requires SetupOk(s) && Fits(s, calls) && InOrder(calls) && NetworkByName(s.rules) && FirstBounds(s, calls)
    requires j < |s.rules| && FirstNamed(s.rules, j) == j
    ensures CountWithin(Admissions(s, calls, s.rules[j].name), from, WINDOW) <= Limit(s.rules[j], s.default)
    ensures s.rules[j].maxPerMin.Some? ==>
              CountWithin(Admissions(s, calls, s.rules[j].name), from, 60.0) <= s.rules[j].maxPerMin.value
    ensures s.rules[j].maxPerMin.None? ==> CountWithin(Admissions(s, calls, s.rules[j].name), from, 60.0) <= s.default
  {
    var d, name := DeskAfter(s, calls), s.rules[j].name;
    OneLimiterPerName(s, calls, name);
    NamesInOrder(s, calls, name);
    assert s.rules[j] in s.rules;
    if name in d.built {
      var i := BuiltBy(s, calls, name);
      SameFirst(s.rules, i, j);
      var c := Settings(d.built[name]);
      OneKeyFits(c, d.seen[name], name);
      WindowBound(c, d.seen[name], name, from);
    }
  }

  /** The same from the text of the setting, whatever it holds. */
  lemma {:induction false} SettingBound(x: Syntax, spec: string, s: Setup, calls: seq<Call>, j: nat, from: real)
    requires s.rules == Rules(x, spec) && s.default >= 1
    requires Fits(s, calls) && InOrder(calls) && FirstBounds(s, calls)
    requires j < |s.rules| && FirstNamed(s.rules, j) == j
    ensures SetupOk(s)
    ensures CountWithin(Admissions(s, calls, s.rules[j].name), from, WINDOW) <= Limit(s.rules[j], s.default)
    ensures s.rules[j].maxPerMin.Some? ==>
              CountWithin(Admissions(s, calls, s.rules[j].name), from, 60.0) <= s.rules[j].maxPerMin.value
    ensures s.rules[j].maxPerMin.None? ==> CountWithin(Admissions(s, calls, s.rules[j].name), from, 60.0) <= s.default
  {
    RulesOk(x, spec);
    assert forall i | 0 <= i < |s.rules| :: s.rules[i] in s.rules && s.rules[i].network == x.network(s.rules[i].name);
    NamedBound(s, calls, j, from);
  }

  // ---------------------------------------------------------------- as it is written

  /** The limiter is as these requests have left it. */
  ghost predicate Keeps(limiter: RateLimiter, limit: int, seen: seq<Request>)
    reads limiter
  {
    && limit >= 1 && limiter.Valid() && limiter.Settings() == Settings(limit)
    && limiter.Contents() == After(Settings(limit), seen)
  }

  /** One limiter per name, and none shared between names. */
  ghost predicate Filed(d: Desk, limiters: map<string, RateLimiter>, owned: set<RateLimiter>) {
    && d.built.Keys == limiters.Keys
    && (forall n | n in limiters :: limiters[n] in owned)
    && forall m, n | m in limiters && n in limiters && m != n :: limiters[m] != limiters[n]
  }

  lemma FiledOpened(d: Desk, limiters: map<string, RateLimiter>, owned: set<RateLimiter>, name: string, limit: int,
      limiter: RateLimiter)
    requires Filed(d, limiters, owned) && name !in limiters && limiter !in owned
    ensures Filed(Opened(d, name, limit), limiters[name := limiter], owned + {limiter})
    ensures forall n | n in limiters ::
              Opened(d, name, limit).built[n] == d.built[n] && RequestsOf(Opened(d, name, limit), n) == RequestsOf(d, n)
    ensures RequestsOf(Opened(d, name, limit), name) == [] && Opened(d, name, limit).built[name] == limit
  {
  }

  lemma FiledNoted(d: Desk, limiters: map<string, RateLimiter>, owned: set<RateLimiter>, name: string, now: real)
    requires Filed(d, limiters, owned) && name in limiters
    ensures Filed(Noted(d, name, now), limiters, owned) && Noted(d, name, now).built == d.built
    ensures forall n | n in limiters && n != name ::
              RequestsOf(Noted(d, name, now), n) == RequestsOf(d, n) && limiters[n] != limiters[name]
    ensures RequestsOf(Noted(d, name, now), name) == RequestsOf(d, name) + [Request(name, now)]
  {
  }

  /** The limiter factory, without Redis: a minute per window. */
  method NewRateLimiter(limit: int) returns (limiter: RateLimiter)
    requires limit >= 1
    ensures fresh(limiter) && Keeps(limiter, limit, []) && limiter.Settings() == Config(limit, 60.0, 10_000)
  {
    AfterNothing(Settings(limit), "");
    limiter := new RateLimiter(limit, WINDOW, DEFAULT_MAX_KEYS);
  }

  class NamedClientLimiter {
    const registry: ClientRegistry
    const defaultMax: int
    var limiters: map<string, RateLimiter>
    ghost var desk: Desk
    ghost var owned: set<RateLimiter>

    constructor (registry: ClientRegistry, defaultMax: int)
      requires registry.cache == map[]
      requires SetupOk(Setup(registry.addressing, registry.ttl, registry.rules, defaultMax))
      ensures Valid() && this.registry == registry && this.defaultMax == defaultMax
      ensures desk == Fresh() && limiters == map[] && owned == {}
    {
      this.registry, this.defaultMax := registry, defaultMax;
      limiters, desk, owned := map[], Fresh(), {};
    }

    function Configured(): Setup {
      Setup(registry.addressing, registry.ttl, registry.rules, defaultMax)
    }

    /** Each limiter is as its name's requests have left it. */
    ghost predicate Valid()
      reads this, registry, owned
    {
      && SetupOk(Configured()) && DeskOk(desk) && desk.cache == registry.cache
      && Filed(desk, limiters, owned)
      && forall n | n in limiters :: Keeps(limiters[n], desk.built[n], RequestsOf(desk, n))
    }

    method ForPeer(peer: Option<string>, readings: seq<Reading>, ghost now: real) returns (name: Option<string>)
      requires Valid() && |readings| == |registry.rules|
      modifies this, registry
      ensures Valid() && desk == Routed(Configured(), old(desk), Call(peer, readings, now))
      ensures fresh(owned - old(owned))
      ensures var index := Covering(Configured(), old(desk).cache, Call(peer, readings, now));
              name == if index.Some? then Some(registry.rules[index.value].name) else None
      ensures name.Some? ==> name.value in limiters
      ensures var index := Covering(Configured(), old(desk).cache, Call(peer, readings, now));
              index.Some? && name.value !in old(limiters) ==>
                var rule := registry.rules[index.value];
                && limiters[name.value].max == (if rule.maxPerMin.Some? then rule.maxPerMin.value else defaultMax)
                && limiters[name.value].window == 60.0 && limiters[name.value].maxKeys == 10_000
    {
      hide Keeps, Matched;
      var rule := registry.Match(peer, readings);
      desk := desk.(cache := registry.cache);
      assert DeskOk(desk) && (rule.Some? ==> rule.value in registry.rules);
      if rule.Some? { LimitIs(rule.value, defaultMax); }
      assert rule.Some? ==> Limit(rule.value, defaultMax) >= 1;
      assert rule.Some? && rule.value.maxPerMin.Some? ==> rule.value.maxPerMin.value >= 1;
      hide DeskOk, SetupOk, Limit;
      if rule.None? {
        return None;
      }
      if rule.value.name !in limiters {
        Build(rule.value.name, Limit(rule.value, defaultMax));
      }
      return Some(rule.value.name);
    }

    method Build(name: string, limit: int)
      requires Valid() && name !in limiters && limit >= 1
      modifies this
      ensures Valid() && desk == Opened(old(desk), name, limit)
      ensures name in limiters && fresh(owned - old(owned)) && limiters[name].Settings() == Config(limit, 60.0, 10_000)
    {
      OpenedOk(desk, name, limit);
      hide Keeps, SetupOk, DeskOk;
      var limiter := NewRateLimiter(limit);
      FiledOpened(desk, limiters, owned, name, limit, limiter);
      hide Filed, Opened, RequestsOf;
      limiters := limiters[name := limiter];
      desk, owned := Opened(desk, name, limit), owned + {limiter};
    }

    method CheckNamed(name: string, now: real) returns (allowed: bool, retryAfter: int)
      requires Valid() && name in limiters
      modifies this, limiters[name]
      ensures Valid() && limiters == old(limiters) && owned == old(owned)
      ensures desk == Noted(old(desk), name, now)
      ensures var c := Settings(old(desk).built[name]);
              var o := Checked(c, After(c, old(desk).seen[name]), name, now);
              allowed == o.allowed && retryAfter == o.retryAfter
    {
      NotedOk(desk, name, now);
      FiledNoted(desk, limiters, owned, name, now);
      hide Checked, After, StoreOk, DeskOk, SetupOk, Noted, Filed;
      AfterAppend(Settings(desk.built[name]), desk.seen[name], Request(name, now), name);
      allowed, retryAfter := limiters[name].Check(name, now);
      assert Keeps(limiters[name], desk.built[name], RequestsOf(desk, name) + [Request(name, now)]);
      hide Keeps, RequestsOf;
      desk := Noted(desk, name, now);
    }
  }

  /** enforce_rate_limit: the named bucket if a rule covers the peer, else the default one by address. */
  method Enforce(named: NamedClientLimiter, default: RateLimiter, peer: Option<string>, readings: seq<Reading>,
      now: real)
    returns (allowed: bool, retryAfter: int)
    requires named.Valid() && default.Valid() && |readings| == |named.registry.rules|
    requires default !in named.owned
    modifies named, named.registry, named.owned, default
    ensures named.Valid() && default.Valid() && default !in named.owned
    ensures var c := Call(peer, readings, now);
            var index := Covering(named.Configured(), old(named.desk).cache, c);
            && named.desk == Handled(named.Configured(), old(named.desk), c)
            && (if index.Some? then
                  && allowed == Answered(named.Configured(), old(named.desk), c).allowed
                  && retryAfter == Answered(named.Configured(), old(named.desk), c).retryAfter
                  && default.Contents() == old(default.Contents())
                else
                  Outcome(default.Contents(), allowed, retryAfter)
                  == Checked(default.Settings(), old(default.Contents()),
                             if peer.None? || peer == Some("") then "anon" else peer.value, now))
  {
    hide Checked, After, StoreOk, Matched, DeskOk, SetupOk, Keeps;
    ghost var c := Call(peer, readings, now);
    RoutedOk(named.Configured(), named.desk, c);
    var name := named.ForPeer(peer, readings, now);
    if name.Some? {
      allowed, retryAfter := named.CheckNamed(name.value, now);
    } else {
      allowed, retryAfter := default.Check(if peer.Some? && peer.value != "" then peer.value else "anon", now);
    }
  }
}
