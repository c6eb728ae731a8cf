/** The registry over whole runs: the cached resolver agrees with asking DNS directly, up to answers that are
    less than a time to live old. */
module Resolver {
  import opened Basics
  import opened Clients

  /** One call of `match`: the peer, and what the clock and DNS would say at each rule. */
  datatype Visit = Visit(peer: Option<string>, readings: seq<Reading>)

  datatype Registry = Registry(addressing: Addressing, ttl: real, rules: seq<ClientRule>)

  ghost predicate Fit(g: Registry, visits: seq<Visit>) {
    forall v | v in visits :: |v.readings| == |g.rules|
  }

  /** The queries that a scan makes: one for each host rule it gets to. */
  function Asks(a: Addressing, ttl: real, cache: Cache, rules: seq<ClientRule>, ip: Ip,
      readings: seq<Reading>): seq<Query>
    requires |readings| == |rules|
    decreases |rules|
  {
    if rules == [] then []
    else if rules[0].network.Some? then
      if RuleCovers(a, rules[0], ip, {}) then [] else Asks(a, ttl, cache, rules[1..], ip, readings[1..])
    else
      var q := QueryFor(rules[0], readings[0]);
      [q] + if RuleCovers(a, rules[0], ip, Addresses(cache, q)) then []
            else Asks(a, ttl, Asked(ttl, cache, q), rules[1..], ip, readings[1..])
  }

  function VisitAsks(g: Registry, cache: Cache, v: Visit): seq<Query>
    requires |v.readings| == |g.rules|
  {
    if v.peer.None? || PeerIp(g.addressing, v.peer.value).None? then []
    else Asks(g.addressing, g.ttl, cache, g.rules, PeerIp(g.addressing, v.peer.value).value, v.readings)
  }

  /** The cache after a run of matches, each starting from what the one before left. */
  function CacheNow(g: Registry, visits: seq<Visit>): Cache
    requires Fit(g, visits)
  {
    if visits == [] then map[]
    else
      var front, last := visits[..|visits| - 1], visits[|visits| - 1];
      assert last in visits && forall v | v in front :: v in visits;
      Matched(g.addressing, g.ttl, CacheNow(g, front), g.rules, last.peer, last.readings).cache
  }

  /** The queries of a whole run, in order. */
  function Queries(g: Registry, visits: seq<Visit>): seq<Query>
    requires Fit(g, visits)
  {
    if visits == [] then []
    else
      var front, last := visits[..|visits| - 1], visits[|visits| - 1];
      assert last in visits && forall v | v in front :: v in visits;
      Queries(g, front) + VisitAsks(g, CacheNow(g, front), last)
  }

  lemma AskOnceMore(ttl: real, qs: seq<Query>, q: Query)
    ensures CacheAfter(ttl, qs + [q]) == Asked(ttl, CacheAfter(ttl, qs), q)
  {
    assert (qs + [q])[..|qs|] == qs;
  }

  /** A scan leaves the cache that its queries leave. */
  lemma {:induction false} ScanIsItsQueries(a: Addressing, ttl: real, qs: seq<Query>, rules: seq<ClientRule>,
      ip: Ip, readings: seq<Reading>)
    requires |readings| == |rules|
    ensures var cache := CacheAfter(ttl, qs);
            Scan(a, ttl, cache, rules, ip, readings).cache
              == CacheAfter(ttl, qs + Asks(a, ttl, cache, rules, ip, readings))
    decreases |rules|
  {
    hide CacheAfter, Asked, Addresses, RuleCovers;
    var cache := CacheAfter(ttl, qs);
    if rules == [] {
      assert qs + [] == qs;
    } else if rules[0].network.Some? {
      if !RuleCovers(a, rules[0], ip, {}) { ScanIsItsQueries(a, ttl, qs, rules[1..], ip, readings[1..]); }
      assert qs + [] == qs;
    } else {
      var q := QueryFor(rules[0], readings[0]);
      AskOnceMore(ttl, qs, q);
      if !RuleCovers(a, rules[0], ip, Addresses(cache, q)) {
        ScanIsItsQueries(a, ttl, qs + [q], rules[1..], ip, readings[1..]);
        var rest := Asks(a, ttl, Asked(ttl, cache, q), rules[1..], ip, readings[1..]);
        assert qs + ([q] + rest) == (qs + [q]) + rest;
      } else {
        assert [q] + [] == [q];
      }
    }
  }

  /** The cache of a run of matches is the cache of the queries they made. */
  lemma {:induction false} CacheIsItsQueries(g: Registry, visits: seq<Visit>)
    requires Fit(g, visits)
    ensures CacheNow(g, visits) == CacheAfter(g.ttl, Queries(g, visits))
  {
    if visits != [] {
      var front, last := visits[..|visits| - 1], visits[|visits| - 1];
      assert last in visits && forall v | v in front :: v in visits;
      CacheIsItsQueries(g, front);
      if last.peer.Some? && PeerIp(g.addressing, last.peer.value).Some? {
        ScanIsItsQueries(g.addressing, g.ttl, Queries(g, front), g.rules,
          PeerIp(g.addressing, last.peer.value).value, last.readings);
      } else {
        assert Queries(g, front) + [] == Queries(g, front);
      }
    }
  }

  /** How many rules a scan gets to. */
  function Reached(found: Found, n: nat): nat {
    if found.index.Some? then found.index.value + 1 else n
  }

  /** The p-th query was made for rule k of this scan, and answered with the snapshot the rule saw. */
  ghost predicate AskedFor(ttl: real, qs: seq<Query>, p: nat, rule: ClientRule, reading: Reading,
      snapshot: set<string>) {
    && p < |qs| && qs[p] == QueryFor(rule, reading)
    && snapshot == Addresses(CacheAfter(ttl, qs[..p]), qs[p])
  }

  lemma {:induction false} SnapshotsAreAsked(a: Addressing, ttl: real, qs: seq<Query>, rules: seq<ClientRule>,
      ip: Ip, readings: seq<Reading>, k: nat)
      returns (p: nat)
    requires |readings| == |rules| && k < |rules| && rules[k].network.None?
    requires k < Reached(Scan(a, ttl, CacheAfter(ttl, qs), rules, ip, readings), |rules|)
    ensures p >= |qs|
    ensures AskedFor(ttl, qs + Asks(a, ttl, CacheAfter(ttl, qs), rules, ip, readings), p, rules[k], readings[k],
                     Snapshots(ttl, CacheAfter(ttl, qs), rules, readings)[k])
    decreases |rules|
  {
    hide CacheAfter, Asked, Addresses, RuleCovers;
    var cache := CacheAfter(ttl, qs);
    var all := qs + Asks(a, ttl, cache, rules, ip, readings);
    if k == 0 {
      p := |qs|;
      assert all[..p] == qs;
    } else if rules[0].network.Some? {
      p := SnapshotsAreAsked(a, ttl, qs, rules[1..], ip, readings[1..], k - 1);
    } else {
      var q := QueryFor(rules[0], readings[0]);
      AskOnceMore(ttl, qs, q);
      p := SnapshotsAreAsked(a, ttl, qs + [q], rules[1..], ip, readings[1..], k - 1);
      var rest := Asks(a, ttl, Asked(ttl, cache, q), rules[1..], ip, readings[1..]);
      assert qs + ([q] + rest) == (qs + [q]) + rest;
    }
  }

  /** The answer used for the p-th query is one that DNS gave for its name, to this query or to one before it,
      less than a time to live ago. */
  ghost predicate FreshAnswer(ttl: real, qs: seq<Query>, p: nat, answer: set<string>) {
    p < |qs| && exists j :: 0 <= j <= p && qs[j].name == qs[p].name && LookedUp(ttl, qs, j)
                            && qs[j].answer == answer && qs[j].now <= qs[p].now < qs[j].now + ttl
  }

  lemma AskedIsFresh(ttl: real, qs: seq<Query>, p: nat, rule: ClientRule, reading: Reading, snapshot: set<string>)
    requires ttl > 0.0 && Ticking(qs) && AskedFor(ttl, qs, p, rule, reading, snapshot)
    ensures FreshAnswer(ttl, qs, p, snapshot) && qs[p] == QueryFor(rule, reading)
  {
    SnapshotIsFresh(ttl, qs, p);
  }

  /** No name is looked up twice within a time to live. */
  ghost predicate Sparing(ttl: real, qs: seq<Query>) {
    forall i, j | 0 <= i < j < |qs| && qs[i].name == qs[j].name && LookedUp(ttl, qs, i) && LookedUp(ttl, qs, j) ::
      qs[j].now >= qs[i].now + ttl
  }

  lemma TickingIsSparing(ttl: real, qs: seq<Query>)
    requires ttl >= 0.0 && Ticking(qs)
    ensures Sparing(ttl, qs)
  {
    forall i, j | 0 <= i < j < |qs| && qs[i].name == qs[j].name && LookedUp(ttl, qs, i) && LookedUp(ttl, qs, j)
      ensures qs[j].now >= qs[i].now + ttl
    {
      OncePerTtl(ttl, qs, i, j);
    }
  }

  lemma OneMoreVisit(g: Registry, past: seq<Visit>, v: Visit)
    requires Fit(g, past + [v]) && Fit(g, past) && |v.readings| == |g.rules|
    ensures Queries(g, past + [v]) == Queries(g, past) + VisitAsks(g, CacheNow(g, past), v)
  {
    assert (past + [v])[..|past|] == past;
  }

  /** The rule found covers the address with the snapshots given, and no rule before it does; none is found
      only if none covers it. */
  ghost predicate FirstCovering(g: Registry, ip: Ip, found: Option<nat>, snaps: seq<set<string>>)
    requires |snaps| == |g.rules|
  {
    && (found.Some? ==>
          && found.value < |g.rules|
          && RuleCovers(g.addressing, g.rules[found.value], ip, snaps[found.value]))
    && forall k | 0 <= k < (if found.Some? && found.value < |g.rules| then found.value else |g.rules|) ::
         !RuleCovers(g.addressing, g.rules[k], ip, snaps[k])
  }

  /** Every host rule that was reached saw the answer to a query made for it since `from`, and the answer is
      one that DNS gave for its name less than a time to live before. */
  ghost predicate SawFresh(g: Registry, qs: seq<Query>, from: nat, reached: nat, readings: seq<Reading>,
                           snaps: seq<set<string>>)
    requires |snaps| == |g.rules| == |readings| && reached <= |g.rules|
  {
    forall k | 0 <= k < reached && g.rules[k].network.None? ::
      exists p: nat :: from <= p < |qs| && qs[p] == QueryFor(g.rules[k], readings[k])
                       && FreshAnswer(g.ttl, qs, p, snaps[k])
  }

  lemma ScanIsFirst(g: Registry, cache: Cache, ip: Ip, readings: seq<Reading>)
    requires |readings| == |g.rules|
    ensures FirstCovering(g, ip, Scan(g.addressing, g.ttl, cache, g.rules, ip, readings).index,
                          Snapshots(g.ttl, cache, g.rules, readings))
  {
    FirstMatchWins(g.addressing, g.ttl, cache, g.rules, ip, readings);
    hide Scan, Snapshots, RuleCovers;
  }

  lemma ScanSawFresh(g: Registry, before: seq<Query>, ip: Ip, readings: seq<Reading>)
    requires g.ttl > 0.0 && |readings| == |g.rules|
    requires Ticking(before + Asks(g.addressing, g.ttl, CacheAfter(g.ttl, before), g.rules, ip, readings))
    ensures var cache := CacheAfter(g.ttl, before);
            SawFresh(g, before + Asks(g.addressing, g.ttl, cache, g.rules, ip, readings), |before|,
                     Reached(Scan(g.addressing, g.ttl, cache, g.rules, ip, readings), |g.rules|), readings,
                     Snapshots(g.ttl, cache, g.rules, readings))
  {
    hide Scan, Snapshots, Asks, CacheAfter, FreshAnswer, AskedFor, Ticking, QueryFor;
    var cache := CacheAfter(g.ttl, before);
    var qs := before + Asks(g.addressing, g.ttl, cache, g.rules, ip, readings);
    var snaps := Snapshots(g.ttl, cache, g.rules, readings);
    var found := Scan(g.addressing, g.ttl, cache, g.rules, ip, readings);
    forall k | 0 <= k < Reached(found, |g.rules|) && g.rules[k].network.None?
      ensures exists p: nat :: |before| <= p < |qs| && qs[p] == QueryFor(g.rules[k], readings[k])
                               && FreshAnswer(g.ttl, qs, p, snaps[k])
    {
      var p := SnapshotsAreAsked(g.addressing, g.ttl, before, g.rules, ip, readings, k);
      AskedIsFresh(g.ttl, qs, p, g.rules[k], readings[k], snaps[k]);
    }
  }

  /** The cached resolver agrees with direct resolution. In every run of matches on a monotone clock, the
      rule returned is the first that covers the normalised peer, where each name stands for an answer of DNS
      that is less than a time to live old; and each name is looked up at most once per time to live. */
  lemma {:induction false} MatchAgreesWithDns(g: Registry, past: seq<Visit>, v: Visit)
    requires g.ttl > 0.0 && Fit(g, past + [v]) && Fit(g, past) && Ticking(Queries(g, past + [v]))
    requires |v.readings| == |g.rules| && v.peer.Some? && PeerIp(g.addressing, v.peer.value).Some?
    ensures var found := Matched(g.addressing, g.ttl, CacheNow(g, past), g.rules, v.peer, v.readings);
            var snaps := Snapshots(g.ttl, CacheNow(g, past), g.rules, v.readings);
            && FirstCovering(g, PeerIp(g.addressing, v.peer.value).value, found.index, snaps)
            && SawFresh(g, Queries(g, past + [v]), |Queries(g, past)|, Reached(found, |g.rules|), v.readings, snaps)
            && Sparing(g.ttl, Queries(g, past + [v]))
  {
    var ip := PeerIp(g.addressing, v.peer.value).value;
    OneMoreVisit(g, past, v);
    CacheIsItsQueries(g, past);
    TickingIsSparing(g.ttl, Queries(g, past + [v]));
    hide Queries, CacheNow, CacheAfter, Scan, Snapshots, Asks, FirstCovering, SawFresh, Sparing, Ticking;
    ScanIsFirst(g, CacheNow(g, past), ip, v.readings);
    ScanSawFresh(g, Queries(g, past), ip, v.readings);
  }
}
