/** Callers by name (clients.py): the RATE_LIMIT_CLIENTS entries, first match wins, and the cache of
    resolved addresses. Address syntax, network membership and DNS are parameters. */
module Clients {
  import opened Basics

  datatype Ip = V4(bits: nat) | V6(bits: nat)

  datatype Network = Network(text: string)

  datatype ClientRule = ClientRule(name: string, maxPerMin: Option<int>, network: Option<Network>)

  /** What the standard library knows about addresses. */
  datatype Addressing = Addressing(parse: string -> Option<Ip>, covers: (Network, Ip) -> bool, show: Ip -> string)

  /** ::ffff:a.b.c.d is compared as a.b.c.d (section 2.5.5.2 of RFC 4291). */
  function Normalise(ip: Ip): Ip {
    if ip.V6? && ip.bits / 0x1_0000_0000 == 0xFFFF then V4(ip.bits % 0x1_0000_0000) else ip
  }

  /** The 32 low bits behind the prefix ::ffff:0:0/96 are the IPv4 address; every other address stays. */
  lemma NormaliseIs(ip: Ip, low: nat)
    requires low < 0x1_0000_0000
    ensures ip == V6(0xFFFF_0000_0000 + low) ==> Normalise(ip) == V4(low)
    ensures ip.V4? || ip.bits < 0xFFFF_0000_0000 || ip.bits >= 0x1_0000_0000_0000 ==> Normalise(ip) == ip
  {
  }

  /** The address a peer is compared as, if it has one. */
  function PeerIp(a: Addressing, peer: string): Option<Ip> {
    if peer == "" || a.parse(peer).None? then None else Some(Normalise(a.parse(peer).value))
  }

  // ---------------------------------------------------------------- the cache

  datatype Cached = Cached(expires: real, addresses: set<string>)

  type Cache = map<string, Cached>

  /** One call of `_addresses`: the clock reading it starts with, and the answer DNS would give. A failed
      lookup answers with no addresses. */
  datatype Query = Query(name: string, now: real, answer: set<string>)

  predicate Hit(cache: Cache, q: Query) {
    q.name in cache && cache[q.name].expires > q.now
  }

  function Addresses(cache: Cache, q: Query): set<string> {
    if Hit(cache, q) then cache[q.name].addresses else q.answer
  }

  function Asked(ttl: real, cache: Cache, q: Query): Cache {
    if Hit(cache, q) then cache else cache[q.name := Cached(q.now + ttl, q.answer)]
  }

  function CacheAfter(ttl: real, qs: seq<Query>): Cache {
    if qs == [] then map[] else Asked(ttl, CacheAfter(ttl, qs[..|qs| - 1]), qs[|qs| - 1])
  }

  /** The i-th call went to DNS. */
  predicate LookedUp(ttl: real, qs: seq<Query>, i: nat)
    requires i < |qs|
  {
    !Hit(CacheAfter(ttl, qs[..i]), qs[i])
  }

  ghost predicate Ticking(qs: seq<Query>) {
    forall i, j :: 0 <= i <= j < |qs| ==> qs[i].now <= qs[j].now
  }

  /** The j-th call was the latest lookup of the name, and its answer is what the cache holds. */
  ghost predicate Latest(ttl: real, qs: seq<Query>, name: string, j: nat) {
    && j < |qs| && qs[j].name == name && LookedUp(ttl, qs, j)
    && name in CacheAfter(ttl, qs) && CacheAfter(ttl, qs)[name] == Cached(qs[j].now + ttl, qs[j].answer)
    && forall k | j < k < |qs| && qs[k].name == name :: !LookedUp(ttl, qs, k)
  }

  lemma LookedUpInPrefix(ttl: real, qs: seq<Query>, n: nat)
    requires n <= |qs|
    ensures forall k | 0 <= k < n :: LookedUp(ttl, qs[..n], k) == LookedUp(ttl, qs, k)
  {
    forall k | 0 <= k < n ensures LookedUp(ttl, qs[..n], k) == LookedUp(ttl, qs, k) {
      assert qs[..n][..k] == qs[..k];
    }
  }

  /** A cached entry is the answer to the latest lookup of its name. */
  lemma {:induction false} CacheIsLatest(ttl: real, qs: seq<Query>, name: string)
    ensures name in CacheAfter(ttl, qs) ==> exists j :: Latest(ttl, qs, name, j)
    ensures name !in CacheAfter(ttl, qs) ==> forall k | 0 <= k < |qs| :: qs[k].name != name
  {
    if qs != [] {
      var n := |qs| - 1;
      var front := qs[..n];
      CacheIsLatest(ttl, front, name);
      LookedUpInPrefix(ttl, qs, n);
      assert LookedUp(ttl, qs, n) == !Hit(CacheAfter(ttl, front), qs[n]);
      assert CacheAfter(ttl, qs) == Asked(ttl, CacheAfter(ttl, front), qs[n]);
      hide CacheAfter, LookedUp;
      if qs[n].name == name && LookedUp(ttl, qs, n) {
        assert Latest(ttl, qs, name, n);
      } else if name in CacheAfter(ttl, qs) {
        var j: nat :| Latest(ttl, front, name, j);
        assert Latest(ttl, qs, name, j);
      }
    }
  }

  /** Each name, failing ones included, is looked up at most once per time to live. */
  lemma OncePerTtl(ttl: real, qs: seq<Query>, i: nat, j: nat)
    requires Ticking(qs) && ttl >= 0.0 && i < j < |qs|
    requires qs[i].name == qs[j].name && LookedUp(ttl, qs, i) && LookedUp(ttl, qs, j)
    ensures qs[j].now >= qs[i].now + ttl
  {
    CacheIsLatest(ttl, qs[..j], qs[i].name);
    LookedUpInPrefix(ttl, qs, j);
    assert qs[..j][i] == qs[i] && LookedUp(ttl, qs[..j], i);
    var k: nat :| Latest(ttl, qs[..j], qs[i].name, k);
  }

  /** Every answer given is one that DNS gave for that name less than a time to live before. */
  lemma SnapshotIsFresh(ttl: real, qs: seq<Query>, i: nat)
    requires Ticking(qs) && ttl > 0.0 && i < |qs|
    ensures exists j :: 0 <= j <= i && qs[j].name == qs[i].name && LookedUp(ttl, qs, j)
                        && Addresses(CacheAfter(ttl, qs[..i]), qs[i]) == qs[j].answer
                        && qs[j].now <= qs[i].now < qs[j].now + ttl
  {
    if LookedUp(ttl, qs, i) {
      assert Addresses(CacheAfter(ttl, qs[..i]), qs[i]) == qs[i].answer;
    } else {
      CacheIsLatest(ttl, qs[..i], qs[i].name);
      LookedUpInPrefix(ttl, qs, i);
      var j: nat :| Latest(ttl, qs[..i], qs[i].name, j);
      assert LookedUp(ttl, qs, j);
    }
  }

  // ---------------------------------------------------------------- matching

  /** What the clock and DNS would say when a rule is reached. */
  datatype Reading = Reading(now: real, answer: set<string>)

  predicate RuleCovers(a: Addressing, rule: ClientRule, ip: Ip, snapshot: set<string>) {
    if rule.network.Some? then a.covers(rule.network.value, ip) else a.show(ip) in snapshot
  }

  function QueryFor(rule: ClientRule, r: Reading): Query {
    Query(rule.name, r.now, r.answer)
  }

  /** The snapshot each rule is compared with, should the loop get that far. */
  function Snapshots(ttl: real, cache: Cache, rules: seq<ClientRule>, readings: seq<Reading>): (snaps: seq<set<string>>)
    requires |readings| == |rules|
    ensures |snaps| == |rules|
    decreases |rules|
  {
    if rules == [] then []
    else if rules[0].network.Some? then [{}] + Snapshots(ttl, cache, rules[1..], readings[1..])
    else
      var q := QueryFor(rules[0], readings[0]);
      [Addresses(cache, q)] + Snapshots(ttl, Asked(ttl, cache, q), rules[1..], readings[1..])
  }

  datatype Found = Found(index: Option<nat>, cache: Cache)

  /** The loop of `match` over the rules, with its early return. */
  function Scan(a: Addressing, ttl: real, cache: Cache, rules: seq<ClientRule>, ip: Ip,
      readings: seq<Reading>): (found: Found)
    requires |readings| == |rules|
    ensures found.index.Some? ==> found.index.value < |rules|
    decreases |rules|
  {
    if rules == [] then Found(None, cache)
    else
      var q := QueryFor(rules[0], readings[0]);
      var snapshot := if rules[0].network.Some? then {} else Addresses(cache, q);
      var cache' := if rules[0].network.Some? then cache else Asked(ttl, cache, q);
      if RuleCovers(a, rules[0], ip, snapshot) then Found(Some(0), cache')
      else
        var rest := Scan(a, ttl, cache', rules[1..], ip, readings[1..]);
        rest.(index := if rest.index.Some? then Some(rest.index.value + 1) else None)
  }

  /** First match wins: the rule found covers the peer with the snapshot it was compared with, and no rule
      listed before it does; none is found only if none covers it. */
  lemma {:induction false} FirstMatchWins(a: Addressing, ttl: real, cache: Cache, rules: seq<ClientRule>, ip: Ip,
      readings: seq<Reading>)
    requires |readings| == |rules|
    ensures var found := Scan(a, ttl, cache, rules, ip, readings).index;
            var snaps := Snapshots(ttl, cache, rules, readings);
            var end := if found.Some? then found.value else |rules|;
            && end <= |rules|
            && (found.Some? ==> end < |rules| && RuleCovers(a, rules[end], ip, snaps[end]))
            && forall k | 0 <= k < end :: !RuleCovers(a, rules[k], ip, snaps[k])
    decreases |rules|
  {
    hide RuleCovers, Addresses, Asked;
    if rules != [] {
      var q := QueryFor(rules[0], readings[0]);
      var cache' := if rules[0].network.Some? then cache else Asked(ttl, cache, q);
      FirstMatchWins(a, ttl, cache', rules[1..], ip, readings[1..]);
      var found := Scan(a, ttl, cache, rules, ip, readings).index;
      var snaps, rest := Snapshots(ttl, cache, rules, readings), Snapshots(ttl, cache', rules[1..], readings[1..]);
      var end := if found.Some? then found.value else |rules|;
      forall k | 0 <= k < end ensures !RuleCovers(a, rules[k], ip, snaps[k]) {
        if k > 0 { assert snaps[k] == rest[k - 1] && rules[k] == rules[1..][k - 1]; }
      }
    }
  }

  /** The same in the words of the setting: the rule found is a range that the address is in, or a name that the
      address is an answer for; and no range and no name listed before it is. */
  lemma FirstMatchIs(a: Addressing, ttl: real, cache: Cache, rules: seq<ClientRule>, ip: Ip, readings: seq<Reading>)
    requires |readings| == |rules|
    ensures var found := Scan(a, ttl, cache, rules, ip, readings).index;
            var snaps := Snapshots(ttl, cache, rules, readings);
            var end := if found.Some? then found.value else |rules|;
            && end <= |rules| && (found.Some? ==> end < |rules|)
            && (found.Some? && rules[end].network.Some? ==> a.covers(rules[end].network.value, ip))
            && (found.Some? && rules[end].network.None? ==> a.show(ip) in snaps[end])
            && (forall k | 0 <= k < end && rules[k].network.Some? :: !a.covers(rules[k].network.value, ip))
            && (forall k | 0 <= k < end && rules[k].network.None? :: a.show(ip) !in snaps[k])
  {
    FirstMatchWins(a, ttl, cache, rules, ip, readings);
    var snaps := Snapshots(ttl, cache, rules, readings);
    hide Scan, Snapshots;
    forall k | 0 <= k < |rules|
      ensures RuleCovers(a, rules[k], ip, snaps[k]) ==
              if rules[k].network.Some? then a.covers(rules[k].network.value, ip) else a.show(ip) in snaps[k]
    {
    }
  }

  /** `match`: a peer without an address is covered by nothing and asks nothing. */
  function Matched(a: Addressing, ttl: real, cache: Cache, rules: seq<ClientRule>, peer: Option<string>,
      readings: seq<Reading>): (found: Found)
    requires |readings| == |rules|
    ensures found.index.Some? ==> found.index.value < |rules| && peer.Some? && PeerIp(a, peer.value).Some?
  {
    if peer.None? || PeerIp(a, peer.value).None? then Found(None, cache)
    else Scan(a, ttl, cache, rules, PeerIp(a, peer.value).value, readings)
  }

  // ---------------------------------------------------------------- the registry as it is written

  class ClientRegistry {
    const rules: seq<ClientRule>
    const ttl: real
    const addressing: Addressing
    var cache: Cache

    constructor (rules: seq<ClientRule>, ttl: real, addressing: Addressing)
      ensures this.rules == rules && this.ttl == ttl && this.addressing == addressing && cache == map[]
    {
      this.rules, this.ttl, this.addressing, cache := rules, ttl, addressing, map[];
    }

    method ResolveCached(name: string, reading: Reading) returns (addresses: set<string>)
      modifies this
      ensures var q := Query(name, reading.now, reading.answer);
              addresses == Addresses(old(cache), q) && cache == Asked(ttl, old(cache), q)
    {
      if name in cache && cache[name].expires > reading.now {
        return cache[name].addresses;
      }
      addresses := reading.answer;
      cache := cache[name := Cached(reading.now + ttl, addresses)];
    }

    /** The rule that covers the peer, if any. */
    method Match(peer: Option<string>, readings: seq<Reading>) returns (r: Option<ClientRule>)
      requires |readings| == |rules|
      modifies this
      ensures var found := Matched(addressing, ttl, old(cache), rules, peer, readings);
              && cache == found.cache
              && r == if found.index.Some? then Some(rules[found.index.value]) else None
      ensures rules == [] || peer.None? || peer.value == "" || addressing.parse(peer.value).None? ==>
                r == None && cache == old(cache)
    {
      if rules == [] || peer.None? || peer.value == "" {
        return None;
      }
      var parsed := addressing.parse(peer.value);
      if parsed.None? {
        return None;
      }
      var ip := Normalise(parsed.value);
      ghost var whole := Scan(addressing, ttl, cache, rules, ip, readings);
      FirstMatchWins(addressing, ttl, cache, rules, ip, readings);
      assert rules[0..] == rules && readings[0..] == readings;
      for i := 0 to |rules|
        invariant var rest := Scan(addressing, ttl, cache, rules[i..], ip, readings[i..]);
                  && whole.cache == rest.cache
                  && (rest.index.Some? <==> whole.index.Some?)
                  && (rest.index.Some? ==> whole.index.value == rest.index.value + i)
      {
        var rule := rules[i];
        assert rules[i..][1..] == rules[i + 1..] && readings[i..][1..] == readings[i + 1..];
        if rule.network.Some? {
          if addressing.covers(rule.network.value, ip) {
            return Some(rule);
          }
        } else {
          var addresses := ResolveCached(rule.name, readings[i]);
          if addressing.show(ip) in addresses {
            return Some(rule);
          }
        }
      }
      return None;
    }
  }
}
