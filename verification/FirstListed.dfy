/** Which limit a configured name gets when RATE_LIMIT_CLIENTS lists it more than once. */
module FirstListed {
  import opened Basics
  import opened Clients

  /** `rule.max_per_min or default_max` */
  function Limit(rule: ClientRule, default: int): int {
    if rule.maxPerMin.Some? && rule.maxPerMin.value != 0 then rule.maxPerMin.value else default
  }

  /** A limit that is configured counts as it is, smaller or larger than the default. */
  lemma LimitIs(rule: ClientRule, default: int)
    ensures rule.maxPerMin.None? || rule.maxPerMin == Some(0) ==> Limit(rule, default) == default
    ensures rule.maxPerMin.Some? && rule.maxPerMin.value != 0 ==> Some(Limit(rule, default)) == rule.maxPerMin
  {
  }

  /** The first rule listed with the name of rule j. */
  function FirstNamed(rules: seq<ClientRule>, j: nat): (i: nat)
    requires j < |rules|
    ensures i <= j && rules[i].name == rules[j].name
    ensures forall k | 0 <= k < i :: rules[k].name != rules[j].name
  {
    EarliestOf(rules, rules[j].name, 0, j)
  }

  function EarliestOf(rules: seq<ClientRule>, name: string, from: nat, j: nat): (i: nat)
    requires from <= j < |rules| && rules[j].name == name
    requires forall k | 0 <= k < from :: rules[k].name != name
    ensures i <= j && rules[i].name == name && forall k | 0 <= k < i :: rules[k].name != name
    decreases j - from
  {
    if rules[from].name == name then from else EarliestOf(rules, name, from + 1, j)
  }

  /** What `ip_network(name)` returns depends on the name alone. */
  ghost predicate NetworkByName(rules: seq<ClientRule>) {
    forall i, j | 0 <= i < |rules| && 0 <= j < |rules| && rules[i].name == rules[j].name ::
      rules[i].network == rules[j].network
  }

  /** No address range listed before rule j covers the address. */
  ghost predicate Escapes(a: Addressing, rules: seq<ClientRule>, j: nat, ip: Ip)
    requires j <= |rules|
  {
    forall k | 0 <= k < j && rules[k].network.Some? :: !a.covers(rules[k].network.value, ip)
  }

  ghost predicate PeerEscapes(a: Addressing, rules: seq<ClientRule>, j: nat, peer: string)
    requires j <= |rules|
  {
    PeerIp(a, peer).Some? && Escapes(a, rules, j, PeerIp(a, peer).value)
  }

  ghost predicate ReadingsTick(readings: seq<Reading>) {
    forall i, j :: 0 <= i <= j < |readings| ==> readings[i].now <= readings[j].now
  }

  /** Some match returns rule j: a match of this peer, at these readings, after these earlier queries. */
  ghost predicate Returns(a: Addressing, ttl: real, rules: seq<ClientRule>, j: nat, qs: seq<Query>, peer: string,
      readings: seq<Reading>) {
    && |readings| == |rules| && Ticking(qs) && ReadingsTick(readings)
    && (qs != [] && readings != [] ==> qs[|qs| - 1].now <= readings[0].now)
    && Matched(a, ttl, CacheAfter(ttl, qs), rules, Some(peer), readings).index == Some(j)
  }

  ghost predicate Returnable(a: Addressing, ttl: real, rules: seq<ClientRule>, j: nat) {
    exists qs, peer, readings :: Returns(a, ttl, rules, j, qs, peer, readings)
  }

  /** Among the rules of one name, those that a peer can get past the address ranges to agree on the
      limit with the first one listed. An operator can check this in the setting. */
  ghost predicate DuplicatesAgree(a: Addressing, rules: seq<ClientRule>, default: int) {
    forall j, peer | 0 <= j < |rules| && rules[j].network.None? && PeerEscapes(a, rules, j, peer) ::
      Limit(rules[j], default) == Limit(rules[FirstNamed(rules, j)], default)
  }

  /** The same, but a duplicate may be stricter than the first entry. */
  ghost predicate DuplicatesAllowNoMore(a: Addressing, rules: seq<ClientRule>, default: int) {
    forall j, peer | 0 <= j < |rules| && rules[j].network.None? && PeerEscapes(a, rules, j, peer) ::
      Limit(rules[j], default) <= Limit(rules[FirstNamed(rules, j)], default)
  }

  // ---------------------------------------------------------------- when a duplicate is reached

  /** A rule for an address range is only ever returned if it is the first of its name. */
  lemma RangesAreFirst(a: Addressing, ttl: real, cache: Cache, rules: seq<ClientRule>, ip: Ip, readings: seq<Reading>)
    requires |readings| == |rules| && NetworkByName(rules)
    ensures var found := Scan(a, ttl, cache, rules, ip, readings).index;
            found.Some? ==>
              && found.value < |rules| && Escapes(a, rules, found.value, ip)
              && (rules[found.value].network.Some? ==> FirstNamed(rules, found.value) == found.value)
  {
    FirstMatchWins(a, ttl, cache, rules, ip, readings);
    var found := Scan(a, ttl, cache, rules, ip, readings).index;
    if found.Some? {
      var i, snaps := FirstNamed(rules, found.value), Snapshots(ttl, cache, rules, readings);
      assert i < found.value ==> !RuleCovers(a, rules[i], ip, snaps[i]);
      forall k | 0 <= k < found.value && rules[k].network.Some?
        ensures !a.covers(rules[k].network.value, ip)
      {
        assert !RuleCovers(a, rules[k], ip, snaps[k]);
      }
    }
  }

  /** The clock readings 0, ttl, 2 ttl, ...: every cached answer is out of date when it is asked for. DNS
      answers nothing until rule j is reached, and then with the peer itself. */
  function Slow(a: Addressing, ttl: real, n: nat, step: nat, j: int, ip: Ip): (readings: seq<Reading>)
    ensures |readings| == n
    decreases n
  {
    if n == 0 then []
    else [Reading(step as real * ttl, if j == 0 then {a.show(ip)} else {})] + Slow(a, ttl, n - 1, step + 1, j - 1, ip)
  }

  lemma Later(ttl: real, i: nat, j: nat)
    requires ttl >= 0.0 && i <= j
    ensures i as real * ttl <= j as real * ttl
  {
  }

  lemma {:induction false} SlowTicks(a: Addressing, ttl: real, n: nat, step: nat, j: int, ip: Ip)
    requires ttl >= 0.0
    ensures forall i | 0 <= i < n :: Slow(a, ttl, n, step, j, ip)[i].now == (step + i) as real * ttl
    decreases n
  {
    if n > 0 {
      SlowTicks(a, ttl, n - 1, step + 1, j - 1, ip);
      var rest := Slow(a, ttl, n - 1, step + 1, j - 1, ip);
      forall i | 0 <= i < n ensures Slow(a, ttl, n, step, j, ip)[i].now == (step + i) as real * ttl {
        if i > 0 { assert Slow(a, ttl, n, step, j, ip)[i] == rest[i - 1]; }
      }
    }
  }

  /** What is cached names the address under this name only. */
  ghost predicate OnlyUnder(cache: Cache, name: string) {
    forall n | n in cache && n != name :: cache[n].addresses == {}
  }

  ghost predicate FoundUnder(cache: Cache, name: string, text: string) {
    OnlyUnder(cache, name) && name in cache && cache[name].addresses == {text}
  }

  lemma {:induction false} SlowReaches(a: Addressing, ttl: real, cache: Cache, rules: seq<ClientRule>, step: nat,
      j: nat, ip: Ip)
    requires ttl >= 0.0 && j < |rules| && rules[j].network.None? && Escapes(a, rules, j, ip)
    requires forall name | name in cache :: cache[name].expires <= step as real * ttl
    requires OnlyUnder(cache, rules[j].name)
    ensures var found := Scan(a, ttl, cache, rules, ip, Slow(a, ttl, |rules|, step, j, ip));
            found.index == Some(j) && FoundUnder(found.cache, rules[j].name, a.show(ip))
    decreases |rules|
  {
    if j > 0 {
      var readings := Slow(a, ttl, |rules|, step, j, ip);
      var q := QueryFor(rules[0], readings[0]);
      var cache' := if rules[0].network.Some? then cache else Asked(ttl, cache, q);
      Later(ttl, step, step + 1);
      assert step as real * ttl + ttl == (step + 1) as real * ttl;
      assert readings[1..] == Slow(a, ttl, |rules| - 1, step + 1, j - 1, ip);
      assert forall k | 0 <= k < j - 1 :: rules[1..][k] == rules[k + 1];
      SlowReaches(a, ttl, cache', rules[1..], step + 1, j - 1, ip);
    }
  }

  lemma SlowReturns(a: Addressing, ttl: real, rules: seq<ClientRule>, j: nat, peer: string)
    returns (readings: seq<Reading>)
    requires ttl >= 0.0 && j < |rules| && rules[j].network.None? && PeerEscapes(a, rules, j, peer)
    ensures Returns(a, ttl, rules, j, [], peer, readings)
    ensures FoundUnder(Matched(a, ttl, map[], rules, Some(peer), readings).cache, rules[j].name,
                       a.show(PeerIp(a, peer).value))
  {
    var ip := PeerIp(a, peer).value;
    readings := Slow(a, ttl, |rules|, 0, j, ip);
    SlowTicks(a, ttl, |rules|, 0, j, ip);
    forall m, n | 0 <= m <= n < |readings| ensures readings[m].now <= readings[n].now {
      Later(ttl, m, n);
    }
    SlowReaches(a, ttl, CacheAfter(ttl, []), rules, 0, j, ip);
  }

  /** An entry for a host name is returned by some match if and only if some peer escapes the address
      ranges listed before it; an earlier entry of the same name does not prevent it. */
  lemma ReachableNames(a: Addressing, ttl: real, rules: seq<ClientRule>, j: nat)
    requires ttl >= 0.0 && NetworkByName(rules) && j < |rules| && rules[j].network.None?
    ensures Returnable(a, ttl, rules, j) <==> exists peer :: PeerEscapes(a, rules, j, peer)
  {
    if Returnable(a, ttl, rules, j) {
      var qs, peer, readings :| Returns(a, ttl, rules, j, qs, peer, readings);
      RangesAreFirst(a, ttl, CacheAfter(ttl, qs), rules, PeerIp(a, peer).value, readings);
      assert PeerEscapes(a, rules, j, peer);
    }
    if peer :| PeerEscapes(a, rules, j, peer) {
      var readings := SlowReturns(a, ttl, rules, j, peer);
    }
  }

  // ---------------------------------------------------------------- a match that is over before answers expire

  /** An answer that outlasts the match is the one every rule of that name is compared with. */
  lemma {:induction false} AnswerLasts(ttl: real, cache: Cache, rules: seq<ClientRule>, readings: seq<Reading>,
      name: string, m: nat)
    requires |readings| == |rules| && m < |rules| && rules[m].name == name && rules[m].network.None?
    requires name in cache && forall r | r in readings[..m + 1] :: r.now < cache[name].expires
    ensures Snapshots(ttl, cache, rules, readings)[m] == cache[name].addresses
    decreases |rules|
  {
    var q := QueryFor(rules[0], readings[0]);
    var cache' := if rules[0].network.Some? then cache else Asked(ttl, cache, q);
    assert readings[0] in readings[..m + 1];
    assert cache'[name] == cache[name];
    if m > 0 {
      assert readings[1..][..m] == readings[..m + 1][1..];
      assert forall r | r in readings[1..][..m] :: r in readings[..m + 1];
      AnswerLasts(ttl, cache', rules[1..], readings[1..], name, m - 1);
    }
  }

  /** Two rules of one name see the same snapshot unless a time to live passes between them. */
  lemma {:induction false} SameSnapshot(ttl: real, cache: Cache, rules: seq<ClientRule>, readings: seq<Reading>,
      i: nat, m: nat)
    requires ttl > 0.0 && |readings| == |rules| && i < m < |rules| && rules[i].name == rules[m].name
    requires rules[i].network.None? && rules[m].network.None? && ReadingsTick(readings)
    requires readings[m].now == readings[0].now
    ensures Snapshots(ttl, cache, rules, readings)[i] == Snapshots(ttl, cache, rules, readings)[m]
    decreases |rules|
  {
    var q := QueryFor(rules[0], readings[0]);
    var cache' := if rules[0].network.Some? then cache else Asked(ttl, cache, q);
    var rest := Snapshots(ttl, cache', rules[1..], readings[1..]);
    assert readings[0].now <= readings[1].now <= readings[m].now;
    if i > 0 {
      SameSnapshot(ttl, cache', rules[1..], readings[1..], i - 1, m - 1);
    } else {
      forall r | r in readings[1..][..m] ensures r.now < cache'[rules[0].name].expires {
        var k :| 0 <= k < m && r == readings[1..][k];
        assert r == readings[k + 1];
      }
      AnswerLasts(ttl, cache', rules[1..], readings[1..], rules[0].name, m - 1);
    }
  }

  ghost predicate Quick(readings: seq<Reading>) {
    forall i, j :: 0 <= i <= j < |readings| ==> readings[i].now == readings[j].now
  }

  /** If the clock shows one time during the match, the rule returned is the first of its name, so the limit
      is the first listed one whatever the duplicates say. */
  lemma QuickMatchIsFirst(a: Addressing, ttl: real, cache: Cache, rules: seq<ClientRule>, ip: Ip,
      readings: seq<Reading>)
    requires ttl > 0.0 && |readings| == |rules| && NetworkByName(rules)
    requires Quick(readings)
    ensures var found := Scan(a, ttl, cache, rules, ip, readings).index;
            found.Some? ==> found.value < |rules| && FirstNamed(rules, found.value) == found.value
  {
    RangesAreFirst(a, ttl, cache, rules, ip, readings);
    FirstMatchWins(a, ttl, cache, rules, ip, readings);
    var found := Scan(a, ttl, cache, rules, ip, readings).index;
    if found.Some? {
      var i, snaps := FirstNamed(rules, found.value), Snapshots(ttl, cache, rules, readings);
      if i < found.value {
        assert !RuleCovers(a, rules[i], ip, snaps[i]);
        SameSnapshot(ttl, cache, rules, readings, i, found.value);
      }
    }
  }
}
