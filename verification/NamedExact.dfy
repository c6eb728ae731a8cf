/** Exactly when a named bucket keeps to the limit of the first rule listed with its name. */
module NamedExact {
  import opened Basics
  import opened Clients
  import opened FirstListed
  import opened SlidingLaws
  import opened SlidingCap
  import opened NamedLimiter

  /** The clock stands at one time, and DNS knows the address under this name only. */
  function Still(a: Addressing, rules: seq<ClientRule>, name: string, now: real, ip: Ip): (readings: seq<Reading>)
    ensures |readings| == |rules| && forall r | r in readings :: r.now == now
    decreases |rules|
  {
    if rules == [] then []
    else [Reading(now, if rules[0].name == name then {a.show(ip)} else {})] + Still(a, rules[1..], name, now, ip)
  }

  /** A peer that was found under a name is found under it again. */
  lemma {:induction false} FoundAgain(a: Addressing, ttl: real, cache: Cache, rules: seq<ClientRule>, j: nat,
      now: real, ip: Ip)
    requires j < |rules| && Escapes(a, rules, j, ip)
    requires forall k | 0 <= k < |rules| && rules[k].name == rules[j].name :: rules[k].network.None?
    requires OnlyUnder(cache, rules[j].name)
    requires rules[j].name in cache ==> cache[rules[j].name].addresses == {a.show(ip)}
    ensures var found := Scan(a, ttl, cache, rules, ip, Still(a, rules, rules[j].name, now, ip));
            && found.index.Some? && rules[found.index.value].name == rules[j].name
            && FoundUnder(found.cache, rules[j].name, a.show(ip))
    decreases |rules|
  {
    var name := rules[j].name;
    var readings := Still(a, rules, name, now, ip);
    if rules[0].name != name {
      var q := QueryFor(rules[0], readings[0]);
      var cache' := if rules[0].network.Some? then cache else Clients.Asked(ttl, cache, q);
      assert readings[1..] == Still(a, rules[1..], name, now, ip);
      assert forall k | 0 <= k < |rules| - 1 :: rules[1..][k] == rules[k + 1];
      FoundAgain(a, ttl, cache', rules[1..], j - 1, now, ip);
    }
  }

  /** The slow call, and n more calls of the same peer at the same instant. */
  function Insisting(s: Setup, c: Call, name: string, ip: Ip, n: nat): (calls: seq<Call>)
    ensures |calls| == n + 1
  {
    if n == 0 then [c]
    else Insisting(s, c, name, ip, n - 1) + [Call(c.peer, Still(s.addressing, s.rules, name, c.now, ip), c.now)]
  }

  lemma {:induction false} InsistingFits(s: Setup, c: Call, name: string, ip: Ip, n: nat)
    requires Fits(s, [c]) && Sequential([c])
    ensures Fits(s, Insisting(s, c, name, ip, n)) && Sequential(Insisting(s, c, name, ip, n))
    ensures forall call | call in Insisting(s, c, name, ip, n) :: call.now == c.now
  {
    if n == 0 {
      assert c in [c];
    } else {
      InsistingFits(s, c, name, ip, n - 1);
      var front := Insisting(s, c, name, ip, n - 1);
      var last := Call(c.peer, Still(s.addressing, s.rules, name, c.now, ip), c.now);
      assert Insisting(s, c, name, ip, n) == front + [last];
      assert forall i | 0 <= i < |front| :: front[i] in front;
      assert forall i | 0 <= i < |last.readings| :: last.readings[i] in last.readings;
    }
  }

  ghost predicate Insisted(s: Setup, d: Desk, j: nat, now: real, ip: Ip, n: nat)
    requires j < |s.rules|
  {
    var name := s.rules[j].name;
    && d.built == map[name := Limit(s.rules[j], s.default)] && d.seen == map[name := Again(name, now, n + 1)]
    && FoundUnder(d.cache, name, s.addressing.show(ip))
  }

  lemma InsistOnce(s: Setup, d: Desk, j: nat, peer: string, now: real, ip: Ip, n: nat)
    requires NetworkByName(s.rules) && j < |s.rules| && s.rules[j].network.None?
    requires PeerIp(s.addressing, peer) == Some(ip) && Escapes(s.addressing, s.rules, j, ip)
    requires Insisted(s, d, j, now, ip, n)
    ensures var c := Call(Some(peer), Still(s.addressing, s.rules, s.rules[j].name, now, ip), now);
            Insisted(s, Handled(s, d, c), j, now, ip, n + 1)
  {
    hide Scan, Still;
    FoundAgain(s.addressing, s.ttl, d.cache, s.rules, j, now, ip);
    var name := s.rules[j].name;
    assert Again(name, now, n + 1) + [Request(name, now)] == Again(name, now, n + 2);
  }

  lemma {:induction false} InsistingBuilds(s: Setup, c: Call, j: nat, peer: string, ip: Ip, n: nat)
    requires Fits(s, [c]) && Sequential([c]) && c.peer == Some(peer)
    requires NetworkByName(s.rules) && j < |s.rules| && s.rules[j].network.None?
    requires PeerIp(s.addressing, peer) == Some(ip) && Escapes(s.addressing, s.rules, j, ip)
    requires Insisted(s, DeskAfter(s, [c]), j, c.now, ip, 0)
    ensures var calls := Insisting(s, c, s.rules[j].name, ip, n);
            Fits(s, calls) && Insisted(s, DeskAfter(s, calls), j, c.now, ip, n)
  {
    InsistingFits(s, c, s.rules[j].name, ip, n);
    if n > 0 {
      InsistingBuilds(s, c, j, peer, ip, n - 1);
      var front := Insisting(s, c, s.rules[j].name, ip, n - 1);
      var last := Call(c.peer, Still(s.addressing, s.rules, s.rules[j].name, c.now, ip), c.now);
      assert Insisting(s, c, s.rules[j].name, ip, n) == front + [last];
      hide Insisting, DeskAfter, Handled, Insisted, Sequential;
      DeskAfterOneMore(s, front, last);
      InsistOnce(s, DeskAfter(s, front), j, peer, c.now, ip, n - 1);
    }
  }

  lemma DeskAfterOneMore(s: Setup, front: seq<Call>, last: Call)
    requires Fits(s, front + [last]) && Fits(s, front) && |last.readings| == |s.rules|
    ensures DeskAfter(s, front + [last]) == Handled(s, DeskAfter(s, front), last)
  {
    assert (front + [last])[..|front|] == front;
  }

  lemma Spends(s: Setup, calls: seq<Call>, j: nat, now: real, ip: Ip, n: nat)
    requires SetupOk(s) && Fits(s, calls) && j < |s.rules| && n + 1 <= Limit(s.rules[j], s.default)
    requires Insisted(s, DeskAfter(s, calls), j, now, ip, n)
    ensures CountWithin(Admissions(s, calls, s.rules[j].name), now, WINDOW) == n + 1
  {
    hide Admissions, DeskAfter, CountWithin, After, Admitted;
    var name := s.rules[j].name;
    OneLimiterPerName(s, calls, name);
    BurstIsAdmitted(Settings(Limit(s.rules[j], s.default)), name, now, n + 1);
    CountAll(Times(now, n + 1), now, WINDOW);
  }

  /** A run in which a duplicate that allows more is matched first: the service gets more than its first
      entry allows, all in one instant. */
  lemma DuplicateOverruns(s: Setup, j: nat, peer: string) returns (calls: seq<Call>, from: real)
    requires SetupOk(s) && s.ttl >= 0.0 && NetworkByName(s.rules)
    requires j < |s.rules| && s.rules[j].network.None? && PeerEscapes(s.addressing, s.rules, j, peer)
    requires Limit(s.rules[j], s.default) > Limit(s.rules[FirstNamed(s.rules, j)], s.default)
    ensures Sequential(calls) && Fits(s, calls)
    ensures CountWithin(Admissions(s, calls, s.rules[j].name), from, WINDOW)
            == Limit(s.rules[FirstNamed(s.rules, j)], s.default) + 1
  {
    var name, ip := s.rules[j].name, PeerIp(s.addressing, peer).value;
    assert s.rules[FirstNamed(s.rules, j)] in s.rules;
    var n := Limit(s.rules[FirstNamed(s.rules, j)], s.default);
    var c := SlowCall(s, j, peer);
    assert [Request(name, c.now)] == Again(name, c.now, 1);
    calls, from := Insisting(s, c, name, ip, n), c.now;
    hide Admissions, DeskAfter, Sequential, CountWithin;
    InsistingFits(s, c, name, ip, n);
    InsistingBuilds(s, c, j, peer, ip, n);
    Spends(s, calls, j, c.now, ip, n);
  }

  lemma SequentialIsInOrder(calls: seq<Call>)
    requires Sequential(calls)
    ensures InOrder(calls)
  {
  }

  /** Exactly when named buckets keep to the first entries: in every run of one request after the other,
      every window holds at most as many admissions through a name as the first rule listed with it allows,
      if and only if no duplicate that a peer can get to allows more. */
  lemma FirstEntryBounds(s: Setup)
    requires SetupOk(s) && s.ttl >= 0.0 && NetworkByName(s.rules)
    ensures (forall calls, j: nat, from | Sequential(calls) && Fits(s, calls) && j < |s.rules|
            && FirstNamed(s.rules, j) == j ::
               CountWithin(Admissions(s, calls, s.rules[j].name), from, WINDOW) <= Limit(s.rules[j], s.default))
            <==> DuplicatesAllowNoMore(s.addressing, s.rules, s.default)
  {
    hide Sequential, InOrder, Admissions, CountWithin, Limit;
    if DuplicatesAllowNoMore(s.addressing, s.rules, s.default) {
      forall calls, j: nat, from | Sequential(calls) && Fits(s, calls) && j < |s.rules| && FirstNamed(s.rules, j) == j
        ensures CountWithin(Admissions(s, calls, s.rules[j].name), from, WINDOW) <= Limit(s.rules[j], s.default)
      {
        SequentialIsInOrder(calls);
        NamedBound(s, calls, j, from);
      }
    } else {
      var j: nat, peer :| j < |s.rules| && s.rules[j].network.None? && PeerEscapes(s.addressing, s.rules, j, peer)
                     && Limit(s.rules[j], s.default) > Limit(s.rules[FirstNamed(s.rules, j)], s.default);
      var i := FirstNamed(s.rules, j);
      var calls, from := DuplicateOverruns(s, j, peer);
      SameFirst(s.rules, i, j);
      assert CountWithin(Admissions(s, calls, s.rules[i].name), from, WINDOW) > Limit(s.rules[i], s.default);
    }
  }
}
