/** Named buckets whose counters are shared in Redis by every process (deps.py builds them when REDIS_URL is
    set): each process builds its own limiter for a name, and all of them count on the name's key. */
module NamedShared {
  import opened FirstListed
  import opened NamedLimiter
  import F = FixedWindow

  /** A command of some process, and the limit its limiter for the key was built with. */
  datatype Use = Use(event: F.Event, max: int)

  function Events(uses: seq<Use>): (events: seq<F.Event>)
    ensures |events| == |uses|
  {
    if uses == [] then [] else Events(uses[..|uses| - 1]) + [uses[|uses| - 1].event]
  }

  /** The requests of a key in one aligned window that their own process let through. */
  function LetIn(l: F.Limit, uses: seq<Use>, key: string, index: int): nat
    requires l.window > 0.0
  {
    if uses == [] then 0
    else
      var front, last := uses[..|uses| - 1], uses[|uses| - 1];
      LetIn(l, front, key, index)
      + if F.Hits(l, last.event, key, index) && F.CountAfter(l, F.Run(l, Events(front)), last.event) <= last.max
        then 1 else 0
  }

  /** The same in the interval as long as the window that starts at `from`. */
  function LetInBetween(l: F.Limit, uses: seq<Use>, key: string, from: real): nat
    requires l.window > 0.0
  {
    if uses == [] then 0
    else
      var front, last := uses[..|uses| - 1], uses[|uses| - 1];
      LetInBetween(l, front, key, from)
      + if last.event.Incr? && last.event.key == key && from <= last.event.now < from + l.window
           && F.CountAfter(l, F.Run(l, Events(front)), last.event) <= last.max then 1 else 0
  }

  ghost predicate AtMost(uses: seq<Use>, key: string, max: int) {
    forall u | u in uses && u.event.Incr? && u.event.key == key :: u.max <= max
  }

  /** Stricter processes never let more through than the most generous one would. */
  lemma {:induction false} StricterLetsLess(l: F.Limit, uses: seq<Use>, key: string, index: int, from: real)
    requires l.window > 0.0 && AtMost(uses, key, l.max)
    ensures LetIn(l, uses, key, index) <= F.Admissions(l, Events(uses), key, index)
    ensures LetInBetween(l, uses, key, from) <= F.AdmissionsBetween(l, Events(uses), key, from)
  {
    if uses != [] {
      var front, last := uses[..|uses| - 1], uses[|uses| - 1];
      assert last in uses && forall u | u in front :: u in uses;
      StricterLetsLess(l, front, key, index, from);
      var events := Events(uses);
      assert events[..|events| - 1] == Events(front) && events[|events| - 1] == last.event;
    }
  }

  /** Some process built its limiter for the name with this limit: its own requests got there first. */
  ghost predicate BuiltSomewhere(s: Setup, name: string, max: int) {
    exists calls :: Fits(s, calls) && FirstBounds(s, calls)
                    && name in DeskAfter(s, calls).built && DeskAfter(s, calls).built[name] == max
  }

  lemma BuiltWithin(s: Setup, j: nat, max: int)
    requires SetupOk(s) && NetworkByName(s.rules) && j < |s.rules| && FirstNamed(s.rules, j) == j
    requires BuiltSomewhere(s, s.rules[j].name, max)
    ensures max <= Limit(s.rules[j], s.default)
  {
    var name := s.rules[j].name;
    var calls :| Fits(s, calls) && FirstBounds(s, calls)
                 && name in DeskAfter(s, calls).built && DeskAfter(s, calls).built[name] == max;
    var i := BuiltBy(s, calls, name);
    SameFirst(s.rules, i, j);
  }

  /** Named buckets over all processes together: however each of them came to its limiter, the service gets at
      most what the first rule listed with its name allows in an aligned minute, and at most twice that in
      any minute. */
  lemma {:induction false} SharedNameBound(s: Setup, uses: seq<Use>, j: nat, index: int, from: real)
    requires SetupOk(s) && NetworkByName(s.rules) && j < |s.rules| && FirstNamed(s.rules, j) == j
    requires forall u | u in uses && u.event.Incr? && u.event.key == s.rules[j].name ::
               BuiltSomewhere(s, s.rules[j].name, u.max)
    requires var l := F.Limit(Limit(s.rules[j], s.default), WINDOW); F.OneClock(l, F.Ttl(l), Events(uses))
    ensures var max := Limit(s.rules[j], s.default);
            && LetIn(F.Limit(max, WINDOW), uses, s.rules[j].name, index) <= max
            && LetInBetween(F.Limit(max, WINDOW), uses, s.rules[j].name, from) <= 2 * max
    ensures var l, n := F.Limit(Limit(s.rules[j], s.default), 60.0), s.rules[j].maxPerMin;
            && (n.Some? ==> LetIn(l, uses, s.rules[j].name, index) <= n.value)
            && (n.None? ==> LetIn(l, uses, s.rules[j].name, index) <= s.default)
  {
    var max, name := Limit(s.rules[j], s.default), s.rules[j].name;
    var l := F.Limit(max, WINDOW);
    assert s.rules[j] in s.rules;
    forall u | u in uses && u.event.Incr? && u.event.key == name ensures u.max <= max {
      BuiltWithin(s, j, u.max);
    }
    StricterLetsLess(l, uses, name, index, from);
    F.AlignedWindowBound(l, Events(uses), name, index);
    F.AnyIntervalBound(l, Events(uses), name, from);
  }
}
