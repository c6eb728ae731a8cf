/** How many active callers the sliding-window limiter can bound: as many as it has buckets, and no more. */
module SlidingCap {
  import opened SlidingWindow
  import opened SlidingLaws
  import opened SlidingEviction

  // ---------------------------------------------------------------- one caller at one instant

  function Times(now: real, n: nat): (times: seq<real>)
    ensures |times| == n && forall t | t in times :: t == now
  {
    seq(n, _ => now)
  }

  function Again(key: string, now: real, n: nat): (reqs: seq<Request>)
    ensures |reqs| == n && forall r | r in reqs :: r == Request(key, now)
  {
    seq(n, _ => Request(key, now))
  }

  lemma AllRecent(now: real, n: nat, at: real, window: real)
    requires at - now < window
    ensures Recent(Times(now, n), at, window) == Times(now, n)
  {
    RecentAreRecent(Times(now, n), at, window);
    assert forall i | 0 <= i < n :: Times(now, n)[i] in Times(now, n);
  }

  function Busy(key: string, now: real, n: nat): Store {
    if n == 0 then Store(map[], []) else Store(map[key := Times(now, n)], [key])
  }

  lemma BusyMore(c: Config, key: string, now: real, n: nat)
    requires ConfigOk(c) && c.maxKeys >= 1 && n < c.max
    ensures StoreOk(Busy(key, now, n))
    ensures Checked(c, Busy(key, now, n), key, now).allowed
    ensures Checked(c, Busy(key, now, n), key, now).store == Busy(key, now, n + 1)
    ensures Times(now, n) + [now] == Times(now, n + 1)
  {
    hide Checked, Evicted, Recent;
    var st := Busy(key, now, n);
    assert Bucket(st.hits, key) == Times(now, n);
    AllRecent(now, n, now, c.window);
    AdmitIs(c, st, key, now, Times(now, n));
    assert Times(now, n) + [now] == Times(now, n + 1);
    assert Put(st, key, Times(now, n + 1)) == Busy(key, now, n + 1);
  }

  /** The first max requests of a caller at one instant are let through. */
  lemma {:induction false} BurstIsAdmitted(c: Config, key: string, now: real, n: nat)
    requires ConfigOk(c) && c.maxKeys >= 1 && n <= c.max
    ensures After(c, Again(key, now, n)) == Busy(key, now, n)
    ensures Admitted(c, Again(key, now, n), key) == Times(now, n)
  {
    if n == 0 {
      assert Again(key, now, 0) == [] && Times(now, 0) == [];
    } else {
      hide After, Admitted, Checked, Busy;
      BurstIsAdmitted(c, key, now, n - 1);
      assert Again(key, now, n) == Again(key, now, n - 1) + [Request(key, now)];
      AfterAppend(c, Again(key, now, n - 1), Request(key, now), key);
      BusyMore(c, key, now, n - 1);
    }
  }

  lemma {:induction false} CountAll(hits: seq<real>, from: real, window: real)
    requires forall t | t in hits :: from <= t < from + window
    ensures CountWithin(hits, from, window) == |hits|
  {
    if hits != [] {
      assert hits[|hits| - 1] in hits;
      var front := hits[..|hits| - 1];
      forall t | t in front ensures from <= t < from + window {
        assert t in hits;
      }
      CountAll(front, from, window);
    }
  }

  // ---------------------------------------------------------------- a flood of callers

  const FIRST := "a"

  function Name(i: nat): (name: string)
    ensures |name| == i + 1 && name[0] == 'b'
  {
    seq(i + 1, _ => 'b')
  }

  function Half(c: Config): real {
    c.window / 2.0
  }

  /** One caller uses up its limit; half a window later i others come. */
  function Flood(c: Config, i: nat): seq<Request>
    requires ConfigOk(c)
  {
    if i == 0 then Again(FIRST, 0.0, c.max) else Flood(c, i - 1) + [Request(Name(i - 1), Half(c))]
  }

  function Callers(i: nat): set<string> {
    if i == 0 then {FIRST} else Callers(i - 1) + {Name(i - 1)}
  }

  lemma {:induction false} FloodHolds(c: Config, i: nat)
    requires ConfigOk(c)
    ensures Monotone(Flood(c, i)) && Flood(c, i) != []
    ensures forall r | r in Flood(c, i) :: r.key in Callers(i) && 0.0 <= r.now <= Half(c)
    ensures |Callers(i)| <= i + 1
  {
    var reqs := Flood(c, i);
    if i == 0 {
      assert forall k | 0 <= k < |reqs| :: reqs[k] in reqs;
    } else {
      var front := Flood(c, i - 1);
      FloodHolds(c, i - 1);
      assert reqs == front + [Request(Name(i - 1), Half(c))];
      hide Flood;
      assert forall k | 0 <= k < |front| :: front[k] in front;
    }
  }

  lemma {:induction false} NamesAreNew(i: nat, j: nat)
    requires i <= j
    ensures Name(j) !in Callers(i)
  {
    if i > 0 {
      NamesAreNew(i - 1, j);
    }
  }

  /** While there is room: the first caller is full and every other one came once. */
  ghost predicate Filling(c: Config, st: Store, i: nat) {
    && StoreOk(st) && |st.order| == i + 1
    && st.hits.Keys == Callers(i)
    && c.max >= 0 && FIRST in st.hits && st.hits[FIRST] == Times(0.0, c.max)
    && forall k | k in st.hits && k != FIRST :: st.hits[k] == [Half(c)]
  }

  lemma PutNext(c: Config, st: Store, i: nat)
    requires ConfigOk(c) && Filling(c, st, i)
    ensures Name(i) !in st.hits && Recent(Bucket(st.hits, Name(i)), Half(c), c.window) == []
    ensures Filling(c, Put(st, Name(i), [Half(c)]), i + 1)
  {
    NamesAreNew(i, i);
    PutOk(st, Name(i), [Half(c)]);
    assert Name(i) != FIRST;
  }

  lemma FloodStarts(c: Config)
    requires ConfigOk(c) && c.maxKeys >= 1
    ensures Filling(c, After(c, Flood(c, 0)), 0)
    ensures Admitted(c, Flood(c, 0), FIRST) == Times(0.0, c.max)
  {
    hide After, Admitted;
    BurstIsAdmitted(c, FIRST, 0.0, c.max);
    assert Flood(c, 0) == Again(FIRST, 0.0, c.max);
    var st := Busy(FIRST, 0.0, c.max);
    assert st == Store(map[FIRST := Times(0.0, c.max)], [FIRST]);
    assert st.hits[FIRST] == Times(0.0, c.max) && st.hits.Keys == Callers(0);
  }

  /** The next caller finds room. */
  lemma FloodGoesOn(c: Config, i: nat)
    requires ConfigOk(c) && i + 1 < c.maxKeys && Filling(c, After(c, Flood(c, i)), i)
    ensures Filling(c, After(c, Flood(c, i + 1)), i + 1)
    ensures Admitted(c, Flood(c, i + 1), FIRST) == Admitted(c, Flood(c, i), FIRST)
  {
    assert Flood(c, i + 1) == Flood(c, i) + [Request(Name(i), Half(c))];
    hide After, Admitted, Evicted, Flood, Recent, Checked, Callers, Filling;
    var st, key := After(c, Flood(c, i)), Name(i);
    AfterAppend(c, Flood(c, i), Request(key, Half(c)), FIRST);
    PutNext(c, st, i);
    FillingIs(c, st, i);
    FillingIs(c, Put(st, key, [Half(c)]), i + 1);
    AdmitIs(c, st, key, Half(c), []);
    assert [] + [Half(c)] == [Half(c)];
  }

  lemma {:induction false} FloodFills(c: Config, i: nat)
    requires ConfigOk(c) && i < c.maxKeys
    ensures Filling(c, After(c, Flood(c, i)), i)
    ensures Admitted(c, Flood(c, i), FIRST) == Times(0.0, c.max)
  {
    hide After, Admitted, Flood, Filling;
    if i == 0 {
      FloodStarts(c);
    } else {
      FloodFills(c, i - 1);
      FloodGoesOn(c, i - 1);
    }
  }

  lemma {:induction false} NoneExpired(st: Store, order: seq<string>, now: real, window: real)
    requires forall k | k in order :: k in st.hits && !Expired(st, k, now, window)
    ensures ExpiredKeys(st, order, now, window) == []
  {
    if order != [] {
      assert order[0] in order && forall k | k in order[1..] :: k in order;
      NoneExpired(st, order[1..], now, window);
    }
  }

  /** With one bucket too many and all of them active, the head of the stable sort goes. */
  lemma HeadGoes(c: Config, put: Store, now: real)
    requires StoreOk(put) && |put.order| == c.maxKeys + 1 && c.maxKeys >= 0
    requires forall k | k in put.hits :: !Expired(put, k, now, c.window)
    ensures ByLastHit(put, put.order)[0] !in Evicted(c, put, now).hits
  {
    hide ExpiredKeys, ByLastHit, DeleteAll;
    NoneExpired(put, put.order, now, c.window);
    DeleteNone(put);
    var sorted := ByLastHit(put, put.order);
    ByLastHitDistinct(put, put.order);
    assert forall k | k in [sorted[0]] :: k in sorted;
    assert sorted[..1] == [sorted[0]];
    DeleteAllHolds(put, [sorted[0]]);
  }

  /** The one more caller pushes out the first, although it is inside its window. */
  lemma FirstGoes(c: Config, put: Store)
    requires ConfigOk(c) && c.maxKeys >= 1 && Filling(c, put, c.maxKeys)
    ensures FIRST !in Evicted(c, put, Half(c)).hits
  {
    hide Evicted, ByLastHit;
    assert forall k | k in put.hits :: !Expired(put, k, Half(c), c.window) by {
      forall k | k in put.hits ensures !Expired(put, k, Half(c), c.window) {
        if k == FIRST { assert put.hits[k][c.max - 1] in Times(0.0, c.max); }
      }
    }
    HeadGoes(c, put, Half(c));
    var p := HeadIsOldest(put, put.order);
    assert put.hits[FIRST][c.max - 1] in Times(0.0, c.max);
    assert FIRST in put.order && LastHit(put, FIRST) == 0.0;
    assert put.order[p] in put.hits;
  }

  lemma FloodOverflows(c: Config)
    requires ConfigOk(c) && c.maxKeys >= 1
    ensures FIRST !in After(c, Flood(c, c.maxKeys)).hits
    ensures Admitted(c, Flood(c, c.maxKeys), FIRST) == Times(0.0, c.max)
  {
    hide After, Admitted, Evicted, Recent, Checked, Callers, Filling;
    var i := c.maxKeys - 1;
    FloodFills(c, i);
    var st, key := After(c, Flood(c, i)), Name(i);
    AfterAppend(c, Flood(c, i), Request(key, Half(c)), FIRST);
    PutNext(c, st, i);
    FirstGoes(c, Put(st, key, [Half(c)]));
    assert [] + [Half(c)] == [Half(c)];
    FillingIs(c, st, i);
    FillingIs(c, Put(st, key, [Half(c)]), c.maxKeys);
    AdmitIs(c, st, key, Half(c), []);
    assert Flood(c, c.maxKeys) == Flood(c, i) + [Request(key, Half(c))];
  }

  lemma FillingIs(c: Config, st: Store, i: nat)
    requires Filling(c, st, i)
    ensures StoreOk(st) && |st.order| == i + 1
  {
  }

  function FloodAndReturn(c: Config): seq<Request>
    requires ConfigOk(c) && c.maxKeys >= 1
  {
    Flood(c, c.maxKeys) + [Request(FIRST, Half(c))]
  }

  lemma UnknownIsAdmitted(c: Config, st: Store, key: string, now: real)
    requires ConfigOk(c) && StoreOk(st) && key !in st.hits
    ensures Checked(c, st, key, now).allowed
  {
  }

  /** With one active caller more than buckets, the first caller gets one admission too many in a window. */
  lemma FloodBreaksTheBound(c: Config)
    requires ConfigOk(c) && c.maxKeys >= 1
    ensures Monotone(FloodAndReturn(c)) && AtMostActive(c, c.maxKeys + 1, FloodAndReturn(c))
    ensures CountWithin(Admitted(c, FloodAndReturn(c), FIRST), 0.0, c.window) == c.max + 1
  {
    hide After, Admitted, Checked, AtMostActive;
    var flood := Flood(c, c.maxKeys);
    FloodOverflows(c);
    AfterAppend(c, flood, Request(FIRST, Half(c)), FIRST);
    UnknownIsAdmitted(c, After(c, flood), FIRST, Half(c));
    var times := Times(0.0, c.max) + [Half(c)];
    assert forall t | t in times :: t in Times(0.0, c.max) || t == Half(c);
    CountAll(times, 0.0, c.window);
    FloodReturns(c);
  }

  lemma FloodReturns(c: Config)
    requires ConfigOk(c) && c.maxKeys >= 1
    ensures Monotone(FloodAndReturn(c)) && AtMostActive(c, c.maxKeys + 1, FloodAndReturn(c))
  {
    hide AtMostActive, Flood, Callers;
    FloodHolds(c, c.maxKeys);
    var flood, all := Flood(c, c.maxKeys), FloodAndReturn(c);
    assert forall k | 0 <= k < |flood| :: all[k] == flood[k] && flood[k] in flood;
    FirstIsCaller(c.maxKeys);
    FewCallers(c, all, Callers(c.maxKeys));
    FewerIsFew(c, |Callers(c.maxKeys)|, c.maxKeys + 1, all);
  }

  lemma FirstIsCaller(i: nat)
    ensures FIRST in Callers(i)
  {
  }

  lemma SubsetSize(a: set<string>, b: set<string>)
    requires a <= b
    ensures |a| <= |b|
  {
    if a != {} {
      var k :| k in a;
      SubsetSize(a - {k}, b - {k});
    }
  }

  lemma {:induction false} HistoryKeys(c: Config, reqs: seq<Request>, keys: set<string>)
    requires ConfigOk(c) && forall r | r in reqs :: r.key in keys
    ensures History(c, reqs).Keys <= keys
  {
    if reqs != [] {
      assert reqs[|reqs| - 1] in reqs;
      assert forall r | r in reqs[..|reqs| - 1] :: r in reqs;
      HistoryKeys(c, reqs[..|reqs| - 1], keys);
    }
  }

  lemma FewCallers(c: Config, reqs: seq<Request>, keys: set<string>)
    requires ConfigOk(c) && forall r | r in reqs :: r.key in keys
    ensures AtMostActive(c, |keys|, reqs)
  {
    forall i | 0 < i <= |reqs| ensures |ActiveKeys(History(c, reqs[..i]), reqs[i - 1].now, c.window)| <= |keys| {
      assert forall r | r in reqs[..i] :: r in reqs;
      HistoryKeys(c, reqs[..i], keys);
      SubsetSize(ActiveKeys(History(c, reqs[..i]), reqs[i - 1].now, c.window), keys);
    }
  }

  lemma FewerIsFew(c: Config, n: int, m: int, reqs: seq<Request>)
    requires ConfigOk(c) && n <= m && AtMostActive(c, n, reqs)
    ensures AtMostActive(c, m, reqs)
  {
  }

  /** How many active callers can be bounded: in every run with non-decreasing times and at most n active
      callers every window holds at most max admissions of each, if and only if there are n buckets. */
  lemma CapThreshold(c: Config, n: int)
    requires ConfigOk(c) && c.maxKeys >= 1
    ensures (forall reqs, key, from | Monotone(reqs) && AtMostActive(c, n, reqs) ::
               CountWithin(Admitted(c, reqs, key), from, c.window) <= c.max)
            <==> n <= c.maxKeys
  {
    hide AtMostActive, Admitted, Monotone, CountWithin;
    if n <= c.maxKeys {
      forall reqs, key, from | Monotone(reqs) && AtMostActive(c, n, reqs)
        ensures CountWithin(Admitted(c, reqs, key), from, c.window) <= c.max
      {
        FewerIsFew(c, n, c.maxKeys, reqs);
        WindowBound(c, reqs, key, from);
      }
    } else {
      FloodBreaksTheBound(c);
      FewerIsFew(c, c.maxKeys + 1, n, FloodAndReturn(c));
    }
  }
}
