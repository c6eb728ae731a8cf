/** What the sliding-window limiter promises: it answers like a limiter that forgets nothing, it bounds
    every window, its memory is bounded and eviction is fair, and its Retry-After can be relied on. */
module SlidingLaws {
  import opened Basics
  import opened SlidingWindow

  datatype Request = Request(key: string, now: real)

  datatype Remembered = Remembered(history: map<string, seq<real>>, allowed: bool, retryAfter: int)

  /** The reference: every admission is kept forever, nothing is pruned or evicted. */
  function Remember(c: Config, history: map<string, seq<real>>, key: string, now: real): Remembered
    requires c.max >= 1
  {
    var recent := Recent(Bucket(history, key), now, c.window);
    if |recent| >= c.max then Remembered(history, false, RetryAfter(c.window, now, recent[0]))
    else Remembered(history[key := Bucket(history, key) + [now]], true, 0)
  }

  lemma CheckedOk(c: Config, st: Store, key: string, now: real)
    requires ConfigOk(c) && StoreOk(st)
    ensures StoreOk(Checked(c, st, key, now).store)
  {
    hide Evicted;
    var hits := Recent(Bucket(st.hits, key), now, c.window);
    if |hits| >= c.max { PutOk(st, key, hits); }
    else {
      PutOk(st, key, hits + [now]);
      EvictedOk(c, Put(st, key, hits + [now]), now);
    }
  }

  /** An admission, unfolded once. */
  lemma AdmitIs(c: Config, st: Store, key: string, now: real, recent: seq<real>)
    requires ConfigOk(c) && StoreOk(st) && Recent(Bucket(st.hits, key), now, c.window) == recent && |recent| < c.max
    ensures var put := Put(st, key, recent + [now]);
            && StoreOk(put) && Checked(c, st, key, now).allowed
            && Checked(c, st, key, now).store == if |put.order| > c.maxKeys then Evicted(c, put, now) else put
  {
    PutOk(st, key, recent + [now]);
    hide Recent, Evicted, StoreOk;
  }

  /** A denial, unfolded once. */
  lemma DenyIs(c: Config, st: Store, key: string, now: real, recent: seq<real>)
    requires ConfigOk(c) && StoreOk(st) && Recent(Bucket(st.hits, key), now, c.window) == recent && |recent| >= c.max
    ensures !Checked(c, st, key, now).allowed && Checked(c, st, key, now).store == Put(st, key, recent)
  {
  }

  /** The limiter after a run of requests, from empty. */
  ghost function After(c: Config, reqs: seq<Request>): (st: Store)
    requires ConfigOk(c)
    ensures StoreOk(st)
  {
    if reqs == [] then Store(map[], [])
    else
      var last := reqs[|reqs| - 1];
      CheckedOk(c, After(c, reqs[..|reqs| - 1]), last.key, last.now);
      Checked(c, After(c, reqs[..|reqs| - 1]), last.key, last.now).store
  }

  ghost function History(c: Config, reqs: seq<Request>): map<string, seq<real>>
    requires ConfigOk(c)
  {
    if reqs == [] then map[]
    else
      var last := reqs[|reqs| - 1];
      Remember(c, History(c, reqs[..|reqs| - 1]), last.key, last.now).history
  }

  ghost predicate Monotone(reqs: seq<Request>) {
    forall i, j :: 0 <= i <= j < |reqs| ==> reqs[i].now <= reqs[j].now
  }

  function ActiveKeys(hits: map<string, seq<real>>, now: real, window: real): set<string> {
    set key | key in hits && Recent(hits[key], now, window) != []
  }

  /** At every request, at most n callers had an admission inside the window. */
  ghost predicate AtMostActive(c: Config, n: int, reqs: seq<Request>)
    requires ConfigOk(c)
  {
    forall i :: 0 < i <= |reqs| ==> |ActiveKeys(History(c, reqs[..i]), reqs[i - 1].now, c.window)| <= n
  }

  /** The active callers always fit. */
  ghost predicate FewActive(c: Config, reqs: seq<Request>)
    requires ConfigOk(c)
  {
    AtMostActive(c, c.maxKeys, reqs)
  }

  lemma FewActiveBefore(c: Config, reqs: seq<Request>, n: nat)
    requires ConfigOk(c) && FewActive(c, reqs) && n <= |reqs|
    ensures FewActive(c, reqs[..n])
  {
    forall i | 0 < i <= n
      ensures |ActiveKeys(History(c, reqs[..n][..i]), reqs[..n][i - 1].now, c.window)| <= c.maxKeys
    {
      assert reqs[..n][..i] == reqs[..i];
    }
  }

  // ---------------------------------------------------------------- refinement

  /** Every bucket is sorted and holds nothing from the future. */
  ghost predicate Dated(hits: map<string, seq<real>>, now: real) {
    forall key | key in hits :: Sorted(hits[key]) && UpTo(hits[key], now)
  }

  ghost predicate Agree(c: Config, a: map<string, seq<real>>, b: map<string, seq<real>>, now: real) {
    forall key :: Recent(Bucket(a, key), now, c.window) == Recent(Bucket(b, key), now, c.window)
  }

  lemma AgreeLater(c: Config, a: map<string, seq<real>>, b: map<string, seq<real>>, now: real, later: real)
    requires Agree(c, a, b, now) && now <= later
    ensures Agree(c, a, b, later)
  {
    forall key ensures Recent(Bucket(a, key), later, c.window) == Recent(Bucket(b, key), later, c.window) {
      PruneAgain(Bucket(a, key), now, later, c.window);
      PruneAgain(Bucket(b, key), now, later, c.window);
    }
  }

  lemma SortedAppend(hits: seq<real>, now: real)
    requires Sorted(hits) && UpTo(hits, now)
    ensures Sorted(hits + [now]) && UpTo(hits + [now], now)
  {
    assert forall i | 0 <= i < |hits| :: hits[i] in hits;
  }

  lemma RecentDated(hits: seq<real>, now: real, window: real)
    requires Sorted(hits) && UpTo(hits, now)
    ensures Sorted(Recent(hits, now, window)) && UpTo(Recent(hits, now, window), now)
  {
    RecentIsSuffix(hits, now, window);
    var n := |hits| - |Recent(hits, now, window)|;
    assert forall t | t in hits[n..] :: t in hits;
  }

  /** A sorted bucket whose last hit is out of the window has no recent hit at all. */
  lemma ExpiredHasNone(st: Store, key: string, now: real, window: real)
    requires key in st.hits && Sorted(st.hits[key])
    ensures Expired(st, key, now, window) <==> Recent(st.hits[key], now, window) == []
  {
    RecentIsSuffix(st.hits[key], now, window);
    if st.hits[key] != [] && Recent(st.hits[key], now, window) != [] {
      var r := Recent(st.hits[key], now, window);
      assert r[|r| - 1] in r;
    }
  }

  lemma DistinctCount(order: seq<string>, keys: set<string>)
    requires Distinct(order) && forall k | k in order :: k in keys
    ensures |order| <= |keys|
  {
    if order != [] {
      assert order == [order[0]] + order[1..];
      assert order[0] !in order[1..];
      DistinctCount(order[1..], keys - {order[0]});
    }
  }

  /** While the active keys fit, eviction only removes buckets that have nothing recent. */
  lemma EvictionUnobservable(c: Config, st: Store, now: real)
    requires StoreOk(st) && Dated(st.hits, now)
    requires |ActiveKeys(st.hits, now, c.window)| <= c.maxKeys
    ensures Agree(c, Evicted(c, st, now).hits, st.hits, now)
  {
    var expired := ExpiredKeys(st, st.order, now, c.window);
    ExpiredKeysHold(st, st.order, now, c.window);
    DeleteAllHolds(st, expired);
    var live := DeleteAll(st, expired);
    forall k | k in live.order ensures k in ActiveKeys(st.hits, now, c.window) {
      ExpiredHasNone(st, k, now, c.window);
    }
    DistinctCount(live.order, ActiveKeys(st.hits, now, c.window));
    forall key ensures Recent(Bucket(live.hits, key), now, c.window) == Recent(Bucket(st.hits, key), now, c.window) {
      if key in st.hits && key !in live.hits {
        ExpiredHasNone(st, key, now, c.window);
      }
    }
  }

  lemma AdmitAgrees(c: Config, a: seq<real>, b: seq<real>, now: real)
    requires c.window > 0.0 && Recent(a, now, c.window) == Recent(b, now, c.window)
    ensures Recent(Recent(a, now, c.window) + [now], now, c.window) == Recent(b + [now], now, c.window)
  {
    PruneAgain(a, now, now, c.window);
    RecentAppend(Recent(a, now, c.window), [now], now, c.window);
    RecentAppend(b, [now], now, c.window);
  }

  lemma SameActive(c: Config, a: map<string, seq<real>>, b: map<string, seq<real>>, now: real)
    requires Agree(c, a, b, now)
    ensures ActiveKeys(a, now, c.window) == ActiveKeys(b, now, c.window)
  {
    forall key ensures key in ActiveKeys(a, now, c.window) <==> key in ActiveKeys(b, now, c.window) {
      assert Recent(Bucket(a, key), now, c.window) == Recent(Bucket(b, key), now, c.window);
    }
  }

  lemma BucketDated(hits: map<string, seq<real>>, key: string, now: real)
    requires Dated(hits, now)
    ensures Sorted(Bucket(hits, key)) && UpTo(Bucket(hits, key), now)
  {
  }

  lemma RememberDated(c: Config, h: map<string, seq<real>>, key: string, now: real)
    requires ConfigOk(c) && Dated(h, now)
    ensures Dated(Remember(c, h, key, now).history, now)
  {
    BucketDated(h, key, now);
    SortedAppend(Bucket(h, key), now);
  }

  lemma CheckedDated(c: Config, st: Store, key: string, now: real)
    requires ConfigOk(c) && StoreOk(st) && Dated(st.hits, now)
    ensures Dated(Checked(c, st, key, now).store.hits, now)
  {
    hide Evicted;
    BucketDated(st.hits, key, now);
    var recent := Recent(Bucket(st.hits, key), now, c.window);
    RecentDated(Bucket(st.hits, key), now, c.window);
    SortedAppend(recent, now);
    if |recent| < c.max {
      PutOk(st, key, recent + [now]);
      EvictedOk(c, Put(st, key, recent + [now]), now);
    }
  }

  /** One check: same answer, and the two limiters still agree. */
  lemma StepAgrees(c: Config, st: Store, h: map<string, seq<real>>, key: string, now: real)
    requires ConfigOk(c) && StoreOk(st) && Dated(st.hits, now) && Agree(c, st.hits, h, now)
    requires |ActiveKeys(Remember(c, h, key, now).history, now, c.window)| <= c.maxKeys
    ensures var o, n := Checked(c, st, key, now), Remember(c, h, key, now);
            o.allowed == n.allowed && o.retryAfter == n.retryAfter && Agree(c, o.store.hits, n.history, now)
  {
    hide Evicted;
    var recent := Recent(Bucket(st.hits, key), now, c.window);
    assert recent == Recent(Bucket(h, key), now, c.window);
    if |recent| >= c.max {
      PruneAgain(Bucket(st.hits, key), now, now, c.window);
    } else {
      var put, h' := Put(st, key, recent + [now]), Remember(c, h, key, now).history;
      AdmitAgrees(c, Bucket(st.hits, key), Bucket(h, key), now);
      forall k ensures Recent(Bucket(put.hits, k), now, c.window) == Recent(Bucket(h', k), now, c.window) {
        if k != key {
          assert Bucket(put.hits, k) == Bucket(st.hits, k) && Bucket(h', k) == Bucket(h, k);
        }
      }
      SameActive(c, put.hits, h', now);
      PutOk(st, key, recent + [now]);
      BucketDated(st.hits, key, now);
      RecentDated(Bucket(st.hits, key), now, c.window);
      SortedAppend(recent, now);
      EvictionUnobservable(c, put, now);
    }
  }

  lemma DatedLater(hits: map<string, seq<real>>, now: real, later: real)
    requires Dated(hits, now) && now <= later
    ensures Dated(hits, later)
  {
  }

  ghost predicate InStep(c: Config, reqs: seq<Request>, now: real)
    requires ConfigOk(c)
  {
    var st, h := After(c, reqs), History(c, reqs);
    Dated(st.hits, now) && Dated(h, now) && Agree(c, st.hits, h, now)
  }

  lemma InStepLater(c: Config, reqs: seq<Request>, now: real, later: real)
    requires ConfigOk(c) && InStep(c, reqs, now) && now <= later
    ensures InStep(c, reqs, later)
  {
    AgreeLater(c, After(c, reqs).hits, History(c, reqs), now, later);
  }

  /** The limiter and the reference stay in step along the whole run. */
  lemma {:induction false} RunInStep(c: Config, reqs: seq<Request>, now: real)
    requires ConfigOk(c) && Monotone(reqs) && FewActive(c, reqs)
    requires reqs != [] ==> reqs[|reqs| - 1].now <= now
    ensures InStep(c, reqs, now)
  {
    if reqs != [] {
      var front, last := reqs[..|reqs| - 1], reqs[|reqs| - 1];
      FewActiveBefore(c, reqs, |reqs| - 1);
      RunInStep(c, front, last.now);
      assert reqs[..|reqs|] == reqs;
      StepAgrees(c, After(c, front), History(c, front), last.key, last.now);
      CheckedDated(c, After(c, front), last.key, last.now);
      RememberDated(c, History(c, front), last.key, last.now);
      InStepLater(c, reqs, last.now, now);
    }
  }

  /** Refinement: pruning and the eviction of expired buckets are unobservable. In every run with
      non-decreasing times in which the active keys fit, the next check answers exactly as if every
      admission had been remembered forever. */
  lemma {:induction false} ForgettingIsUnobservable(c: Config, reqs: seq<Request>, key: string, now: real)
    requires ConfigOk(c) && Monotone(reqs + [Request(key, now)]) && FewActive(c, reqs + [Request(key, now)])
    ensures var o, n := Checked(c, After(c, reqs), key, now), Remember(c, History(c, reqs), key, now);
            o.allowed == n.allowed && o.retryAfter == n.retryAfter
  {
    var all := reqs + [Request(key, now)];
    assert all[..|reqs|] == reqs && all[..|all|] == all;
    FewActiveBefore(c, all, |reqs|);
    assert forall i | 0 <= i < |reqs| :: all[i] == reqs[i];
    RunInStep(c, reqs, now);
    StepAgrees(c, After(c, reqs), History(c, reqs), key, now);
  }

  // ---------------------------------------------------------------- every window is bounded

  /** Admissions of one key, max apart in the list, are at least a window apart in time. */
  ghost predicate Spaced(c: Config, hits: seq<real>) {
    forall i, j :: 0 <= i < j < |hits| && j == i + c.max ==> hits[j] - hits[i] >= c.window
  }

  lemma RememberSpaced(c: Config, h: map<string, seq<real>>, key: string, now: real, k: string)
    requires ConfigOk(c) && Dated(h, now) && Spaced(c, Bucket(h, k))
    ensures Spaced(c, Bucket(Remember(c, h, key, now).history, k))
  {
    if k == key && |Recent(Bucket(h, key), now, c.window)| < c.max {
      RecentIsSuffix(Bucket(h, key), now, c.window);
    }
  }

  lemma {:induction false} HistorySpaced(c: Config, reqs: seq<Request>, key: string)
    requires ConfigOk(c) && Monotone(reqs)
    ensures Spaced(c, Bucket(History(c, reqs), key))
    ensures reqs != [] ==> Dated(History(c, reqs), reqs[|reqs| - 1].now)
  {
    if reqs != [] {
      var front, last := reqs[..|reqs| - 1], reqs[|reqs| - 1];
      HistorySpaced(c, front, key);
      RememberSpaced(c, History(c, front), last.key, last.now, key);
      RememberDated(c, History(c, front), last.key, last.now);
    }
  }

  /** How many of the hits fall into [from, from + window). */
  function CountWithin(hits: seq<real>, from: real, window: real): nat {
    if hits == [] then 0
    else CountWithin(hits[..|hits| - 1], from, window)
         + if from <= hits[|hits| - 1] < from + window then 1 else 0
  }

  /** If more than max hits fell into one window, two of them max apart would be too close. */
  lemma {:induction false} CountIsShort(c: Config, hits: seq<real>, from: real)
    requires ConfigOk(c) && Sorted(hits) && Spaced(c, hits)
    ensures CountWithin(hits, from, c.window) <= c.max
  {
    if hits != [] {
      if hits[|hits| - 1] >= from + c.window {
        CountIsShort(c, hits[..|hits| - 1], from);
      } else {
        CountedFromStart(c, hits, from);
        var n := CountWithin(hits, from, c.window);
        if |hits| > c.max {
          assert hits[|hits| - 1] - hits[|hits| - 1 - c.max] >= c.window;
        }
      }
    }
  }

  lemma CountedFromStart(c: Config, hits: seq<real>, from: real)
    requires ConfigOk(c) && Sorted(hits)
    ensures CountWithin(hits, from, c.window) <= |hits|
    ensures CountWithin(hits, from, c.window) > 0 && hits[|hits| - 1] < from + c.window ==>
              from <= hits[|hits| - CountWithin(hits, from, c.window)]
  {
    if hits != [] {
      var front := hits[..|hits| - 1];
      CountedFromStart(c, front, from);
      if from > hits[|hits| - 1] {
        NoneBefore(c, front, from);
      }
    }
  }

  lemma NoneBefore(c: Config, hits: seq<real>, from: real)
    requires forall i | 0 <= i < |hits| :: hits[i] < from
    ensures CountWithin(hits, from, c.window) == 0
  {
    if hits != [] {
      NoneBefore(c, hits[..|hits| - 1], from);
    }
  }

  lemma ReferenceBound(c: Config, reqs: seq<Request>, key: string, from: real)
    requires ConfigOk(c) && Monotone(reqs)
    ensures CountWithin(Bucket(History(c, reqs), key), from, c.window) <= c.max
  {
    HistorySpaced(c, reqs, key);
    CountIsShort(c, Bucket(History(c, reqs), key), from);
  }

  /** The times at which the limiter itself let a key through. */
  ghost function Admitted(c: Config, reqs: seq<Request>, key: string): seq<real>
    requires ConfigOk(c)
  {
    if reqs == [] then []
    else
      var front, last := reqs[..|reqs| - 1], reqs[|reqs| - 1];
      Admitted(c, front, key)
      + if last.key == key && Checked(c, After(c, front), last.key, last.now).allowed then [last.now] else []
  }

  lemma AdmittedLast(c: Config, reqs: seq<Request>, key: string)
    requires ConfigOk(c) && reqs != []
    ensures var front, last := reqs[..|reqs| - 1], reqs[|reqs| - 1];
            Admitted(c, reqs, key) == Admitted(c, front, key)
            + if last.key == key && Checked(c, After(c, front), last.key, last.now).allowed then [last.now] else []
  {
  }

  lemma AfterAppend(c: Config, reqs: seq<Request>, r: Request, key: string)
    requires ConfigOk(c)
    ensures After(c, reqs + [r]) == Checked(c, After(c, reqs), r.key, r.now).store
    ensures Admitted(c, reqs + [r], key)
            == Admitted(c, reqs, key)
               + if r.key == key && Checked(c, After(c, reqs), r.key, r.now).allowed then [r.now] else []
  {
    assert (reqs + [r])[..|reqs|] == reqs;
  }

  lemma HistoryLast(c: Config, reqs: seq<Request>, key: string)
    requires ConfigOk(c) && reqs != []
    ensures var front, last := reqs[..|reqs| - 1], reqs[|reqs| - 1];
            Bucket(History(c, reqs), key) == Bucket(History(c, front), key)
            + if last.key == key && Remember(c, History(c, front), last.key, last.now).allowed then [last.now] else []
  {
  }

  lemma {:induction false} AdmittedIsHistory(c: Config, reqs: seq<Request>, key: string)
    requires ConfigOk(c) && Monotone(reqs) && FewActive(c, reqs)
    ensures Admitted(c, reqs, key) == Bucket(History(c, reqs), key)
  {
    if reqs != [] {
      var front, last := reqs[..|reqs| - 1], reqs[|reqs| - 1];
      assert front + [Request(last.key, last.now)] == reqs;
      FewActiveBefore(c, reqs, |reqs| - 1);
      AdmittedLast(c, reqs, key);
      HistoryLast(c, reqs, key);
      hide Admitted, History, Remember, After, Checked, FewActive;
      AdmittedIsHistory(c, front, key);
      ForgettingIsUnobservable(c, front, last.key, last.now);
    }
  }

  /** In every run with non-decreasing times in which the active keys fit, any half-open interval as
      long as the window holds at most max admissions of a key. */
  lemma {:induction false} WindowBound(c: Config, reqs: seq<Request>, key: string, from: real)
    requires ConfigOk(c) && Monotone(reqs) && FewActive(c, reqs)
    ensures CountWithin(Admitted(c, reqs, key), from, c.window) <= c.max
  {
    AdmittedIsHistory(c, reqs, key);
    ReferenceBound(c, reqs, key, from);
  }

  /** A limiter that only ever sees one key needs no such condition. */
  lemma OneKeyFits(c: Config, reqs: seq<Request>, key: string)
    requires ConfigOk(c) && c.maxKeys >= 1 && forall r | r in reqs :: r.key == key
    ensures FewActive(c, reqs)
  {
    forall i | 0 < i <= |reqs|
      ensures |ActiveKeys(History(c, reqs[..i]), reqs[i - 1].now, c.window)| <= c.maxKeys
    {
      assert forall r | r in reqs[..i] :: r in reqs;
      OneKeyOnly(c, reqs[..i], key);
      var active := ActiveKeys(History(c, reqs[..i]), reqs[i - 1].now, c.window);
      AtMostOne(active, key);
    }
  }

  lemma AtMostOne(keys: set<string>, key: string)
    requires forall k | k in keys :: k == key
    ensures |keys| <= 1
  {
    assert keys <= {key};
    if keys != {} {
      assert keys == {key};
    }
  }

  lemma {:induction false} OneKeyOnly(c: Config, reqs: seq<Request>, key: string)
    requires ConfigOk(c) && forall r | r in reqs :: r.key == key
    ensures forall k | k in History(c, reqs) :: k == key
  {
    if reqs != [] {
      assert reqs[|reqs| - 1] in reqs;
      assert forall r | r in reqs[..|reqs| - 1] :: r in reqs;
      OneKeyOnly(c, reqs[..|reqs| - 1], key);
    }
  }
}
