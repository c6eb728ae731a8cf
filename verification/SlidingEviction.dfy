/** The sliding-window limiter's memory and its Retry-After. */
module SlidingEviction {
  import opened SlidingWindow
  import opened SlidingLaws

  /** No bucket ever holds more than max hits. */
  ghost predicate Bounded(c: Config, hits: map<string, seq<real>>) {
    forall key | key in hits :: |hits[key]| <= c.max
  }

  function Cap(c: Config): nat {
    if c.maxKeys < 0 then 0 else c.maxKeys
  }

  /** What every limiter that was used with a monotone clock looks like. */
  ghost predicate Usual(c: Config, st: Store, now: real) {
    && ConfigOk(c) && StoreOk(st) && Dated(st.hits, now) && Bounded(c, st.hits) && |st.order| <= Cap(c)
  }

  lemma CheckedUsual(c: Config, st: Store, key: string, now: real)
    requires Usual(c, st, now)
    ensures Usual(c, Checked(c, st, key, now).store, now)
  {
    hide Evicted;
    CheckedOk(c, st, key, now);
    CheckedDated(c, st, key, now);
    RecentIsSuffix(Bucket(st.hits, key), now, c.window) by { BucketDated(st.hits, key, now); }
    var recent := Recent(Bucket(st.hits, key), now, c.window);
    if |recent| < c.max {
      PutOk(st, key, recent + [now]);
      EvictedOk(c, Put(st, key, recent + [now]), now);
    }
  }

  /** Memory is bounded: after every check of every run there are at most maxKeys buckets of at most max
      hits each. */
  lemma {:induction false} MemoryBounded(c: Config, reqs: seq<Request>, now: real)
    requires ConfigOk(c) && Monotone(reqs) && (reqs != [] ==> reqs[|reqs| - 1].now <= now)
    ensures Usual(c, After(c, reqs), now)
  {
    if reqs != [] {
      var front, last := reqs[..|reqs| - 1], reqs[|reqs| - 1];
      MemoryBounded(c, front, last.now);
      CheckedUsual(c, After(c, front), last.key, last.now);
      DatedLater(After(c, reqs).hits, last.now, now);
    }
  }

  // ---------------------------------------------------------------- who is evicted

  ghost predicate Ascending(st: Store, sorted: seq<string>)
    requires forall k | k in sorted :: k in st.hits && st.hits[k] != []
  {
    forall i, j :: 0 <= i <= j < |sorted| ==> LastHit(st, sorted[i]) <= LastHit(st, sorted[j])
  }

  lemma {:induction false} InsertAscending(st: Store, sorted: seq<string>, key: string)
    requires forall k | k in sorted :: k in st.hits && st.hits[k] != []
    requires key in st.hits && st.hits[key] != [] && Ascending(st, sorted)
    ensures (forall k | k in Insert(st, sorted, key) :: k in st.hits && st.hits[k] != [])
            && Ascending(st, Insert(st, sorted, key))
    ensures Insert(st, sorted, key) != []
    ensures Insert(st, sorted, key)[0] ==
              if sorted == [] || LastHit(st, sorted[0]) > LastHit(st, key) then key else sorted[0]
  {
    InsertHolds(st, sorted, key);
    if sorted != [] && LastHit(st, sorted[|sorted| - 1]) > LastHit(st, key) {
      var front, last := sorted[..|sorted| - 1], sorted[|sorted| - 1];
      InsertAscending(st, front, key);
      InsertHolds(st, front, key);
      var r := Insert(st, front, key);
      assert Insert(st, sorted, key) == r + [last];
      hide Insert, LastHit;
      forall i | 0 <= i < |r| ensures LastHit(st, r[i]) <= LastHit(st, last) {
        assert r[i] in r;
        if r[i] != key {
          var j :| 0 <= j < |front| && front[j] == r[i];
          assert sorted[j] == r[i];
        }
      }
    }
  }

  /** The key at p was hit longest ago, and is the first such key in insertion order. */
  ghost predicate Oldest(st: Store, order: seq<string>, p: nat)
    requires forall k | k in order :: k in st.hits && st.hits[k] != []
  {
    && p < |order|
    && (forall k | k in order :: LastHit(st, order[p]) <= LastHit(st, k))
    && forall i | 0 <= i < p :: LastHit(st, order[i]) > LastHit(st, order[p])
  }

  lemma OldestOfMore(st: Store, front: seq<string>, last: string, p: nat)
    requires forall k | k in front + [last] :: k in st.hits && st.hits[k] != []
    requires Oldest(st, front, p)
    ensures Oldest(st, front + [last], if LastHit(st, front[p]) > LastHit(st, last) then |front| else p)
  {
    var order := front + [last];
    assert forall k | k in front :: k in order;
    assert forall i | 0 <= i < |front| :: order[i] == front[i] && front[i] in front;
  }

  /** The head of the stable sort is the oldest key. */
  lemma {:induction false} HeadIsOldest(st: Store, order: seq<string>) returns (p: nat)
    requires order != [] && forall k | k in order :: k in st.hits && st.hits[k] != []
    ensures Ascending(st, ByLastHit(st, order)) && Oldest(st, order, p) && order[p] == ByLastHit(st, order)[0]
  {
    var front, last := order[..|order| - 1], order[|order| - 1];
    assert order == front + [last];
    assert ByLastHit(st, order) == Insert(st, ByLastHit(st, front), last);
    InsertAscends(st, front, last);
    hide ByLastHit, Insert;
    if front == [] {
      p := 0;
    } else {
      var q := HeadIsOldest(st, front);
      InsertAscending(st, ByLastHit(st, front), last);
      OldestOfMore(st, front, last, q);
      p := if LastHit(st, front[q]) > LastHit(st, last) then |front| else q;
    }
  }

  lemma InsertAscends(st: Store, front: seq<string>, last: string)
    requires forall k | k in front + [last] :: k in st.hits && st.hits[k] != []
    ensures front == [] ==> Insert(st, ByLastHit(st, front), last) == [last]
  {
  }

  /** An admission of a key by a limiter that was within its cap. */
  ghost predicate Admits(c: Config, st: Store, key: string, now: real) {
    Usual(c, st, now) && |Recent(Bucket(st.hits, key), now, c.window)| < c.max
  }

  ghost function AfterPut(c: Config, st: Store, key: string, now: real): Store {
    Put(st, key, Recent(Bucket(st.hits, key), now, c.window) + [now])
  }

  lemma PutUsual(c: Config, st: Store, key: string, now: real)
    requires Admits(c, st, key, now)
    ensures StoreOk(AfterPut(c, st, key, now)) && Dated(AfterPut(c, st, key, now).hits, now)
    ensures LastHit(AfterPut(c, st, key, now), key) == now
    ensures |AfterPut(c, st, key, now).order| <= Cap(c) + 1
    ensures |AfterPut(c, st, key, now).order| == Cap(c) + 1 ==>
              AfterPut(c, st, key, now).order[Cap(c)] == key
  {
    var recent := Recent(Bucket(st.hits, key), now, c.window);
    PutOk(st, key, recent + [now]);
    BucketDated(st.hits, key, now);
    RecentDated(Bucket(st.hits, key), now, c.window);
    SortedAppend(recent, now);
  }

  /** When an active key is dropped, the limiter is full of active keys and exactly the head of the
      stable sort goes. */
  lemma DropIsHead(c: Config, put: Store, now: real, k: string)
    requires StoreOk(put) && |put.order| <= c.maxKeys + 1 && c.maxKeys >= 0
    requires k in put.hits && k !in Evicted(c, put, now).hits && !Expired(put, k, now, c.window)
    ensures |put.order| == c.maxKeys + 1
    ensures forall j | j in put.hits :: !Expired(put, j, now, c.window)
    ensures ByLastHit(put, put.order)[0] == k
  {
    hide ExpiredKeys, ByLastHit, DeleteAll;
    var expired := ExpiredKeys(put, put.order, now, c.window);
    ExpiredKeysHold(put, put.order, now, c.window);
    DeleteAllHolds(put, expired);
    var live := DeleteAll(put, expired);
    var overflow := |live.order| - c.maxKeys;
    assert k in live.hits;
    assert overflow == 1 && expired == [];
    DeleteNone(put);
    var sorted := ByLastHit(put, put.order);
    ByLastHitDistinct(put, put.order);
    var oldest := sorted[..Min(overflow, |live.order|)];
    assert oldest == [sorted[0]];
    assert forall j | j in oldest :: j in sorted;
    DeleteAllHolds(live, oldest);
    assert k in oldest;
  }

  lemma DeleteNone(st: Store)
    ensures DeleteAll(st, []) == st
  {
  }

  lemma LastHitUpTo(st: Store, k: string, now: real)
    requires StoreOk(st) && Dated(st.hits, now) && k in st.order
    ensures LastHit(st, k) <= now
  {
    assert st.hits[k][|st.hits[k]| - 1] in st.hits[k];
  }

  /** Nothing is dropped while there is room, active or not. */
  lemma RoomMeansKept(c: Config, st: Store, key: string, now: real, k: string)
    requires ConfigOk(c) && StoreOk(st) && k in st.hits && k != key
    requires |st.order| + (if key in st.hits then 0 else 1) <= c.maxKeys
    ensures var after := Checked(c, st, key, now).store; k in after.hits && after.hits[k] == st.hits[k]
  {
  }

  /** Fair eviction: an active bucket is dropped only if all maxKeys + 1 buckets are active; it then has
      the oldest last hit, it is the first such in insertion order, and it is not the key just admitted. */
  lemma EvictionIsFair(c: Config, st: Store, key: string, now: real, k: string)
    requires Admits(c, st, key, now) && c.maxKeys >= 1
    requires k in AfterPut(c, st, key, now).hits && k !in Checked(c, st, key, now).store.hits
    requires !Expired(AfterPut(c, st, key, now), k, now, c.window)
    ensures var put := AfterPut(c, st, key, now);
            && |put.order| == c.maxKeys + 1
            && (forall j | j in put.hits :: !Expired(put, j, now, c.window))
            && (forall j | j in put.hits :: put.hits[j] != [] && LastHit(put, k) <= LastHit(put, j))
            && (exists p: nat :: Oldest(put, put.order, p) && put.order[p] == k)
            && k != key
  {
    var put := AfterPut(c, st, key, now);
    PutUsual(c, st, key, now);
    DropIsHead(c, put, now, k);
    var p := HeadIsOldest(put, put.order);
    LastHitUpTo(put, put.order[0], now);
    assert p > 0 ==> LastHit(put, k) < now;
    assert k == key ==> p == c.maxKeys;
  }

  /** The key just admitted keeps its bucket exactly when the cap allows any bucket at all, although
      several keys may have been hit at the same instant. */
  lemma JustAdmittedSurvives(c: Config, st: Store, key: string, now: real)
    requires Admits(c, st, key, now)
    ensures key in Checked(c, st, key, now).store.hits <==> c.maxKeys >= 1
  {
    var after := Checked(c, st, key, now).store;
    if c.maxKeys >= 1 {
      if key !in after.hits {
        PutUsual(c, st, key, now);
        EvictionIsFair(c, st, key, now, key);
      }
    } else {
      CheckedUsual(c, st, key, now);
      assert after.order == [];
    }
  }

  // ---------------------------------------------------------------- Retry-After

  /** The delay of a denial is sufficient and tight: with the bucket as the denial left it, or gone, the
      key is admitted at any time from now + r, and with the bucket kept it is denied at any time before
      now + r - 1. */
  lemma RetryAfterIsTight(c: Config, st: Store, key: string, now: real, later: Store, at: real)
    requires Usual(c, st, now) && !Checked(c, st, key, now).allowed
    requires StoreOk(later) && at >= now
    ensures var r := Checked(c, st, key, now).retryAfter;
            var left := Bucket(Checked(c, st, key, now).store.hits, key);
            && 1 <= r <= c.window.Floor + 1
            && (left != [] ==> left[0] + c.window < now + r as real <= left[0] + c.window + 1.0)
            && (Bucket(later.hits, key) == left && at >= now + r as real ==> Checked(c, later, key, at).allowed)
            && (Bucket(later.hits, key) == [] ==> Checked(c, later, key, at).allowed)
            && (Bucket(later.hits, key) == left && at < now + (r - 1) as real ==> !Checked(c, later, key, at).allowed)
  {
    var bucket := Bucket(st.hits, key);
    BucketDated(st.hits, key, now);
    RecentIsSuffix(bucket, now, c.window);
    var left := Recent(bucket, now, c.window);
    RecentDated(bucket, now, c.window);
    RecentIsSuffix(left, at, c.window);
    assert left[0] in left;
    var x := c.window - (now - left[0]);
    assert 0.0 < x <= c.window;
    assert x.Floor as real <= x < (x.Floor + 1) as real;
    var r := Recent(left, at, c.window);
    assert |left| == c.max;
    assert at >= now + (x.Floor + 1) as real ==> at - left[0] >= c.window;
    assert at < now + x.Floor as real ==> at - left[0] < c.window;
    assert |r| == |left| ==> r == left && left[0] in r;
    assert |r| < |left| ==> at - left[0] >= c.window;
  }

  /** The bucket is as a denial left it, or evicted. */
  ghost predicate LeftOrGone(st: Store, key: string, left: seq<real>) {
    key in st.hits ==> st.hits[key] == left
  }

  /** A request that does not admit the key leaves its bucket alone, unless it evicts it. */
  lemma DenialStays(c: Config, st: Store, key: string, left: seq<real>, k: string, now: real)
    requires Usual(c, st, now) && LeftOrGone(st, key, left) && |left| == c.max
    requires k == key ==> !Checked(c, st, k, now).allowed
    ensures LeftOrGone(Checked(c, st, k, now).store, key, left)
  {
    hide Evicted, Checked;
    var bucket := Bucket(st.hits, k);
    BucketDated(st.hits, k, now);
    RecentIsSuffix(bucket, now, c.window);
    var recent := Recent(bucket, now, c.window);
    hide Recent, Dated;
    if |recent| < c.max {
      AdmitIs(c, st, k, now, recent);
      EvictedOk(c, Put(st, k, recent + [now]), now);
    } else {
      DenyIs(c, st, k, now, recent);
      assert k == key ==> |bucket| == |recent|;
    }
  }

  lemma MonotonePrefix(reqs: seq<Request>, last: Request)
    requires Monotone(reqs + [last])
    ensures Monotone(reqs) && (reqs != [] ==> reqs[|reqs| - 1].now <= last.now)
  {
    var all := reqs + [last];
    assert all[|reqs|] == last && forall i | 0 <= i < |reqs| :: all[i] == reqs[i];
  }

  /** If nothing of the key was let through since, then not before the last request either. */
  lemma NothingYet(c: Config, before: seq<Request>, front: seq<Request>, last: Request, key: string)
    requires ConfigOk(c) && before <= front && Admitted(c, front + [last], key) == Admitted(c, before, key)
    ensures Admitted(c, front, key) == Admitted(c, before, key)
    ensures last.key == key ==> !Checked(c, After(c, front), last.key, last.now).allowed
  {
    AfterAppend(c, front, last, key);
    OnlyMore(c, before, front, key);
    hide Admitted, Checked, After;
  }

  lemma {:induction false} DenialLasts(c: Config, before: seq<Request>, key: string, left: seq<real>,
                                       reqs: seq<Request>)
    requires ConfigOk(c) && Monotone(reqs) && before <= reqs
    requires LeftOrGone(After(c, before), key, left) && |left| == c.max
    requires Admitted(c, reqs, key) == Admitted(c, before, key)
    ensures LeftOrGone(After(c, reqs), key, left)
    decreases |reqs|
  {
    hide After, Admitted, Checked, LeftOrGone, Monotone;
    if |reqs| > |before| {
      var front, last := reqs[..|reqs| - 1], reqs[|reqs| - 1];
      assert reqs == front + [last] && before <= front;
      MonotonePrefix(front, last);
      NothingYet(c, before, front, last, key);
      DenialLasts(c, before, key, left, front);
      OneMoreRequest(c, front, last, key, left);
    } else {
      assert reqs == before;
    }
  }

  lemma OneMoreRequest(c: Config, reqs: seq<Request>, last: Request, key: string, left: seq<real>)
    requires ConfigOk(c) && Monotone(reqs) && (reqs != [] ==> reqs[|reqs| - 1].now <= last.now)
    requires LeftOrGone(After(c, reqs), key, left) && |left| == c.max
    requires last.key == key ==> !Checked(c, After(c, reqs), last.key, last.now).allowed
    ensures LeftOrGone(After(c, reqs + [last]), key, left)
  {
    hide After, Admitted, Checked, LeftOrGone, Monotone;
    MemoryBounded(c, reqs, last.now);
    DenialStays(c, After(c, reqs), key, left, last.key, last.now);
    AfterAppend(c, reqs, last, key);
  }

  lemma {:induction false} OnlyMore(c: Config, before: seq<Request>, reqs: seq<Request>, key: string)
    requires ConfigOk(c) && before <= reqs
    ensures |Admitted(c, reqs, key)| >= |Admitted(c, before, key)|
    ensures |Admitted(c, reqs, key)| == |Admitted(c, before, key)| ==>
              Admitted(c, reqs, key) == Admitted(c, before, key)
    decreases |reqs|
  {
    hide After, Admitted, Checked;
    if |reqs| > |before| {
      var front, last := reqs[..|reqs| - 1], reqs[|reqs| - 1];
      assert reqs == front + [last] && before <= front;
      AfterAppend(c, front, last, key);
      OnlyMore(c, before, front, key);
    } else {
      assert reqs == before;
    }
  }

  /** The delay over whole runs: whatever is asked after a denial, as long as nothing of the key is let
      through, the key is admitted at any time from now + r, and until its bucket is evicted denied at any
      time before now + r - 1. */
  lemma {:induction false} RetryAfterHolds(c: Config, before: seq<Request>, key: string, now: real,
      more: seq<Request>, at: real)
    requires ConfigOk(c)
    ensures Monotone(before + [Request(key, now)] + more + [Request(key, at)])
            && !Checked(c, After(c, before), key, now).allowed
            && Admitted(c, before + [Request(key, now)] + more, key) == Admitted(c, before, key) ==>
              var r := Checked(c, After(c, before), key, now).retryAfter;
              var later := After(c, before + [Request(key, now)] + more);
              && (at >= now + r as real ==> Checked(c, later, key, at).allowed)
              && (at < now + (r - 1) as real && key in later.hits ==> !Checked(c, later, key, at).allowed)
  {
    var denied := before + [Request(key, now)];
    var reqs := denied + more;
    hide Checked, After, Admitted, Monotone;
    if Monotone(reqs + [Request(key, at)]) && !Checked(c, After(c, before), key, now).allowed
       && Admitted(c, reqs, key) == Admitted(c, before, key) {
      MonotonePrefix(reqs, Request(key, at));
      MonotoneFront(denied, more);
      MonotonePrefix(before, Request(key, now));
      NowBefore(denied, more, at);
      MemoryBounded(c, before, now);
      MemoryBounded(c, reqs, at);
      AfterAppend(c, before, Request(key, now), key);
      DeniedIsFull(c, After(c, before), key, now);
      DenialLasts(c, denied, key, Bucket(After(c, denied).hits, key), reqs);
      RetryAfterIsTight(c, After(c, before), key, now, After(c, reqs), at);
    }
  }

  lemma MonotoneFront(front: seq<Request>, more: seq<Request>)
    requires Monotone(front + more)
    ensures Monotone(front)
  {
    assert forall i | 0 <= i < |front| :: front[i] == (front + more)[i];
  }

  lemma NowBefore(denied: seq<Request>, more: seq<Request>, at: real)
    requires denied != [] && Monotone(denied + more) && (denied + more)[|denied + more| - 1].now <= at
    ensures denied[|denied| - 1].now <= at
  {
    assert (denied + more)[|denied| - 1] == denied[|denied| - 1];
  }

  lemma DeniedIsFull(c: Config, st: Store, key: string, now: real)
    requires Usual(c, st, now) && !Checked(c, st, key, now).allowed
    ensures var after := Checked(c, st, key, now).store;
            key in after.hits && |after.hits[key]| == c.max
  {
    BucketDated(st.hits, key, now);
    RecentIsSuffix(Bucket(st.hits, key), now, c.window);
  }
}
