/** The in-memory sliding-window limiter (ratelimit.py): pruning, bounded memory, eviction. Its answers
    are compared with a limiter that remembers every admission forever. */
module SlidingWindow {
  import opened Basics

  /** Dafny's maps have no order, Python's dictionaries do: `order` is the insertion order of the keys. */
  datatype Store = Store(hits: map<string, seq<real>>, order: seq<string>)

  datatype Config = Config(max: int, window: real, maxKeys: int)

  datatype Outcome = Outcome(store: Store, allowed: bool, retryAfter: int)

  ghost predicate ConfigOk(c: Config) {
    c.max >= 1 && c.window > 0.0
  }

  // ---------------------------------------------------------------- buckets

  /** The hits that are still inside the window. */
  function Recent(hits: seq<real>, now: real, window: real): seq<real> {
    if hits == [] then []
    else (if now - hits[0] < window then [hits[0]] else []) + Recent(hits[1..], now, window)
  }

  ghost predicate Sorted(hits: seq<real>) {
    forall i, j :: 0 <= i <= j < |hits| ==> hits[i] <= hits[j]
  }

  ghost predicate UpTo(hits: seq<real>, now: real) {
    forall t | t in hits :: t <= now
  }

  function Bucket(hits: map<string, seq<real>>, key: string): seq<real> {
    if key in hits then hits[key] else []
  }

  lemma {:induction false} RecentAreRecent(hits: seq<real>, now: real, window: real)
    ensures forall t | t in Recent(hits, now, window) :: now - t < window
    ensures (forall i | 0 <= i < |hits| :: now - hits[i] < window) ==> Recent(hits, now, window) == hits
  {
    if hits != [] {
      assert forall i | 1 <= i < |hits| :: hits[i] == hits[1..][i - 1];
      RecentAreRecent(hits[1..], now, window);
      assert hits == [hits[0]] + hits[1..];
    }
  }

  /** In a sorted bucket the recent hits are a suffix. */
  lemma {:induction false} RecentIsSuffix(hits: seq<real>, now: real, window: real)
    requires Sorted(hits)
    ensures var r := Recent(hits, now, window);
            |r| <= |hits| && r == hits[|hits| - |r|..]
    ensures forall i | 0 <= i < |hits| - |Recent(hits, now, window)| :: now - hits[i] >= window
    ensures forall t | t in Recent(hits, now, window) :: now - t < window
  {
    RecentAreRecent(hits, now, window);
    if hits != [] && now - hits[0] >= window {
      var tail := hits[1..];
      assert Recent(hits, now, window) == Recent(tail, now, window);
      hide Recent;
      RecentIsSuffix(tail, now, window);
      var r := Recent(tail, now, window);
      assert tail[|tail| - |r|..] == hits[|hits| - |r|..];
      assert forall i | 1 <= i < |hits| :: hits[i] == tail[i - 1];
    }
  }

  lemma {:induction false} RecentAppend(a: seq<real>, b: seq<real>, now: real, window: real)
    ensures Recent(a + b, now, window) == Recent(a, now, window) + Recent(b, now, window)
  {
    if a == [] {
      assert a + b == b;
    } else {
      assert (a + b)[1..] == a[1..] + b;
      RecentAppend(a[1..], b, now, window);
    }
  }

  /** Pruning once does not change what a later prune leaves. */
  lemma {:induction false} PruneAgain(hits: seq<real>, now: real, later: real, window: real)
    requires now <= later
    ensures Recent(Recent(hits, now, window), later, window) == Recent(hits, later, window)
  {
    if hits != [] {
      PruneAgain(hits[1..], now, later, window);
      RecentAppend(if now - hits[0] < window then [hits[0]] else [], Recent(hits[1..], now, window), later, window);
    }
  }

  // ---------------------------------------------------------------- the dictionary

  function Put(st: Store, key: string, hits: seq<real>): Store {
    Store(st.hits[key := hits], if key in st.hits then st.order else st.order + [key])
  }

  function Without(order: seq<string>, key: string): seq<string> {
    RemoveFirst(order, key)
  }

  function Delete(st: Store, key: string): Store {
    Store(st.hits - {key}, Without(st.order, key))
  }

  function DeleteAll(st: Store, keys: seq<string>): Store
    decreases |keys|
  {
    if keys == [] then st else DeleteAll(Delete(st, keys[0]), keys[1..])
  }

  function LastHit(st: Store, key: string): real
    requires key in st.hits && st.hits[key] != []
  {
    st.hits[key][|st.hits[key]| - 1]
  }

  predicate Expired(st: Store, key: string, now: real, window: real)
    requires key in st.hits
  {
    st.hits[key] == [] || now - st.hits[key][|st.hits[key]| - 1] >= window
  }

  ghost predicate StoreOk(st: Store) {
    && Distinct(st.order)
    && (forall key :: key in st.order <==> key in st.hits)
    && (forall key | key in st.hits :: st.hits[key] != [])
  }

  function ExpiredKeys(st: Store, order: seq<string>, now: real, window: real): seq<string>
    requires forall key | key in order :: key in st.hits
  {
    if order == [] then []
    else (if Expired(st, order[0], now, window) then [order[0]] else [])
         + ExpiredKeys(st, order[1..], now, window)
  }

  lemma ExpiredFrom(st: Store, order: seq<string>, i: nat, now: real, window: real)
    requires i < |order| && forall key | key in order[i..] :: key in st.hits
    ensures order[i] in st.hits && forall key | key in order[i + 1..] :: key in st.hits
    ensures var rest := ExpiredKeys(st, order[i + 1..], now, window);
            ExpiredKeys(st, order[i..], now, window)
            == if Expired(st, order[i], now, window) then [order[i]] + rest else rest
  {
    assert order[i..] == [order[i]] + order[i + 1..] && order[i..][1..] == order[i + 1..];
    assert order[i] in order[i..];
  }

  /** `sorted(items, key=last hit)`: stable, so keys with the same last hit keep their order. */
  function Insert(st: Store, sorted: seq<string>, key: string): seq<string>
    requires forall k | k in sorted :: k in st.hits && st.hits[k] != []
    requires key in st.hits && st.hits[key] != []
  {
    if sorted == [] then [key]
    else if LastHit(st, sorted[|sorted| - 1]) <= LastHit(st, key) then sorted + [key]
    else Insert(st, sorted[..|sorted| - 1], key) + [sorted[|sorted| - 1]]
  }

  function ByLastHit(st: Store, order: seq<string>): (sorted: seq<string>)
    requires forall k | k in order :: k in st.hits && st.hits[k] != []
    ensures forall k :: k in sorted <==> k in order
    ensures |sorted| == |order|
  {
    if order == [] then []
    else
      var front := ByLastHit(st, order[..|order| - 1]);
      assert order == order[..|order| - 1] + [order[|order| - 1]];
      InsertHolds(st, front, order[|order| - 1]);
      Insert(st, front, order[|order| - 1])
  }

  lemma InsertHolds(st: Store, sorted: seq<string>, key: string)
    requires forall k | k in sorted :: k in st.hits && st.hits[k] != []
    requires key in st.hits && st.hits[key] != []
    ensures |Insert(st, sorted, key)| == |sorted| + 1
    ensures forall k :: k in Insert(st, sorted, key) <==> k in sorted || k == key
  {
    if sorted != [] && LastHit(st, sorted[|sorted| - 1]) > LastHit(st, key) {
      InsertHolds(st, sorted[..|sorted| - 1], key);
      assert sorted == sorted[..|sorted| - 1] + [sorted[|sorted| - 1]];
    }
  }

  // ---------------------------------------------------------------- deleting keys

  lemma {:induction false} WithoutHolds(order: seq<string>, key: string)
    requires Distinct(order)
    ensures Distinct(Without(order, key)) && (forall k :: k in Without(order, key) <==> k in order && k != key)
    ensures key in order ==> |Without(order, key)| == |order| - 1
  {
    if order != [] {
      assert order == [order[0]] + order[1..];
      assert forall i | 1 <= i < |order| :: order[i] != order[0];
      WithoutHolds(order[1..], key);
      if order[0] != key {
        var rest := Without(order[1..], key);
        assert Without(order, key) == [order[0]] + rest;
        assert forall k | k in rest :: k in order[1..];
        forall i, j | 0 <= i < j < |rest| + 1 ensures ([order[0]] + rest)[i] != ([order[0]] + rest)[j] {
          if i == 0 { assert rest[j - 1] in order[1..]; }
        }
      }
    }
  }

  lemma {:induction false} DeleteAllHolds(st: Store, keys: seq<string>)
    requires StoreOk(st) && Distinct(keys) && forall k | k in keys :: k in st.hits
    ensures var r := DeleteAll(st, keys);
            && StoreOk(r) && |r.order| == |st.order| - |keys|
            && (forall k :: k in r.hits <==> k in st.hits && k !in keys)
            && (forall k | k in r.hits :: r.hits[k] == st.hits[k])
    decreases |keys|
  {
    if keys != [] {
      WithoutHolds(st.order, keys[0]);
      assert keys == [keys[0]] + keys[1..];
      assert keys[0] !in keys[1..];
      DeleteAllHolds(Delete(st, keys[0]), keys[1..]);
    }
  }

  lemma {:induction false} ExpiredKeysHold(st: Store, order: seq<string>, now: real, window: real)
    requires Distinct(order) && forall k | k in order :: k in st.hits
    ensures var e := ExpiredKeys(st, order, now, window);
            Distinct(e) && forall k :: k in e <==> k in order && Expired(st, k, now, window)
  {
    if order != [] {
      assert order == [order[0]] + order[1..];
      assert order[0] !in order[1..];
      ExpiredKeysHold(st, order[1..], now, window);
      var rest := ExpiredKeys(st, order[1..], now, window);
      if Expired(st, order[0], now, window) {
        assert order[0] !in rest;
      }
    }
  }

  lemma {:induction false} InsertDistinct(st: Store, sorted: seq<string>, key: string)
    requires forall k | k in sorted :: k in st.hits && st.hits[k] != []
    requires key in st.hits && st.hits[key] != []
    requires Distinct(sorted) && key !in sorted
    ensures Distinct(Insert(st, sorted, key))
  {
    if sorted != [] && LastHit(st, sorted[|sorted| - 1]) > LastHit(st, key) {
      var front, last := sorted[..|sorted| - 1], sorted[|sorted| - 1];
      assert sorted == front + [last];
      InsertDistinct(st, front, key);
      InsertHolds(st, front, key);
      assert last !in front;
      assert last !in Insert(st, front, key);
    }
  }

  lemma {:induction false} ByLastHitDistinct(st: Store, order: seq<string>)
    requires forall k | k in order :: k in st.hits && st.hits[k] != []
    requires Distinct(order)
    ensures Distinct(ByLastHit(st, order))
  {
    if order != [] {
      var front, last := order[..|order| - 1], order[|order| - 1];
      assert order == front + [last];
      ByLastHitDistinct(st, front);
      InsertDistinct(st, ByLastHit(st, front), last);
    }
  }

  // ---------------------------------------------------------------- the limiter as a function

  function Min(a: int, b: int): int {
    if a < b then a else b
  }

  /** _evict: drop the expired keys, then the ones that were hit longest ago while over the cap. */
  ghost function Evicted(c: Config, st: Store, now: real): Store
    requires StoreOk(st)
  {
    ExpiredKeysHold(st, st.order, now, c.window);
    DeleteAllHolds(st, ExpiredKeys(st, st.order, now, c.window));
    var live := DeleteAll(st, ExpiredKeys(st, st.order, now, c.window));
    var overflow := |live.order| - c.maxKeys;
    if overflow > 0 then DeleteAll(live, ByLastHit(live, live.order)[..Min(overflow, |live.order|)]) else live
  }

  /** int(window - (now - oldest)) + 1, for a hit that is still inside the window. */
  function RetryAfter(window: real, now: real, oldest: real): int {
    (window - (now - oldest)).Floor + 1
  }

  ghost function Checked(c: Config, st: Store, key: string, now: real): Outcome
    requires ConfigOk(c) && StoreOk(st)
  {
    var hits := Recent(Bucket(st.hits, key), now, c.window);
    if |hits| >= c.max then Outcome(Put(st, key, hits), false, RetryAfter(c.window, now, hits[0]))
    else
      var put := Put(st, key, hits + [now]);
      Outcome(if |put.order| > c.maxKeys then Evicted(c, put, now) else put, true, 0)
  }

  lemma PutOk(st: Store, key: string, hits: seq<real>)
    requires StoreOk(st) && hits != []
    ensures StoreOk(Put(st, key, hits))
  {
  }

  lemma EvictedOk(c: Config, st: Store, now: real)
    requires StoreOk(st)
    ensures StoreOk(Evicted(c, st, now))
    ensures forall k | k in Evicted(c, st, now).hits :: k in st.hits && Evicted(c, st, now).hits[k] == st.hits[k]
    ensures |Evicted(c, st, now).order| <= (if c.maxKeys < 0 then 0 else c.maxKeys)
  {
    hide ExpiredKeys, DeleteAll, ByLastHit;
    var expired := ExpiredKeys(st, st.order, now, c.window);
    ExpiredKeysHold(st, st.order, now, c.window);
    DeleteAllHolds(st, expired);
    var live := DeleteAll(st, expired);
    var overflow := |live.order| - c.maxKeys;
    if overflow > 0 {
      var sorted := ByLastHit(live, live.order);
      ByLastHitDistinct(live, live.order);
      var oldest := sorted[..Min(overflow, |live.order|)];
      assert forall k | k in oldest :: k in sorted;
      DeleteAllHolds(live, oldest);
    }
  }

  // ---------------------------------------------------------------- the limiter as it is written

  class RateLimiter {
    const max: int
    const window: real
    const maxKeys: int
    var hits: map<string, seq<real>>
    var order: seq<string>

    constructor (max: int, window: real, maxKeys: int)
      requires max >= 1 && window > 0.0
      ensures Valid() && Contents() == Store(map[], []) && Settings() == Config(max, window, maxKeys)
    {
      this.max, this.window, this.maxKeys := max, window, maxKeys;
      hits, order := map[], [];
    }

    function Settings(): Config {
      Config(max, window, maxKeys)
    }

    function Contents(): Store
      reads this
    {
      Store(hits, order)
    }

    ghost predicate Valid()
      reads this
    {
      ConfigOk(Settings()) && StoreOk(Contents())
    }

    method Assign(key: string, bucket: seq<real>)
      requires Valid() && bucket != []
      modifies this
      ensures Valid() && Contents() == Put(old(Contents()), key, bucket)
    {
      PutOk(Contents(), key, bucket);
      if key !in hits {
        order := order + [key];
      }
      hits := hits[key := bucket];
    }

    method Remove(key: string)
      requires Valid() && key in hits
      modifies this
      ensures Valid() && Contents() == Delete(old(Contents()), key)
    {
      WithoutHolds(order, key);
      order, hits := Without(order, key), hits - {key};
    }

    method RemoveAll(keys: seq<string>)
      requires Valid() && Distinct(keys) && forall k | k in keys :: k in hits
      modifies this
      ensures Valid() && Contents() == DeleteAll(old(Contents()), keys)
    {
      assert keys[0..] == keys;
      for i := 0 to |keys|
        invariant Valid()
        invariant forall k | k in keys[i..] :: k in hits
        invariant DeleteAll(Contents(), keys[i..]) == DeleteAll(old(Contents()), keys)
      {
        assert keys[i..] == [keys[i]] + keys[i + 1..];
        assert keys[i] !in keys[i + 1..];
        Remove(keys[i]);
      }
      assert keys[|keys|..] == [];
    }

    method CollectExpired(now: real) returns (expired: seq<string>)
      requires Valid()
      ensures expired == ExpiredKeys(Contents(), order, now, window)
    {
      expired := [];
      ghost var rest := ExpiredKeys(Contents(), order, now, window);
      assert order[0..] == order && ExpiredKeys(Contents(), [], now, window) == [];
      hide ExpiredKeys;
      for i := 0 to |order|
        invariant forall k | k in order[i..] :: k in hits
        invariant rest == ExpiredKeys(Contents(), order[i..], now, window)
        invariant expired + rest == ExpiredKeys(Contents(), order, now, window)
      {
        var k := order[i];
        ExpiredFrom(Contents(), order, i, now, window);
        rest := ExpiredKeys(Contents(), order[i + 1..], now, window);
        assert (expired + [k]) + rest == expired + ([k] + rest);
        if hits[k] == [] || now - hits[k][|hits[k]| - 1] >= window {
          expired := expired + [k];
        }
      }
      assert order[|order|..] == [];
    }

    method Evict(now: real)
      requires Valid()
      modifies this
      ensures Valid() && Contents() == Evicted(Settings(), old(Contents()), now)
    {
      hide ExpiredKeys, DeleteAll, ByLastHit;
      ExpiredKeysHold(Contents(), order, now, window);
      var expired := CollectExpired(now);
      RemoveAll(expired);
      var overflow := |order| - maxKeys;
      if overflow > 0 {
        var sorted := ByLastHit(Contents(), order);
        ByLastHitDistinct(Contents(), order);
        var oldest := sorted[..Min(overflow, |order|)];
        assert forall k | k in oldest :: k in sorted;
        RemoveAll(oldest);
      }
    }

    /** [t for t in hits if now - t < window] */
    method Prune(bucket: seq<real>, now: real) returns (kept: seq<real>)
      ensures kept == Recent(bucket, now, window)
    {
      kept := [];
      assert bucket[0..] == bucket;
      for i := 0 to |bucket|
        invariant kept + Recent(bucket[i..], now, window) == Recent(bucket, now, window)
      {
        assert bucket[i..][1..] == bucket[i + 1..];
        if now - bucket[i] < window {
          kept := kept + [bucket[i]];
        }
      }
      assert bucket[|bucket|..] == [];
    }

    /** (allowed, retry_after_seconds), and the dictionary afterwards. */
    method Check(key: string, now: real) returns (allowed: bool, retryAfter: int)
      requires Valid()
      modifies this
      ensures Valid()
      ensures Outcome(Contents(), allowed, retryAfter) == Checked(Settings(), old(Contents()), key, now)
    {
      hide Recent, Evicted, StoreOk;
      var kept := Prune(Bucket(hits, key), now);
      if |kept| >= max {
        retryAfter := (window - (now - kept[0])).Floor + 1;
        Assign(key, kept);
        return false, retryAfter;
      }
      Assign(key, kept + [now]);
      if |order| > maxKeys {
        Evict(now);
      }
      return true, 0;
    }
  }
}
