/**
  The time-to-live cache with its queue of generations
  (src/basilisp/core_cache.py:281-379). Times are milliseconds of a clock that
  does not go back.
*/
module TtlCache {
  import opened Prelude

  type K(==, !new)
  type V(!new)

  datatype Stamp = Stamp(gen: nat, at: int)

  datatype Rec = Rec(key: K, gen: nat, at: int)

  datatype Cache = Cache(cache: map<K, V>, ttl: map<K, Stamp>, q: seq<Rec>, gen: nat, ttlMs: nat)

  function Empty(ttlMs: nat): Cache { Cache(map[], map[], [], 0, ttlMs) }

  /** `cache_has`: an entry is visible while it is younger than the ttl. */
  predicate Has(c: Cache, now: int, k: K) {
    var created: int := if k in c.ttl then c.ttl[k].at else 0 - c.ttlMs;
    k in c.cache && now - created < c.ttlMs
  }

  function Lookup(c: Cache, now: int, k: K): Option<V> { if Has(c, now, k) then Some(c.cache[k]) else None }

  /** How many records at the front of the queue are older than the ttl. */
  function Expired(q: seq<Rec>, now: int, ttlMs: nat): (n: nat)
    ensures n <= |q|
    ensures forall i :: 0 <= i < n ==> now - q[i].at > ttlMs
    ensures n < |q| ==> now - q[n].at <= ttlMs
  {
    if q == [] || now - q[0].at <= ttlMs then 0 else 1 + Expired(q[1..], now, ttlMs)
  }

  /** The keys whose current generation is among the expired records. */
  function StaleKeys(c: Cache, now: int): set<K> {
    set k <- c.ttl.Keys |
      exists i :: 0 <= i < Expired(c.q, now, c.ttlMs) && c.q[i].key == k && c.q[i].gen == c.ttl[k].gen
  }

  /** `cache_miss`. */
  function Miss(c: Cache, now: int, k: K, v: V): Cache {
    var stale := StaleKeys(c, now);
    Cache(
      (c.cache - stale)[k := v],
      (c.ttl - stale)[k := Stamp(c.gen, now)],
      c.q[Expired(c.q, now, c.ttlMs)..] + [Rec(k, c.gen, now)],
      c.gen + 1,
      c.ttlMs)
  }

  /** `cache_evict`. */
  function Evict(c: Cache, k: K): Cache { c.(cache := c.cache - {k}, ttl := c.ttl - {k}) }

  /** `cache_seed`; `order` is the iteration order of `base`. */
  function Seed(c: Cache, now: int, base: map<K, V>, order: seq<K>): Cache {
    Cache(
      base,
      map k | k in base :: Stamp(c.gen, now),
      c.q + seq(|order|, i requires 0 <= i < |order| => Rec(order[i], c.gen, now)),
      c.gen + 1,
      c.ttlMs)
  }

  /** `_prune`. */
  method Prune(c: Cache, now: int) returns (stale: set<K>, queue: seq<Rec>)
    ensures stale == StaleKeys(c, now)
    ensures queue == c.q[Expired(c.q, now, c.ttlMs)..]
  {
    queue, stale := c.q, {};
    ghost var n := 0;
    while queue != [] && now - queue[0].at > c.ttlMs
      invariant n <= |c.q| && queue == c.q[n..]
      invariant n + Expired(queue, now, c.ttlMs) == Expired(c.q, now, c.ttlMs)
      invariant forall k :: k in stale <==>
        k in c.ttl && exists i :: 0 <= i < n && c.q[i].key == k && c.q[i].gen == c.ttl[k].gen
      decreases |queue|
    {
      var rec := queue[0];
      queue := queue[1..];
      if rec.key in c.ttl && c.ttl[rec.key].gen == rec.gen {
        stale := stale + {rec.key};
      }
      n := n + 1;
    }
  }

  // ------------------------------------------------------------------
  // What every operation keeps

  /** The record of an entry's own generation. */
  predicate Recorded(q: seq<Rec>, k: K, s: Stamp) { Rec(k, s.gen, s.at) in q }

  /** Records in time order, none later than `clock`, and one time for each key and generation. */
  ghost predicate QueueOk(q: seq<Rec>, gen: nat, clock: int) {
    && (forall i, j :: 0 <= i < j < |q| ==> q[i].at <= q[j].at)
    && (forall i :: 0 <= i < |q| ==> q[i].at <= clock && q[i].gen < gen)
    && (forall i, j :: 0 <= i < |q| && 0 <= j < |q| && q[i].key == q[j].key && q[i].gen == q[j].gen ==>
          q[i].at == q[j].at)
  }

  /** `clock` is the time of the last operation. */
  ghost predicate Valid(c: Cache, clock: int) {
    && c.cache.Keys == c.ttl.Keys
    && (forall k :: k in c.ttl ==> Recorded(c.q, k, c.ttl[k]))
    && QueueOk(c.q, c.gen, clock)
  }

  /** Dropping records at the front and adding new ones of one new generation at the end. */
  lemma QueueMoves(q: seq<Rec>, n: nat, gen: nat, clock: int, keys: seq<K>, now: int)
    requires QueueOk(q, gen, clock) && n <= |q| && clock <= now
    ensures QueueOk(q[n..] + seq(|keys|, i requires 0 <= i < |keys| => Rec(keys[i], gen, now)), gen + 1, now)
  {
    var more := seq(|keys|, i requires 0 <= i < |keys| => Rec(keys[i], gen, now));
    var (q0, q1) := (q[n..], q[n..] + more);
    assert forall i :: 0 <= i < |q0| ==> q1[i] == q[n + i];
    assert forall i :: |q0| <= i < |q1| ==> q1[i] == more[i - |q0|];
    forall i, j | 0 <= i < |q1| && 0 <= j < |q1| && q1[i].key == q1[j].key && q1[i].gen == q1[j].gen
      ensures q1[i].at == q1[j].at
    {
      if i < |q0| && j < |q0| {
        assert q[n + i] == q1[i] && q[n + j] == q1[j];
      }
    }
  }

  /** A key is stale exactly when its entry is older than the ttl. */
  lemma StaleIsOld(c: Cache, clock: int, now: int, k: K)
    requires Valid(c, clock) && k in c.ttl
    ensures k in StaleKeys(c, now) <==> now - c.ttl[k].at > c.ttlMs
  {
    var n := Expired(c.q, now, c.ttlMs);
    var s := c.ttl[k];
    assert Recorded(c.q, k, s);
    hide Recorded;
    var j :| 0 <= j < |c.q| && c.q[j] == Rec(k, s.gen, s.at);
    assert n < j ==> c.q[n].at <= c.q[j].at;
    assert now - s.at > c.ttlMs ==> j < n;
    if k in StaleKeys(c, now) {
      var i :| 0 <= i < n && c.q[i].key == k && c.q[i].gen == s.gen;
      assert c.q[i].at == c.q[j].at;
    }
  }

  lemma MissValid(c: Cache, clock: int, now: int, k: K, v: V)
    requires Valid(c, clock) && clock <= now
    ensures Valid(Miss(c, now, k, v), now)
  {
    var c1 := Miss(c, now, k, v);
    var n := Expired(c.q, now, c.ttlMs);
    assert QueueOk(c1.q, c1.gen, now) by {
      QueueMoves(c.q, n, c.gen, clock, [k], now);
      assert c1.q == c.q[n..] + seq(|[k]|, i requires 0 <= i < |[k]| => Rec([k][i], c.gen, now));
    }
    forall x | x in c1.ttl ensures Recorded(c1.q, x, c1.ttl[x]) {
      hide QueueOk;
      if x == k {
        assert c1.q[|c1.q| - 1] == Rec(k, c.gen, now);
      }
    }
  }

  lemma EvictValid(c: Cache, clock: int, k: K)
    requires Valid(c, clock)
    ensures Valid(Evict(c, k), clock)
  {
    assert forall x :: x in Evict(c, k).ttl ==> Recorded(c.q, x, c.ttl[x]);
  }

  lemma SeedRecords(q: seq<Rec>, order: seq<K>, gen: nat, now: int, k: K)
    requires k in order
    ensures Recorded(q + seq(|order|, i requires 0 <= i < |order| => Rec(order[i], gen, now)), k, Stamp(gen, now))
  {
    var i :| 0 <= i < |order| && order[i] == k;
    assert (q + seq(|order|, i requires 0 <= i < |order| => Rec(order[i], gen, now)))[|q| + i] == Rec(k, gen, now);
  }

  lemma SeedValid(c: Cache, clock: int, now: int, base: map<K, V>, order: seq<K>)
    requires Valid(c, clock) && clock <= now && forall k :: k in base <==> k in order
    ensures Valid(Seed(c, now, base, order), now)
  {
    var c1 := Seed(c, now, base, order);
    QueueMoves(c.q, 0, c.gen, clock, order, now);
    assert c.q[0..] == c.q;
    hide QueueOk, Recorded;
    forall k | k in c1.ttl ensures Recorded(c1.q, k, c1.ttl[k]) {
      SeedRecords(c.q, order, c.gen, now, k);
    }
  }

  // ------------------------------------------------------------------
  // The reference policy: each key with its value and the time it was written

  datatype Item = Item(value: V, at: int)

  ghost function Contents(c: Cache): map<K, Item>
    requires c.cache.Keys == c.ttl.Keys
  {
    map k | k in c.cache :: Item(c.cache[k], c.ttl[k].at)
  }

  /** The reference miss: entries older than the ttl go, and the key gets its value. */
  ghost function Refreshed(r: map<K, Item>, now: int, ttlMs: nat, k: K, v: V): map<K, Item> {
    (map x | x in r && now - r[x].at <= ttlMs :: r[x])[k := Item(v, now)]
  }

  lemma MissAt(c: Cache, clock: int, now: int, k: K, v: V, x: K)
    requires Valid(c, clock)
    ensures var c1 := Miss(c, now, k, v);
      && (x in c1.cache <==> x in c1.ttl)
      && (x in c1.cache <==> x == k || (x in c.cache && now - c.ttl[x].at <= c.ttlMs))
      && (x in c1.cache ==> c1.cache[x] == (if x == k then v else c.cache[x]))
      && (x in c1.cache ==> c1.ttl[x] == if x == k then Stamp(c.gen, now) else c.ttl[x])
  {
    if x in c.ttl {
      StaleIsOld(c, clock, now, x);
    }
    hide StaleKeys, QueueOk, Recorded;
  }

  /** A miss drops exactly the entries older than the ttl, whatever became of their keys since, and adds its own. */
  lemma MissDropsOld(c: Cache, clock: int, now: int, k: K, v: V)
    requires Valid(c, clock) && clock <= now
    ensures Valid(Miss(c, now, k, v), now)
    ensures Contents(Miss(c, now, k, v)) == Refreshed(Contents(c), now, c.ttlMs, k, v)
  {
    MissValid(c, clock, now, k, v);
    var (r, r1) := (Contents(Miss(c, now, k, v)), Refreshed(Contents(c), now, c.ttlMs, k, v));
    hide QueueOk, Recorded;
    forall x ensures x in r <==> x in r1 {
      MissAt(c, clock, now, k, v, x);
    }
    forall x | x in r ensures r[x] == r1[x] {
      MissAt(c, clock, now, k, v, x);
    }
  }

  // ------------------------------------------------------------------
  // Runs: what a lookup sees depends only on the last write to its key

  datatype Event =
    | Missed(key: K, value: V, at: int)
    | Evicted(key: K)
    | Seeded(base: map<K, V>, order: seq<K>, at: int)

  /** The time of the last event with one; `start` is any time before the first, negative or not. */
  function Clock(start: int, run: seq<Event>): int {
    if run == [] then start
    else
      match run[|run| - 1]
      case Missed(_, _, at) => at
      case Seeded(_, _, at) => at
      case Evicted(_) => Clock(start, run[..|run| - 1])
  }

  /** The clock never goes back, and a seed lists its keys. */
  ghost predicate Timed(start: int, run: seq<Event>) {
    run == [] ||
    (Timed(start, run[..|run| - 1]) && Clock(start, run[..|run| - 1]) <= Clock(start, run) &&
     match run[|run| - 1]
     case Seeded(base, order, _) => forall k :: k in base <==> k in order
     case _ => true)
  }

  function Exec(ttlMs: nat, run: seq<Event>): Cache {
    if run == [] then Empty(ttlMs)
    else
      var c := Exec(ttlMs, run[..|run| - 1]);
      match run[|run| - 1]
      case Missed(k, v, at) => Miss(c, at, k, v)
      case Evicted(k) => Evict(c, k)
      case Seeded(base, order, at) => Seed(c, at, base, order)
  }

  /** The last write to a key that no eviction or seed has undone. */
  function LastWrite(run: seq<Event>, k: K): Option<Item> {
    if run == [] then None
    else
      match run[|run| - 1]
      case Missed(k1, v, at) => if k1 == k then Some(Item(v, at)) else LastWrite(run[..|run| - 1], k)
      case Evicted(k1) => if k1 == k then None else LastWrite(run[..|run| - 1], k)
      case Seeded(base, _, at) => if k in base then Some(Item(base[k], at)) else None
  }

  lemma {:induction false} RunValid(start: int, ttlMs: nat, run: seq<Event>)
    requires Timed(start, run)
    ensures Valid(Exec(ttlMs, run), Clock(start, run)) && Exec(ttlMs, run).ttlMs == ttlMs
  {
    if run != [] {
      var before := run[..|run| - 1];
      RunValid(start, ttlMs, before);
      var c := Exec(ttlMs, before);
      hide Valid, Miss, Evict, Seed;
      match run[|run| - 1]
      case Missed(k, v, at) =>
        MissDropsOld(c, Clock(start, before), at, k, v);
      case Evicted(k) =>
        EvictValid(c, Clock(start, before), k);
      case Seeded(base, order, at) =>
        SeedValid(c, Clock(start, before), at, base, order);
    }
  }

  /**
    An entry is the last write to its key, and a last write without an entry
    is older than the ttl: refreshed, evicted and reseeded keys are never
    touched by their older records.
  */
  ghost predicate Faithful(c: Cache, clock: int, k: K, w: Option<Item>)
    requires c.cache.Keys == c.ttl.Keys
  {
    if k in c.cache then w == Some(Item(c.cache[k], c.ttl[k].at))
    else w.Some? ==> clock - w.value.at > c.ttlMs
  }

  lemma {:induction false} RunFaithful(start: int, ttlMs: nat, run: seq<Event>, k: K)
    requires Timed(start, run)
    ensures Valid(Exec(ttlMs, run), Clock(start, run)) && Exec(ttlMs, run).ttlMs == ttlMs
    ensures Faithful(Exec(ttlMs, run), Clock(start, run), k, LastWrite(run, k))
  {
    RunValid(start, ttlMs, run);
    if run != [] {
      var before := run[..|run| - 1];
      RunFaithful(start, ttlMs, before, k);
      var c := Exec(ttlMs, before);
      hide StaleKeys, QueueOk, Recorded, Miss;
      match run[|run| - 1]
      case Missed(k1, v, at) => MissAt(c, Clock(start, before), at, k1, v, k);
      case _ =>
    }
  }

  /** At any later time, a lookup finds the last write to its key exactly while that is younger than the ttl. */
  lemma LookupIsLastWrite(start: int, ttlMs: nat, run: seq<Event>, now: int, k: K)
    requires Timed(start, run) && Clock(start, run) <= now
    ensures Lookup(Exec(ttlMs, run), now, k) ==
      match LastWrite(run, k) {
        case Some(w) => if now - w.at < ttlMs then Some(w.value) else None
        case None => None
      }
  {
    RunFaithful(start, ttlMs, run, k);
    assert Faithful(Exec(ttlMs, run), Clock(start, run), k, LastWrite(run, k));
  }
}
