/**
  The least-recently-used cache and its atomic wrapper
  (src/basilisp/core_cache.py:222-278, 627-674).

  The tick table is an ordered dictionary: a new key goes to its end, a key
  that is present keeps its place, and a tie between ticks is won by the
  earlier key.
*/
module LruCache {
  import opened Prelude

  type K(==, !new)
  type V(!new)
  type Exn(!new)

  datatype Tick = Tick(key: K, at: nat)

  /** The constructor refuses any other limit. */
  type Limit = n: int | 0 < n witness 1

  datatype Cache = Cache(cache: map<K, V>, lru: seq<Tick>, tick: nat, limit: Limit)

  /** Where a key is in the table, or the table's length. */
  function IndexOf(lru: seq<Tick>, k: K): (i: nat)
    ensures i <= |lru|
    ensures i < |lru| ==> lru[i].key == k
    ensures forall j :: 0 <= j < i ==> lru[j].key != k
  {
    if lru == [] then 0 else if lru[0].key == k then 0 else 1 + IndexOf(lru[1..], k)
  }

  predicate InTable(lru: seq<Tick>, k: K) { IndexOf(lru, k) < |lru| }

  /** `lru[k] = at`. */
  function Put(lru: seq<Tick>, k: K, at: nat): seq<Tick> {
    var i := IndexOf(lru, k);
    if i < |lru| then lru[i := Tick(k, at)] else lru + [Tick(k, at)]
  }

  /** `lru.pop(k, None)`. */
  function Pop(lru: seq<Tick>, k: K): seq<Tick> {
    var i := IndexOf(lru, k);
    if i < |lru| then lru[..i] + lru[i + 1..] else lru
  }

  /** `min(lru, key=lru.__getitem__)`: the first key with the least tick. */
  function Oldest(lru: seq<Tick>): (i: nat)
    requires lru != []
    ensures i < |lru|
    ensures forall j :: 0 <= j < i ==> lru[j].at > lru[i].at
    ensures forall j :: i <= j < |lru| ==> lru[j].at >= lru[i].at
  {
    if |lru| == 1 then 0
    else
      var i := 1 + Oldest(lru[1..]);
      if lru[0].at <= lru[i].at then 0 else i
  }

  function Hit(c: Cache, k: K): Cache {
    c.(tick := c.tick + 1, lru := if k in c.cache then Put(c.lru, k, c.tick + 1) else c.lru)
  }

  function Miss(c: Cache, k: K, v: V): Cache {
    var tick := c.tick + 1;
    if |c.lru| >= c.limit then
      var victim := if InTable(c.lru, k) then k else c.lru[Oldest(c.lru)].key;
      Cache((c.cache - {victim})[k := v], Put(Pop(c.lru, victim), k, tick), tick, c.limit)
    else Cache(c.cache[k := v], Put(c.lru, k, tick), tick, c.limit)
  }

  function Evict(c: Cache, k: K): Cache {
    if k !in c.cache then c else c.(cache := c.cache - {k}, lru := Pop(c.lru, k), tick := c.tick + 1)
  }

  /** `base` lists the entries in iteration order. */
  function Seed(c: Cache, base: map<K, V>, order: seq<K>): Cache {
    Cache(base, seq(|order|, i requires 0 <= i < |order| => Tick(order[i], 0)), 0, c.limit)
  }

  // ------------------------------------------------------------------
  // The reference policy: a queue of keys, least recently used first

  function Remove(q: seq<K>, k: K): seq<K> {
    if q == [] then [] else if q[0] == k then Remove(q[1..], k) else [q[0]] + Remove(q[1..], k)
  }

  function QHit(q: seq<K>, k: K): seq<K> { if k in q then Remove(q, k) + [k] else q }

  function QMiss(q: seq<K>, limit: Limit, k: K): seq<K> {
    Remove(if |q| >= limit && k !in q then q[1..] else q, k) + [k]
  }

  predicate NoDup(q: seq<K>) { forall i, j :: 0 <= i < j < |q| ==> q[i] != q[j] }

  predicate KeysDiffer(lru: seq<Tick>) { forall i, j :: 0 <= i < j < |lru| ==> lru[i].key != lru[j].key }

  predicate Precedes(q: seq<K>, x: K, y: K) { exists i, j :: 0 <= i < j < |q| && q[i] == x && q[j] == y }

  /** The table says that `x` was used before `y`. */
  predicate Earlier(lru: seq<Tick>, x: K, y: K) {
    && InTable(lru, x) && InTable(lru, y)
    && var (i, j) := (IndexOf(lru, x), IndexOf(lru, y));
       lru[i].at < lru[j].at || (lru[i].at == lru[j].at && i < j)
  }

  /** The table orders its keys as the queue does. */
  ghost predicate Represents(lru: seq<Tick>, q: seq<K>) {
    && KeysDiffer(lru) && NoDup(q) && |q| == |lru|
    && (forall x :: x in q <==> InTable(lru, x))
    && (forall x, y :: Precedes(q, x, y) ==> Earlier(lru, x, y))
  }

  lemma {:induction false} RemoveIn(q: seq<K>, k: K)
    requires NoDup(q)
    ensures forall x :: x in Remove(q, k) <==> x in q && x != k
    ensures NoDup(Remove(q, k)) && |Remove(q, k)| == |q| - (if k in q then 1 else 0)
  {
    if q != [] {
      var (head, tail) := (q[0], q[1..]);
      assert q == [head] + tail;
      assert head !in tail;
      RemoveIn(tail, k);
    }
  }

  lemma {:induction false} RemoveKeepsOrder(q: seq<K>, k: K, i: nat, j: nat) returns (i1: nat, j1: nat)
    requires i < j < |Remove(q, k)|
    ensures i1 < j1 < |q| && q[i1] == Remove(q, k)[i] && q[j1] == Remove(q, k)[j]
  {
    if q[0] == k {
      i1, j1 := RemoveKeepsOrder(q[1..], k, i, j);
      i1, j1 := i1 + 1, j1 + 1;
    } else if i > 0 {
      i1, j1 := RemoveKeepsOrder(q[1..], k, i - 1, j - 1);
      i1, j1 := i1 + 1, j1 + 1;
    } else {
      j1 := RemoveFinds(q[1..], k, j - 1);
      i1, j1 := 0, j1 + 1;
    }
  }

  lemma {:induction false} RemoveFinds(q: seq<K>, k: K, j: nat) returns (j1: nat)
    requires j < |Remove(q, k)|
    ensures j1 < |q| && q[j1] == Remove(q, k)[j]
  {
    if q[0] == k {
      j1 := RemoveFinds(q[1..], k, j);
      j1 := j1 + 1;
    } else if j > 0 {
      j1 := RemoveFinds(q[1..], k, j - 1);
      j1 := j1 + 1;
    } else {
      j1 := 0;
    }
  }

  lemma RemovePrecedes(q: seq<K>, k: K, x: K, y: K)
    requires NoDup(q) && Precedes(Remove(q, k), x, y)
    ensures Precedes(q, x, y) && x != k && y != k
  {
    RemoveIn(q, k);
    var i, j :| 0 <= i < j < |Remove(q, k)| && Remove(q, k)[i] == x && Remove(q, k)[j] == y;
    var i1, j1 := RemoveKeepsOrder(q, k, i, j);
  }

  lemma {:induction false} IndexOfIs(lru: seq<Tick>, i: nat)
    requires KeysDiffer(lru) && i < |lru|
    ensures IndexOf(lru, lru[i].key) == i
  {
    var k := IndexOf(lru, lru[i].key);
    assert k <= i && lru[k].key == lru[i].key;
  }

  lemma PutTable(lru: seq<Tick>, k: K, at: nat, x: K)
    requires KeysDiffer(lru)
    ensures KeysDiffer(Put(lru, k, at)) && |Put(lru, k, at)| == |lru| + (if InTable(lru, k) then 0 else 1)
    ensures IndexOf(Put(lru, k, at), k) == IndexOf(lru, k) && Put(lru, k, at)[IndexOf(lru, k)] == Tick(k, at)
    ensures x != k && InTable(lru, x) ==>
      IndexOf(Put(lru, k, at), x) == IndexOf(lru, x) && Put(lru, k, at)[IndexOf(lru, x)] == lru[IndexOf(lru, x)]
    ensures x != k ==> (InTable(Put(lru, k, at), x) <==> InTable(lru, x))
  {
    var (r, i) := (Put(lru, k, at), IndexOf(lru, k));
    IndexOfIs(r, i);
    if x != k && InTable(lru, x) {
      IndexOfIs(r, IndexOf(lru, x));
    }
    if InTable(r, x) && x != k {
      IndexOfIs(lru, IndexOf(r, x));
    }
  }

  function Up(p: nat, i: nat): nat { if p >= i then p + 1 else p }

  lemma PopAt(lru: seq<Tick>, k: K)
    ensures |Pop(lru, k)| == |lru| - (if InTable(lru, k) then 1 else 0)
    ensures forall p :: 0 <= p < |Pop(lru, k)| ==> Pop(lru, k)[p] == lru[Up(p, IndexOf(lru, k))]
  {
  }

  lemma PopTable(lru: seq<Tick>, k: K, x: K)
    requires KeysDiffer(lru)
    ensures KeysDiffer(Pop(lru, k)) && |Pop(lru, k)| == |lru| - (if InTable(lru, k) then 1 else 0)
    ensures !InTable(Pop(lru, k), k)
    ensures x != k ==> (InTable(Pop(lru, k), x) <==> InTable(lru, x))
    ensures x != k && InTable(lru, x) ==>
      var (i, j) := (IndexOf(lru, k), IndexOf(lru, x));
      IndexOf(Pop(lru, k), x) == (if j > i then j - 1 else j) && Pop(lru, k)[IndexOf(Pop(lru, k), x)] == lru[j]
  {
    PopAt(lru, k);
    hide Pop, IndexOf;
    var (r, i, j) := (Pop(lru, k), IndexOf(lru, k), IndexOf(lru, x));
    if x != k && j < |lru| {
      var p := if j > i then j - 1 else j;
      assert r[p] == lru[j];
      IndexOfIs(r, p);
    }
  }

  /** Using a key puts it at the end of the queue. */
  lemma PutRepresents(lru: seq<Tick>, q: seq<K>, k: K, at: nat)
    requires Represents(lru, q) && forall i :: 0 <= i < |lru| ==> lru[i].at < at
    ensures Represents(Put(lru, k, at), Remove(q, k) + [k])
  {
    var (lru1, q1) := (Put(lru, k, at), Remove(q, k) + [k]);
    RemoveIn(q, k);
    PutTable(lru, k, at, k);
    hide Put, Remove, IndexOf;
    assert NoDup(q1);
    forall x ensures x in q1 <==> InTable(lru1, x) {
      PutTable(lru, k, at, x);
    }
    forall x, y | Precedes(q1, x, y) ensures Earlier(lru1, x, y) {
      PutTable(lru, k, at, x);
      PutTable(lru, k, at, y);
      if Precedes(Remove(q, k), x, y) {
        RemovePrecedes(q, k, x, y);
        assert Earlier(lru, x, y);
      }
    }
  }

  lemma PopRepresents(lru: seq<Tick>, q: seq<K>, k: K)
    requires Represents(lru, q)
    ensures Represents(Pop(lru, k), Remove(q, k))
  {
    var (lru1, q1) := (Pop(lru, k), Remove(q, k));
    RemoveIn(q, k);
    PopTable(lru, k, k);
    hide Pop, Remove, IndexOf;
    forall x ensures x in q1 <==> InTable(lru1, x) {
      PopTable(lru, k, x);
    }
    forall x, y | Precedes(q1, x, y) ensures Earlier(lru1, x, y) {
      RemovePrecedes(q, k, x, y);
      PopTable(lru, k, x);
      PopTable(lru, k, y);
      assert Earlier(lru, x, y);
    }
  }

  /** The victim is the front of the queue, ties included. */
  lemma OldestIsFront(lru: seq<Tick>, q: seq<K>)
    requires Represents(lru, q) && lru != []
    ensures lru[Oldest(lru)].key == q[0]
  {
    var (i, z) := (Oldest(lru), lru[Oldest(lru)].key);
    IndexOfIs(lru, i);
    assert z in q;
    var j :| 0 <= j < |q| && q[j] == z;
    var front := q[0];
    assert j > 0 ==> Precedes(q, front, z);
  }

  /** The cache holds the keys of the queue, in the queue's order of use. */
  ghost predicate Refines(c: Cache, q: seq<K>) {
    && Represents(c.lru, q)
    && (forall i :: 0 <= i < |c.lru| ==> c.lru[i].at <= c.tick)
    && (forall k :: k in c.cache <==> k in q)
  }

  lemma PutTicks(lru: seq<Tick>, k: K, at: nat)
    requires forall i :: 0 <= i < |lru| ==> lru[i].at <= at
    ensures forall i :: 0 <= i < |Put(lru, k, at)| ==> Put(lru, k, at)[i].at <= at
  {
  }

  lemma PopTicks(lru: seq<Tick>, k: K, at: nat)
    requires forall i :: 0 <= i < |lru| ==> lru[i].at <= at
    ensures forall i :: 0 <= i < |Pop(lru, k)| ==> Pop(lru, k)[i].at <= at
  {
    PopAt(lru, k);
  }

  lemma HitRefines(c: Cache, q: seq<K>, k: K)
    requires Refines(c, q)
    ensures Refines(Hit(c, k), QHit(q, k)) && Hit(c, k).cache == c.cache
  {
    hide Represents, Put, Remove;
    if k in q {
      PutRepresents(c.lru, q, k, c.tick + 1);
      PutTicks(c.lru, k, c.tick + 1);
      assert NoDup(q) by { RepresentsFacts(c.lru, q); }
      RemoveIn(q, k);
    }
  }

  lemma RepresentsFacts(lru: seq<Tick>, q: seq<K>)
    requires Represents(lru, q)
    ensures NoDup(q) && |q| == |lru| && forall x :: x in q <==> InTable(lru, x)
  {
  }

  lemma {:induction false} RemoveAbsent(q: seq<K>, k: K)
    requires k !in q
    ensures Remove(q, k) == q
  {
    if q != [] {
      assert q == [q[0]] + q[1..];
      RemoveAbsent(q[1..], k);
    }
  }

  lemma RemoveFront(q: seq<K>)
    requires q != [] && NoDup(q)
    ensures Remove(q, q[0]) == q[1..]
  {
    RemoveAbsent(q[1..], q[0]);
  }

  lemma MissRefines(c: Cache, q: seq<K>, k: K, v: V)
    requires Refines(c, q)
    ensures var c1 := Miss(c, k, v);
      && Refines(c1, QMiss(q, c.limit, k)) && k in c1.cache && c1.cache[k] == v
      && forall x :: x in c1.cache && x != k ==> x in c.cache && c1.cache[x] == c.cache[x]
  {
    hide Represents, Put, Pop, Remove, IndexOf, Oldest;
    RepresentsFacts(c.lru, q);
    var tick := c.tick + 1;
    if |c.lru| >= c.limit {
      var victim := if InTable(c.lru, k) then k else c.lru[Oldest(c.lru)].key;
      var q0 := Remove(q, victim);
      if k !in q {
        OldestIsFront(c.lru, q);
        RemoveFront(q);
      }
      PopRepresents(c.lru, q, victim);
      PopTicks(c.lru, victim, c.tick);
      RemoveIn(q, victim);
      RemoveIn(q0, k);
      PutRepresents(Pop(c.lru, victim), q0, k, tick);
      PutTicks(Pop(c.lru, victim), k, tick);
      if k in q {
        RemoveAbsent(q0, k);
      }
    } else {
      PutRepresents(c.lru, q, k, tick);
      PutTicks(c.lru, k, tick);
      RemoveIn(q, k);
    }
  }

  lemma EvictRefines(c: Cache, q: seq<K>, k: K)
    requires Refines(c, q)
    ensures Refines(Evict(c, k), Remove(q, k))
  {
    hide Represents, Pop, Remove, IndexOf;
    RepresentsFacts(c.lru, q);
    RemoveIn(q, k);
    if k in q {
      PopRepresents(c.lru, q, k);
      PopTicks(c.lru, k, c.tick);
    } else {
      RemoveAbsent(q, k);
    }
  }

  /** Seeded keys all tie; they leave in insertion order. */
  lemma SeedRefines(c: Cache, base: map<K, V>, order: seq<K>)
    requires NoDup(order) && forall k :: k in base <==> k in order
    ensures Refines(Seed(c, base, order), order)
  {
    var lru := Seed(c, base, order).lru;
    forall i | 0 <= i < |order| ensures IndexOf(lru, order[i]) == i {
      assert lru[i].key == order[i];
      IndexOfIs(lru, i);
    }
    forall x ensures x in order <==> InTable(lru, x) {
      if InTable(lru, x) {
        assert order[IndexOf(lru, x)] == x;
      }
    }
  }

  // ------------------------------------------------------------------
  // The through discipline: hit a key that is present, miss one that is absent

  /** An access, with what the value function would give at that time. */
  datatype Access = Access(key: K, value: V)

  function Through(c: Cache, a: Access): Cache {
    if a.key in c.cache then Hit(c, a.key) else Miss(c, a.key, a.value)
  }

  function Run(limit: Limit, trace: seq<Access>): Cache {
    if trace == [] then Cache(map[], [], 0, limit)
    else Through(Run(limit, trace[..|trace| - 1]), trace[|trace| - 1])
  }

  function Keys(trace: seq<Access>): seq<K> { seq(|trace|, i requires 0 <= i < |trace| => trace[i].key) }

  lemma KeysSplit(trace: seq<Access>)
    requires trace != []
    ensures var (init, last) := (trace[..|trace| - 1], trace[|trace| - 1]);
      && Keys(trace) == Keys(init) + [last.key]
      && Keys(trace)[..|trace| - 1] == Keys(init) && Keys(trace)[|trace| - 1] == last.key
  {
  }

  /** The keys of a trace, each once, by their last use. */
  function Recency(trace: seq<K>): seq<K> {
    if trace == [] then []
    else Remove(Recency(trace[..|trace| - 1]), trace[|trace| - 1]) + [trace[|trace| - 1]]
  }

  /** The last `n` of a queue, or all of it. */
  function Last(q: seq<K>, n: nat): seq<K> { if |q| <= n then q else q[|q| - n..] }

  /** The keys used after the last use of `k`. */
  function Since(trace: seq<K>, k: K): set<K> {
    if trace == [] || trace[|trace| - 1] == k then {}
    else Since(trace[..|trace| - 1], k) + {trace[|trace| - 1]}
  }

  lemma {:induction false} RemoveAppend(a: seq<K>, b: seq<K>, k: K)
    ensures Remove(a + b, k) == Remove(a, k) + Remove(b, k)
  {
    if a == [] {
      assert a + b == b;
    } else {
      RemoveAppend(a[1..], b, k);
      assert (a + b)[1..] == a[1..] + b;
      var (x, y) := (Remove(a[1..], k), Remove(b, k));
      assert [a[0]] + (x + y) == [a[0]] + x + y;
    }
  }

  lemma {:induction false} RecencyOnce(trace: seq<K>)
    ensures NoDup(Recency(trace)) && forall k :: k in Recency(trace) <==> k in trace
  {
    if trace != [] {
      var (init, last) := (trace[..|trace| - 1], trace[|trace| - 1]);
      RecencyOnce(init);
      RemoveIn(Recency(init), last);
      assert trace == init + [last];
    }
  }

  lemma StepHit(older: seq<K>, q: seq<K>, limit: Limit, k: K)
    requires |q| == limit || (older == [] && |q| <= limit)
    requires k !in older && k in q && |Remove(q, k)| == |q| - 1
    ensures Last(Remove(older + q, k) + [k], limit) == Remove(q, k) + [k]
  {
    RemoveAppend(older, q, k);
    RemoveAbsent(older, k);
    hide Remove, Last;
    assert older + Remove(q, k) + [k] == older + (Remove(q, k) + [k]);
  }

  lemma StepMiss(older: seq<K>, q: seq<K>, limit: Limit, k: K)
    requires |q| == limit || (older == [] && |q| <= limit)
    requires k !in q
    ensures Last(Remove(older + q, k) + [k], limit) == (if |q| >= limit then q[1..] else q) + [k]
  {
    RemoveAppend(older, q, k);
    RemoveAbsent(q, k);
    var older1 := Remove(older, k);
    if |q| >= limit {
      hide Remove, Last;
      assert older1 + q + [k] == (older1 + [q[0]]) + (q[1..] + [k]);
    } else {
      RemoveAbsent(older, k);
      hide Remove, Last;
      assert older + q + [k] == older + (q + [k]);
    }
  }

  /** One access keeps the queue the last `limit` keys by recency. */
  lemma RecencyStep(r: seq<K>, limit: Limit, k: K)
    requires NoDup(r)
    ensures var q := Last(r, limit);
      Last(Remove(r, k) + [k], limit) == if k in q then QHit(q, k) else QMiss(q, limit, k)
  {
    var q := Last(r, limit);
    var older := r[..|r| - |q|];
    assert r == older + q;
    if k in q {
      TailNoDup(older, q);
      RemoveIn(q, k);
      AppendDistinct(older, q, k);
      hide Remove, Last, NoDup;
      StepHit(older, q, limit, k);
    } else {
      RemoveAbsent(if |q| >= limit then q[1..] else q, k);
      hide Remove, Last, NoDup;
      StepMiss(older, q, limit, k);
    }
  }

  lemma AppendDistinct(a: seq<K>, b: seq<K>, k: K)
    requires NoDup(a + b) && k in b
    ensures k !in a
  {
    var j :| 0 <= j < |b| && b[j] == k;
    forall i | 0 <= i < |a| ensures a[i] != k {
      assert (a + b)[i] != (a + b)[|a| + j];
    }
  }

  lemma {:induction false} RunRefines(limit: Limit, trace: seq<Access>)
    ensures Refines(Run(limit, trace), Last(Recency(Keys(trace)), limit)) && Run(limit, trace).limit == limit
    decreases |trace|
  {
    if trace != [] {
      var (init, a) := (trace[..|trace| - 1], trace[|trace| - 1]);
      var (c, q) := (Run(limit, init), Last(Recency(Keys(init)), limit));
      RunRefines(limit, init);
      KeysSplit(trace);
      RecencyOnce(Keys(init));
      RecencyStep(Recency(Keys(init)), limit, a.key);
      hide Represents, Last;
      if a.key in c.cache {
        HitRefines(c, q, a.key);
      } else {
        MissRefines(c, q, a.key, a.value);
      }
    }
  }

  /** After the last use of `k` come exactly the keys used since. */
  lemma {:induction false} RecencySplit(trace: seq<K>, k: K) returns (a: seq<K>, b: seq<K>)
    requires k in trace
    ensures Recency(trace) == a + [k] + b && forall x :: x in b <==> x in Since(trace, k)
    decreases |trace|
  {
    var (init, last) := (trace[..|trace| - 1], trace[|trace| - 1]);
    RecencyOnce(init);
    if last == k {
      a, b := Remove(Recency(init), k), [];
    } else {
      assert k in init;
      var a0, b0 := RecencySplit(init, k);
      RemoveAppend(a0 + [k], b0, last);
      RemoveAppend(a0, [k], last);
      assert NoDup(b0) by { TailNoDup(a0 + [k], b0); }
      RemoveIn(b0, last);
      a, b := Remove(a0, last), Remove(b0, last) + [last];
    }
  }

  lemma TailNoDup(a: seq<K>, b: seq<K>)
    requires NoDup(a + b)
    ensures NoDup(b)
  {
    forall i, j | 0 <= i < j < |b| ensures b[i] != b[j] {
      assert (a + b)[|a| + i] != (a + b)[|a| + j];
    }
  }

  lemma {:induction false} CountOnce(q: seq<K>, s: set<K>)
    requires NoDup(q) && forall x :: x in q <==> x in s
    ensures |q| == |s|
    decreases |q|
  {
    if q == [] {
      assert s == {};
    } else {
      assert q == [q[0]] + q[1..];
      CountOnce(q[1..], s - {q[0]});
    }
  }

  /** Fewer than `limit` other keys were used since the last use of `k`. */
  ghost predicate Recent(limit: Limit, trace: seq<Access>, k: K) {
    k in Keys(trace) && |Since(Keys(trace), k)| < limit
  }

  /** The value that the last access to find `k` absent gave it. */
  ghost function LastInserted(limit: Limit, trace: seq<Access>, k: K): Option<V>
    decreases |trace|
  {
    if trace == [] then None
    else
      var (init, last) := (trace[..|trace| - 1], trace[|trace| - 1]);
      if last.key == k && !Recent(limit, init, k) then Some(last.value) else LastInserted(limit, init, k)
  }

  /** From an empty cache, the keys present are exactly those with fewer than `limit` other keys used since. */
  lemma PresentIsRecent(limit: Limit, trace: seq<Access>, k: K)
    ensures k in Run(limit, trace).cache <==> Recent(limit, trace, k)
  {
    RunRefines(limit, trace);
    RecencyOnce(Keys(trace));
    var r := Recency(Keys(trace));
    hide Run;
    if k in Keys(trace) {
      var a, b := RecencySplit(Keys(trace), k);
      TailNoDup(a + [k], b);
      CountOnce(b, Since(Keys(trace), k));
      assert r[|a|] == k;
      assert forall i :: 0 <= i < |r| && r[i] == k ==> i == |a|;
      var q := Last(r, limit);
      if |b| < limit {
        assert q[|a| - (|r| - |q|)] == k;
      }
    }
  }

  /** What one access leaves of a key's value. */
  lemma ThroughKeeps(c: Cache, q: seq<K>, a: Access, k: K)
    requires Refines(c, q) && k in Through(c, a).cache
    ensures if k == a.key && k !in c.cache then Through(c, a).cache[k] == a.value
      else k in c.cache && Through(c, a).cache[k] == c.cache[k]
  {
    if a.key in c.cache {
      HitRefines(c, q, a.key);
    } else {
      MissRefines(c, q, a.key, a.value);
    }
  }

  /**
    From an empty cache, whatever the value functions give over time: the
    contents are exactly the keys with fewer than `limit` other keys used since,
    each with the value of the access that last found it absent.
  */
  lemma {:induction false} KeepsMostRecent(limit: Limit, trace: seq<Access>, k: K)
    ensures k in Run(limit, trace).cache <==> Recent(limit, trace, k)
    ensures k in Run(limit, trace).cache ==> LastInserted(limit, trace, k) == Some(Run(limit, trace).cache[k])
    decreases |trace|
  {
    PresentIsRecent(limit, trace, k);
    if trace != [] {
      var init := trace[..|trace| - 1];
      KeepsMostRecent(limit, init, k);
      RunRefines(limit, init);
      hide Recent, Refines, Through;
      if k in Run(limit, trace).cache {
        ThroughKeeps(Run(limit, init), Last(Recency(Keys(init)), limit), trace[|trace| - 1], k);
      }
    }
  }

  /** On one trace of keys a larger cache always includes a smaller one, whatever the values. */
  lemma LargerIncludesSmaller(small: Limit, large: Limit, trace: seq<Access>, other: seq<Access>)
    requires small <= large && Keys(trace) == Keys(other)
    ensures Run(small, trace).cache.Keys <= Run(large, other).cache.Keys
    ensures |Run(small, trace).cache| <= small
  {
    hide Run, Since;
    forall k | k in Run(small, trace).cache ensures k in Run(large, other).cache {
      PresentIsRecent(small, trace, k);
      PresentIsRecent(large, other, k);
    }
    RunRefines(small, trace);
    hide Recency, Refines, Keys;
    RefinesSize(Run(small, trace), Last(Recency(Keys(trace)), small));
  }

  lemma RefinesSize(c: Cache, q: seq<K>)
    requires Refines(c, q)
    ensures |c.cache| == |q|
  {
    RepresentsFacts(c.lru, q);
    hide Represents;
    CountOnce(q, c.cache.Keys);
  }

  // ------------------------------------------------------------------
  // The atom that holds a cache

  class WrappedCache {
    var cache: Cache

    constructor (limit: Limit)
      ensures cache == Cache(map[], [], 0, limit)
    {
      cache := Cache(map[], [], 0, limit);
    }

    /** `wrapped_through`; a raising value function leaves the cache unchanged. */
    method ThroughCache(k: K, valueFn: K -> Result<V, Exn>) returns (r: Result<(), Exn>)
      modifies this
      ensures old(k in cache.cache) ==> r.Ok? && cache == old(Hit(cache, k))
      ensures old(k !in cache.cache) && valueFn(k).Ok? ==> r.Ok? && cache == old(Miss(cache, k, valueFn(k).value))
      ensures old(k !in cache.cache) && valueFn(k).Err? ==> r == Err(valueFn(k).error) && cache == old(cache)
    {
      if k in cache.cache {
        cache := Hit(cache, k);
      } else {
        match valueFn(k) {
          case Err(e) => return Err(e);
          case Ok(v) => cache := Miss(cache, k, v);
        }
      }
      r := Ok(());
    }

    /** `wrapped_lookup_or_miss`: a present key is returned without counting as a use. */
    method LookupOrMiss(k: K, valueFn: K -> Result<V, Exn>) returns (r: Result<V, Exn>)
      modifies this
      ensures old(k in cache.cache) ==> r == Ok(old(cache.cache[k])) && cache == old(cache)
      ensures old(k !in cache.cache) ==> r == valueFn(k)
      ensures old(k !in cache.cache) ==>
        cache == match valueFn(k) { case Ok(v) => old(Miss(cache, k, v)) case Err(_) => old(cache) }
    {
      if k in cache.cache {
        return Ok(cache.cache[k]);
      }
      match valueFn(k) {
        case Err(e) => return Err(e);
        case Ok(v) =>
          cache := Miss(cache, k, v);
          return Ok(cache.cache[k]);
      }
    }
  }
}
