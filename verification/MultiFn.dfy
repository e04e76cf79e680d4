/**
  Multimethod dispatch and its cache (src/basilisp/lang/multifn.py:82-185).

  Dispatch values are not nil. `isa?` is any relation that holds of a value and
  itself; methods are enumerated in the order of the map that holds them, which
  is arbitrary.
*/
module MultiFn {
  import opened Prelude

  type Key(==, !new)
  type Method(==, !new)
  type Hierarchy(==, !new)

  /** A precedence, or an `isa?` in one hierarchy. */
  type Relation = (Key, Key) -> bool

  datatype Found = NoMatch | Best(key: Key) | Ambiguous

  datatype Error = CannotResolve | ConflictingPreference

  /** One turn of the search: a key takes the lead when it precedes the best so far, which must otherwise precede it. */
  function Consider(found: Found, key: Key, precedes: Relation): Found {
    match found
    case Ambiguous => Ambiguous
    case NoMatch => if precedes(key, key) then Best(key) else Ambiguous
    case Best(best) =>
      if precedes(key, best) then (if precedes(key, key) then Best(key) else Ambiguous)
      else if precedes(best, key) then Best(best)
      else Ambiguous
  }

  /** The search over the first `n` keys that match. */
  function Search(keys: seq<Key>, n: nat, precedes: Relation): Found
    requires n <= |keys|
  {
    if n == 0 then NoMatch else Consider(Search(keys, n - 1, precedes), keys[n - 1], precedes)
  }

  ghost predicate Reflexive(r: Relation) { forall x :: r(x, x) }

  /** Transitive among some keys; other keys may be related in any way. */
  ghost predicate TransitiveAmong(among: iset<Key>, r: Relation) {
    forall x, y, z :: x in among && y in among && z in among && r(x, y) && r(y, z) ==> r(x, z)
  }

  ghost function Members(keys: seq<Key>): iset<Key> { iset k | k in keys }

  /** One of the first `n` keys precedes all of them. */
  ghost predicate Dominates(keys: seq<Key>, n: nat, precedes: Relation, d: Key)
    requires n <= |keys|
  {
    (exists i :: 0 <= i < n && keys[i] == d) && forall i :: 0 <= i < n ==> precedes(d, keys[i])
  }

  ghost predicate HasDominator(keys: seq<Key>, n: nat, precedes: Relation)
    requires n <= |keys|
  {
    exists d :: Dominates(keys, n, precedes, d)
  }

  /** When precedence is transitive among the keys that match, the key found precedes all of them. */
  lemma {:induction false} BestDominates(keys: seq<Key>, n: nat, precedes: Relation)
    requires n <= |keys| && TransitiveAmong(Members(keys), precedes)
    ensures n > 0 ==> !Search(keys, n, precedes).NoMatch?
    ensures Search(keys, n, precedes).Best? ==> Dominates(keys, n, precedes, Search(keys, n, precedes).key)
  {
    if n > 0 {
      BestDominates(keys, n - 1, precedes);
      var before := Search(keys, n - 1, precedes);
      if before.Best? && Search(keys, n, precedes) == before {
        var i :| 0 <= i < n - 1 && keys[i] == before.key;
        assert keys[i] == before.key && i < n;
      } else if Search(keys, n, precedes).Best? {
        assert keys[n - 1] == Search(keys, n, precedes).key;
      }
    }
  }

  /** Every failure of transitivity misleads the search: it settles on a key that does not precede all that match. */
  lemma Misled(x: Key, y: Key, z: Key, precedes: Relation)
    requires Reflexive(precedes) && precedes(x, y) && precedes(y, z) && !precedes(x, z)
    ensures Search([z, y, x], 3, precedes) == Best(x) && !Dominates([z, y, x], 3, precedes, x)
    ensures x != y && y != z && x != z
  {
    var keys := [z, y, x];
    assert Search(keys, 1, precedes) == Best(z);
    assert Search(keys, 2, precedes) == Best(y);
    assert keys[0] == z;
  }

  /** The search finds only keys that precede all that match exactly when precedence is transitive among the keys. */
  lemma DominatesIffTransitive(among: iset<Key>, precedes: Relation)
    requires Reflexive(precedes)
    ensures (forall keys: seq<Key> :: Members(keys) <= among && Search(keys, |keys|, precedes).Best? ==>
                Dominates(keys, |keys|, precedes, Search(keys, |keys|, precedes).key))
        <==> TransitiveAmong(among, precedes)
  {
    if TransitiveAmong(among, precedes) {
      forall keys: seq<Key> | Members(keys) <= among && Search(keys, |keys|, precedes).Best?
        ensures Dominates(keys, |keys|, precedes, Search(keys, |keys|, precedes).key)
      {
        BestDominates(keys, |keys|, precedes);
      }
    } else {
      var x, y, z :| x in among && y in among && z in among && precedes(x, y) && precedes(y, z) && !precedes(x, z);
      Misled(x, y, z, precedes);
      assert Members([z, y, x]) <= among && |[z, y, x]| == 3;
    }
  }

  /**
    The search succeeds exactly when every prefix of the matching keys, in the
    order they are enumerated, has a key that precedes the whole prefix.
  */
  lemma {:induction false} SearchSucceeds(keys: seq<Key>, n: nat, precedes: Relation)
    requires n <= |keys| && Reflexive(precedes) && TransitiveAmong(Members(keys), precedes)
    ensures !Search(keys, n, precedes).Ambiguous? <==>
      forall m :: 0 < m <= n ==> HasDominator(keys, m, precedes)
  {
    if n > 0 {
      SearchSucceeds(keys, n - 1, precedes);
      BestDominates(keys, n - 1, precedes);
      BestDominates(keys, n, precedes);
      var (before, now) := (Search(keys, n - 1, precedes), Search(keys, n, precedes));
      if now.Best? {
        assert Dominates(keys, n, precedes, now.key);
      }
      if HasDominator(keys, n, precedes) {
        var d :| Dominates(keys, n, precedes, d);
        if before.Best? {
          DominatorLeads(keys, n, precedes, d);
        }
      }
      assert precedes(keys[n - 1], keys[n - 1]);
      assert now.Ambiguous? ==> before.Ambiguous? || !HasDominator(keys, n, precedes);
    }
  }

  /** A key that precedes all of a prefix keeps the search going at its end. */
  lemma DominatorLeads(keys: seq<Key>, n: nat, precedes: Relation, d: Key)
    requires 0 < n <= |keys| && Reflexive(precedes) && TransitiveAmong(Members(keys), precedes)
    requires Dominates(keys, n, precedes, d) && Search(keys, n - 1, precedes).Best?
    ensures Search(keys, n, precedes).Best?
  {
    BestDominates(keys, n - 1, precedes);
    var (best, key) := (Search(keys, n - 1, precedes).key, keys[n - 1]);
    var i :| 0 <= i < n && keys[i] == d;
    var j :| 0 <= j < n - 1 && keys[j] == best;
    assert precedes(d, key) && precedes(d, keys[j]);
    if i < n - 1 {
      assert precedes(best, keys[i]);
    }
  }

  /** Whatever the orders, two successful searches find keys that precede each other. */
  lemma OrderIndependent(keys: seq<Key>, other: seq<Key>, precedes: Relation)
    requires TransitiveAmong(Members(keys), precedes) && forall k :: k in keys <==> k in other
    requires Search(keys, |keys|, precedes).Best? && Search(other, |other|, precedes).Best?
    ensures var (a, b) := (Search(keys, |keys|, precedes).key, Search(other, |other|, precedes).key);
      precedes(a, b) && precedes(b, a)
  {
    var (a, b) := (Search(keys, |keys|, precedes).key, Search(other, |other|, precedes).key);
    BestDominates(keys, |keys|, precedes);
    assert Members(keys) == Members(other);
    BestDominates(other, |other|, precedes);
    assert a in keys && b in other;
    var i :| 0 <= i < |keys| && keys[i] == b;
    var j :| 0 <= j < |other| && other[j] == a;
  }

  /** Any two of the keys are comparable, and each with itself. */
  ghost predicate Comparable(among: iset<Key>, precedes: Relation) {
    forall x, y :: x in among && y in among ==> precedes(x, y) || precedes(y, x)
  }

  lemma {:induction false} ComparableFinds(keys: seq<Key>, n: nat, precedes: Relation)
    requires n <= |keys| && Comparable(Members(keys), precedes)
    ensures match Search(keys, n, precedes)
            case Ambiguous => false
            case NoMatch => n == 0
            case Best(best) => best in keys
  {
    if n > 0 {
      ComparableFinds(keys, n - 1, precedes);
      assert keys[n - 1] in Members(keys);
    }
  }

  // ------------------------------------------------------------------
  // The uncached answer

  type Prefers = map<Key, set<Key>>

  predicate HasPreference(prefers: Prefers, preferred: Key, other: Key) {
    preferred in prefers && other in prefers[preferred]
  }

  predicate Precedes(prefers: Prefers, isa: Relation, x: Key, y: Key) { HasPreference(prefers, x, y) || isa(x, y) }

  function Precedence(prefers: Prefers, isa: Relation): Relation { (x: Key, y: Key) => Precedes(prefers, isa, x, y) }

  /** The keys, in order, that a dispatch value is an instance of. */
  function Matching(order: seq<Key>, n: nat, isa: Relation, key: Key): seq<Key>
    requires n <= |order|
  {
    if n == 0 then []
    else Matching(order, n - 1, isa, key) + (if isa(key, order[n - 1]) then [order[n - 1]] else [])
  }

  /** The result of the search among the methods that a dispatch value is an instance of. */
  function Choice(order: seq<Key>, prefers: Prefers, isa: Relation, key: Key): Found {
    var matching := Matching(order, |order|, isa, key);
    Search(matching, |matching|, Precedence(prefers, isa))
  }

  /** The exact method, else the best match, else the default. */
  function Answer(methods: map<Key, Method>, order: seq<Key>, prefers: Prefers, isa: Relation, default: Key, key: Key):
      Result<Option<Method>, Error>
  {
    if key in methods then Ok(Some(methods[key]))
    else
      match Choice(order, prefers, isa, key)
      case Ambiguous => Err(CannotResolve)
      case Best(best) => Ok(if best in methods then Some(methods[best]) else None)
      case NoMatch => Ok(if default in methods then Some(methods[default]) else None)
  }

  ghost function KeysOf(keys: seq<Key>): set<Key> { set k | k in keys }

  /** An enumeration of a set of keys. */
  ghost predicate Lists(order: seq<Key>, keys: set<Key>) {
    (forall k :: k in order <==> k in keys) && forall i, j :: 0 <= i < j < |order| ==> order[i] != order[j]
  }

  // ------------------------------------------------------------------
  // The multimethod as the program keeps it

  /** The reference that holds the hierarchy; others may reset it at any time. */
  class HierarchyRef {
    var value: Hierarchy

    constructor (h: Hierarchy)
      ensures value == h
    {
      value := h;
    }

    method Reset(h: Hierarchy)
      modifies this
      ensures value == h
    {
      value := h;
    }
  }

  class MultiFunction {
    const isa: (Hierarchy, Key, Key) -> bool
    const default: Key
    const hierarchy: HierarchyRef
    var methods: map<Key, Method>
    var order: seq<Key>
    var cache: map<Key, Method>
    var prefers: Prefers
    var cachedHierarchy: Hierarchy

    ghost function IsaIn(h: Hierarchy): Relation { (x: Key, y: Key) => isa(h, x, y) }

    /** The answer without the cache, in a given hierarchy. */
    ghost function Uncached(h: Hierarchy, key: Key): Result<Option<Method>, Error>
      reads this
    {
      Answer(methods, order, prefers, IsaIn(h), default, key)
    }

    /** No two keys are each preferred to the other. */
    ghost predicate PrefersOneWay()
      reads this
    {
      forall x, y :: HasPreference(prefers, x, y) && HasPreference(prefers, y, x) ==> x == y
    }

    /** Every cached method is the answer in the hierarchy the cache was filled for. */
    ghost predicate Valid()
      reads this
    {
      && Lists(order, methods.Keys) && PrefersOneWay()
      && (forall k :: k in methods ==> k in cache)
      && (forall k :: k in cache ==> Uncached(cachedHierarchy, k) == Ok(Some(cache[k])))
    }

    constructor (isa: (Hierarchy, Key, Key) -> bool, default: Key, hierarchy: HierarchyRef)
      ensures Valid() && methods == map[] && prefers == map[] && this.hierarchy == hierarchy
    {
      this.isa, this.default, this.hierarchy := isa, default, hierarchy;
      methods, order, cache, prefers := map[], [], map[], map[];
      cachedHierarchy := hierarchy.value;
    }

    /** `_reset_cache`: nothing but the exact methods is remembered. */
    method ResetCache()
      requires Lists(order, methods.Keys) && PrefersOneWay()
      modifies this`cache, this`cachedHierarchy
      ensures Valid() && cache == methods && cachedHierarchy == hierarchy.value
    {
      cache := methods;
      cachedHierarchy := hierarchy.value;
    }

    method AddMethod(key: Key, m: Method)
      requires Valid()
      modifies this
      ensures Valid() && methods == old(methods)[key := m] && prefers == old(prefers)
    {
      methods := methods[key := m];
      order := Enumerate(methods.Keys);
      ResetCache();
    }

    method RemoveMethod(key: Key) returns (m: Option<Method>)
      requires Valid()
      modifies this
      ensures Valid() && methods == old(methods) - {key} && prefers == old(prefers)
      ensures m == if old(key in methods) then Some(old(methods[key])) else None
    {
      m := if key in methods then Some(methods[key]) else None;
      if m.Some? {
        methods := methods - {key};
        order := Enumerate(methods.Keys);
      }
      ResetCache();
    }

    method RemoveAllMethods()
      requires Valid()
      modifies this
      ensures Valid() && methods == map[] && prefers == map[]
    {
      methods, order, prefers := map[], [], map[];
      ResetCache();
    }

    /** A preference is refused when the opposite one exists. */
    method PreferMethod(preferred: Key, other: Key) returns (r: Result<(), Error>)
      requires Valid()
      modifies this
      ensures Valid() && methods == old(methods)
      ensures r.Err? <==> old(HasPreference(prefers, other, preferred))
      ensures r.Err? ==> prefers == old(prefers)
      ensures r.Ok? ==> forall x, y ::
        HasPreference(prefers, x, y) <==> old(HasPreference(prefers, x, y)) || (x == preferred && y == other)
    {
      if HasPreference(prefers, other, preferred) {
        return Err(ConflictingPreference);
      }
      var existing := if preferred in prefers then prefers[preferred] else {};
      prefers := prefers[preferred := existing + {other}];
      assert forall x, y ::
        HasPreference(prefers, x, y) <==> old(HasPreference(prefers, x, y)) || (x == preferred && y == other);
      ResetCache();
      r := Ok(());
    }

    /** The loop of `_find_and_cache_method`. */
    method FindBest(key: Key) returns (best: Option<Key>, ambiguous: bool)
      ensures Choice(order, prefers, IsaIn(hierarchy.value), key)
           == if ambiguous then Ambiguous else if best.Some? then Best(best.value) else NoMatch
    {
      hide Search;
      var h := hierarchy.value;
      best, ambiguous := None, false;
      ghost var precedes := Precedence(prefers, IsaIn(h));
      NothingFound(precedes);
      var i := 0;
      while i < |order|
        invariant 0 <= i <= |order|
        invariant var matching := Matching(order, i, IsaIn(h), key);
          Search(matching, |matching|, precedes) == if best.Some? then Best(best.value) else NoMatch
      {
        var methodKey := order[i];
        ghost var before := Matching(order, i, IsaIn(h), key);
        if isa(h, key, methodKey) {
          SearchPush(before, methodKey, precedes);
          if best.None? || HasPreference(prefers, methodKey, best.value) || isa(h, methodKey, best.value) {
            best := Some(methodKey);
          }
          if !(HasPreference(prefers, best.value, methodKey) || isa(h, best.value, methodKey)) {
            AmbiguityStays(order, i + 1, IsaIn(h), key, precedes);
            return best, true;
          }
        } else {
          assert before + [] == before;
        }
        i := i + 1;
      }
    }

    /** `_find_and_cache_method`. */
    method FindAndCacheMethod(key: Key) returns (r: Result<Option<Method>, Error>)
      requires Valid() && cachedHierarchy == hierarchy.value && key !in cache
      modifies this`cache
      ensures Valid() && r == Uncached(hierarchy.value, key)
    {
      var best, ambiguous := FindBest(key);
      if ambiguous {
        return Err(CannotResolve);
      }
      var m: Option<Method> := None;
      if best.Some? {
        m := if best.value in methods then Some(methods[best.value]) else None;
      } else if default in methods {
        m := Some(methods[default]);
      }
      if m.Some? {
        cache := cache[key := m.value];
      }
      r := Ok(m);
    }

    /** `get_method`: with the cache or without it, the answer is the same. */
    method GetMethod(key: Key) returns (r: Result<Option<Method>, Error>)
      requires Valid()
      modifies this`cache, this`cachedHierarchy
      ensures Valid() && r == Uncached(hierarchy.value, key)
    {
      if cachedHierarchy != hierarchy.value {
        ResetCache();
      }
      if key in cache {
        return Ok(Some(cache[key]));
      }
      r := FindAndCacheMethod(key);
    }
  }

  /** Some enumeration of a set of keys. */
  method Enumerate(keys: set<Key>) returns (order: seq<Key>)
    ensures Lists(order, keys)
  {
    order := [];
    var left := keys;
    while left != {}
      invariant left <= keys && Lists(order, keys - left)
      decreases left
    {
      var k :| k in left;
      order := order + [k];
      left := left - {k};
    }
  }

  lemma NothingFound(precedes: Relation)
    ensures Search([], 0, precedes) == NoMatch
  {
  }

  lemma {:induction false} SearchPrefix(keys: seq<Key>, more: seq<Key>, n: nat, precedes: Relation)
    requires n <= |keys|
    ensures Search(keys + more, n, precedes) == Search(keys, n, precedes)
  {
    if n > 0 {
      SearchPrefix(keys, more, n - 1, precedes);
    }
  }

  lemma SearchPush(keys: seq<Key>, key: Key, precedes: Relation)
    ensures Search(keys + [key], |keys| + 1, precedes) == Consider(Search(keys, |keys|, precedes), key, precedes)
  {
    SearchPrefix(keys, [key], |keys|, precedes);
  }

  lemma {:induction false} AmbiguityStays(order: seq<Key>, n: nat, isa: Relation, key: Key, precedes: Relation)
    requires n <= |order|
    requires var m := Matching(order, n, isa, key); Search(m, |m|, precedes).Ambiguous?
    ensures var m := Matching(order, |order|, isa, key); Search(m, |m|, precedes).Ambiguous?
    decreases |order| - n
  {
    if n < |order| {
      var m := Matching(order, n, isa, key);
      if isa(key, order[n]) {
        SearchPush(m, order[n], precedes);
      } else {
        assert m + [] == m;
      }
      AmbiguityStays(order, n + 1, isa, key, precedes);
    }
  }

  lemma {:induction false} MatchingIn(order: seq<Key>, n: nat, isa: Relation, key: Key, k: Key)
    requires n <= |order|
    ensures k in Matching(order, n, isa, key) <==> k in order[..n] && isa(key, k)
  {
    if n > 0 {
      MatchingIn(order, n - 1, isa, key, k);
      assert order[..n] == order[..n - 1] + [order[n - 1]];
    }
  }

  /** The methods that a value is an instance of. */
  ghost function Instances(methods: map<Key, Method>, isa: Relation, key: Key): iset<Key> {
    iset k | k in methods && isa(key, k)
  }

  lemma MatchingLists(methods: map<Key, Method>, order: seq<Key>, isa: Relation, key: Key)
    requires Lists(order, methods.Keys)
    ensures Members(Matching(order, |order|, isa, key)) == Instances(methods, isa, key)
  {
    assert order[..|order|] == order;
    forall k ensures k in Matching(order, |order|, isa, key) <==> k in methods && isa(key, k) {
      MatchingIn(order, |order|, isa, key, k);
    }
  }

  /** The chosen key: one that the value is an instance of, ahead of every other such key. */
  ghost predicate Chosen(methods: map<Key, Method>, prefers: Prefers, isa: Relation, key: Key, k: Key) {
    && k in Instances(methods, isa, key)
    && forall other :: other in Instances(methods, isa, key) ==> Precedes(prefers, isa, k, other)
  }

  /**
    The answer for a value without a method of its own, when precedence is
    transitive among the methods that the value is an instance of.
  */
  lemma AnswerChooses(methods: map<Key, Method>, order: seq<Key>, prefers: Prefers, isa: Relation, default: Key,
      key: Key)
    requires Lists(order, methods.Keys) && key !in methods
    requires TransitiveAmong(Instances(methods, isa, key), Precedence(prefers, isa))
    ensures match Answer(methods, order, prefers, isa, default, key)
            case Ok(m) =>
              if Instances(methods, isa, key) != iset{}
              then exists k :: Chosen(methods, prefers, isa, key, k) && m == Some(methods[k])
              else m == if default in methods then Some(methods[default]) else None
            case Err(_) => Instances(methods, isa, key) != iset{}
  {
    var keys := Matching(order, |order|, isa, key);
    var precedes := Precedence(prefers, isa);
    MatchingLists(methods, order, isa, key);
    BestDominates(keys, |keys|, precedes);
    if keys != [] {
      assert keys[0] in Members(keys);
    }
    var found := Search(keys, |keys|, precedes);
    if found.Best? {
      var best := found.key;
      assert best in Members(keys);
      forall other | other in Instances(methods, isa, key) ensures Precedes(prefers, isa, best, other) {
        assert other in Members(keys);
        var i :| 0 <= i < |keys| && keys[i] == other;
        assert precedes(best, keys[i]);
      }
      assert Chosen(methods, prefers, isa, key, best);
    }
  }

  // ------------------------------------------------------------------
  // The most specific method

  /** A method's key that a value is an instance of. */
  predicate Matches(methods: map<Key, Method>, isa: Relation, key: Key, k: Key) { k in methods && isa(key, k) }

  /**
    Whenever a value without a method of its own is given that of a key it is
    an instance of, every other such key that is below the chosen one, and not
    above it, is outranked by a preference. Transitivity is asked of the keys
    that the value is an instance of.
  */
  lemma NoneMoreSpecific(methods: map<Key, Method>, order: seq<Key>, prefers: Prefers, isa: Relation, default: Key,
      key: Key)
    requires Lists(order, methods.Keys) && key !in methods && exists k :: Matches(methods, isa, key, k)
    requires forall x, y, z ::
      Matches(methods, isa, key, x) && Matches(methods, isa, key, y) && Matches(methods, isa, key, z) ==>
        (HasPreference(prefers, x, y) || isa(x, y)) && (HasPreference(prefers, y, z) || isa(y, z)) ==>
          HasPreference(prefers, x, z) || isa(x, z)
    ensures match Answer(methods, order, prefers, isa, default, key)
            case Ok(m) =>
              exists k ::
                && Matches(methods, isa, key, k) && m == Some(methods[k])
                && (forall other :: Matches(methods, isa, key, other) ==>
                     isa(k, other) || HasPreference(prefers, k, other))
                && (forall other :: Matches(methods, isa, key, other) && isa(other, k) && !isa(k, other) ==>
                     HasPreference(prefers, k, other))
            case Err(e) => e == CannotResolve
  {
    var (among, precedes) := (Instances(methods, isa, key), Precedence(prefers, isa));
    forall x, y, z | x in among && y in among && z in among && precedes(x, y) && precedes(y, z) ensures precedes(x, z) {
      assert Matches(methods, isa, key, x) && Matches(methods, isa, key, y) && Matches(methods, isa, key, z);
      assert HasPreference(prefers, x, y) || isa(x, y);
    }
    assert TransitiveAmong(among, precedes);
    hide TransitiveAmong, Answer, Lists;
    AnswerChooses(methods, order, prefers, isa, default, key);
    var k :| Matches(methods, isa, key, k);
    assert k in Instances(methods, isa, key);
    if Answer(methods, order, prefers, isa, default, key).Ok? {
      var best :| Chosen(methods, prefers, isa, key, best)
        && Answer(methods, order, prefers, isa, default, key) == Ok(Some(methods[best]));
      assert Matches(methods, isa, key, best);
      forall other | Matches(methods, isa, key, other) ensures isa(best, other) || HasPreference(prefers, best, other) {
        assert other in Instances(methods, isa, key);
      }
    }
  }

  /**
    Without preferences between them, the method of the key below all the
    others that the value is an instance of is found, and the search fails only
    when two of them are unrelated.
  */
  lemma MostSpecificWins(methods: map<Key, Method>, order: seq<Key>, prefers: Prefers, isa: Relation, default: Key,
      key: Key)
    requires Lists(order, methods.Keys) && key !in methods && exists k :: Matches(methods, isa, key, k)
    requires forall x, y, z ::
      Matches(methods, isa, key, x) && Matches(methods, isa, key, y) && Matches(methods, isa, key, z) ==>
        isa(x, y) && isa(y, z) ==> isa(x, z)
    requires forall x, y ::
      Matches(methods, isa, key, x) && Matches(methods, isa, key, y) ==> !HasPreference(prefers, x, y)
    ensures match Answer(methods, order, prefers, isa, default, key)
            case Ok(m) =>
              exists k ::
                && Matches(methods, isa, key, k) && m == Some(methods[k])
                && forall other :: Matches(methods, isa, key, other) ==> isa(k, other)
            case Err(_) =>
              exists x, y ::
                Matches(methods, isa, key, x) && Matches(methods, isa, key, y) && !isa(x, y) && !isa(y, x)
  {
    if Answer(methods, order, prefers, isa, default, key).Err? {
      FailsOnIncomparable(methods, order, prefers, isa, default, key);
    } else {
      NoneMoreSpecific(methods, order, prefers, isa, default, key);
    }
  }

  /** A dispatch that fails has met two keys that neither `isa?` nor a preference puts in order. */
  lemma FailsOnIncomparable(methods: map<Key, Method>, order: seq<Key>, prefers: Prefers, isa: Relation, default: Key,
      key: Key)
    requires Lists(order, methods.Keys) && Answer(methods, order, prefers, isa, default, key).Err?
    ensures key !in methods && exists x, y ::
      && Matches(methods, isa, key, x) && Matches(methods, isa, key, y)
      && !isa(x, y) && !isa(y, x) && !HasPreference(prefers, x, y) && !HasPreference(prefers, y, x)
  {
    var (matching, precedes) := (Matching(order, |order|, isa, key), Precedence(prefers, isa));
    MatchingLists(methods, order, isa, key);
    if Comparable(Members(matching), precedes) {
      ComparableFinds(matching, |matching|, precedes);
      assert false;
    }
    var x, y :| x in Members(matching) && y in Members(matching) && !precedes(x, y) && !precedes(y, x);
    assert x in Instances(methods, isa, key) && y in Instances(methods, isa, key);
    assert Matches(methods, isa, key, x) && Matches(methods, isa, key, y);
  }

  /**
    When any two matching keys are comparable, the order of the methods makes no
    difference exactly when only one key precedes all the others.
  */
  lemma OrderMattersIff(methods: map<Key, Method>, prefers: Prefers, isa: Relation, key: Key)
    requires Reflexive(isa) && TransitiveAmong(Instances(methods, isa, key), Precedence(prefers, isa))
    requires Comparable(Instances(methods, isa, key), Precedence(prefers, isa))
    ensures (forall order, other :: Lists(order, methods.Keys) && Lists(other, methods.Keys) ==>
                Choice(order, prefers, isa, key) == Choice(other, prefers, isa, key))
        <==> (forall k, l :: Chosen(methods, prefers, isa, key, k) && Chosen(methods, prefers, isa, key, l) ==> k == l)
  {
    hide Lists, Choice, Chosen, TransitiveAmong, Comparable, Instances;
    if k, l :| Chosen(methods, prefers, isa, key, k) && Chosen(methods, prefers, isa, key, l) && k != l {
      var order := ChosenLast(methods, prefers, isa, key, k);
      var other := ChosenLast(methods, prefers, isa, key, l);
    } else {
      forall order, other | Lists(order, methods.Keys) && Lists(other, methods.Keys)
        ensures Choice(order, prefers, isa, key) == Choice(other, prefers, isa, key)
      {
        ChoiceIsChosen(methods, order, prefers, isa, key);
        ChoiceIsChosen(methods, other, prefers, isa, key);
      }
    }
  }

  lemma ChoiceIsChosen(methods: map<Key, Method>, order: seq<Key>, prefers: Prefers, isa: Relation, key: Key)
    requires Lists(order, methods.Keys)
    requires TransitiveAmong(Instances(methods, isa, key), Precedence(prefers, isa))
    requires Comparable(Instances(methods, isa, key), Precedence(prefers, isa))
    ensures match Choice(order, prefers, isa, key)
            case Ambiguous => false
            case NoMatch => Instances(methods, isa, key) == iset{}
            case Best(k) => Instances(methods, isa, key) != iset{} && Chosen(methods, prefers, isa, key, k)
  {
    var (keys, precedes) := (Matching(order, |order|, isa, key), Precedence(prefers, isa));
    MatchingLists(methods, order, isa, key);
    ComparableFinds(keys, |keys|, precedes);
    BestDominates(keys, |keys|, precedes);
    if Choice(order, prefers, isa, key).Best? {
      var k := Choice(order, prefers, isa, key).key;
      assert k in Members(keys);
      forall other | other in Instances(methods, isa, key) ensures Precedes(prefers, isa, k, other) {
        assert other in Members(keys);
        var i :| 0 <= i < |keys| && keys[i] == other;
        assert precedes(k, keys[i]);
      }
    } else {
      assert keys == [] && Members(keys) == iset{};
    }
  }

  /** A key ahead of all is chosen when it is met last. */
  lemma ChosenLast(methods: map<Key, Method>, prefers: Prefers, isa: Relation, key: Key, k: Key)
      returns (order: seq<Key>)
    requires Chosen(methods, prefers, isa, key, k)
    requires Comparable(Instances(methods, isa, key), Precedence(prefers, isa))
    ensures Lists(order, methods.Keys) && Choice(order, prefers, isa, key) == Best(k)
  {
    var first := Enumerated([], methods.Keys - {k});
    order := first + [k];
    var precedes := Precedence(prefers, isa);
    var before := Matching(order, |first|, isa, key);
    assert order[..|first|] == first;
    forall x ensures x in before ==> x in Instances(methods, isa, key) {
      MatchingIn(order, |first|, isa, key, x);
    }
    assert Members(before) <= Instances(methods, isa, key);
    ComparableFinds(before, |before|, precedes);
    SearchPush(before, k, precedes);
    assert Matching(order, |order|, isa, key) == before + [k];
  }

  // ------------------------------------------------------------------
  // Exactly when dispatch keeps its promises

  lemma {:induction false} MatchingAll(order: seq<Key>, n: nat, isa: Relation, key: Key)
    requires n <= |order| && forall i :: 0 <= i < n ==> isa(key, order[i])
    ensures Matching(order, n, isa, key) == order[..n]
  {
    if n > 0 {
      MatchingAll(order, n - 1, isa, key);
      assert order[..n] == order[..n - 1] + [order[n - 1]];
    }
  }

  /** The other keys that a value is an instance of. */
  ghost function Ancestors(isa: Relation, key: Key): iset<Key> { iset k | k != key && isa(key, k) }

  /** Whatever the methods and their order, the key chosen for a value precedes every key it is an instance of. */
  ghost predicate NeverMisled(prefers: Prefers, isa: Relation, key: Key) {
    forall order: seq<Key>, keys: set<Key>, k: Key ::
      Lists(order, keys) && key !in keys && Choice(order, prefers, isa, key) == Best(k) ==>
        forall other :: other in keys && isa(key, other) ==> Precedes(prefers, isa, k, other)
  }

  /**
    A value without a method of its own is always given a key that precedes
    every key it is an instance of, whatever the methods and their order,
    exactly when precedence is transitive among those keys.
  */
  lemma ChoicePrecedesAll(prefers: Prefers, isa: Relation, key: Key)
    requires Reflexive(isa)
    ensures NeverMisled(prefers, isa, key) <==> TransitiveAmong(Ancestors(isa, key), Precedence(prefers, isa))
  {
    if TransitiveAmong(Ancestors(isa, key), Precedence(prefers, isa)) {
      TransitiveNeverMisled(prefers, isa, key);
    } else {
      IntransitiveMisleads(prefers, isa, key);
    }
  }

  lemma TransitiveNeverMisled(prefers: Prefers, isa: Relation, key: Key)
    requires TransitiveAmong(Ancestors(isa, key), Precedence(prefers, isa))
    ensures NeverMisled(prefers, isa, key)
  {
    hide Lists, Choice, TransitiveAmong;
    forall order: seq<Key>, keys: set<Key>, k: Key, other
      | Lists(order, keys) && key !in keys && Choice(order, prefers, isa, key) == Best(k)
        && other in keys && isa(key, other)
      ensures Precedes(prefers, isa, k, other)
    {
      ChoicePrecedes(order, keys, prefers, isa, key, other);
    }
  }

  lemma IntransitiveMisleads(prefers: Prefers, isa: Relation, key: Key)
    requires Reflexive(isa) && !TransitiveAmong(Ancestors(isa, key), Precedence(prefers, isa))
    ensures !NeverMisled(prefers, isa, key)
  {
    var (among, precedes) := (Ancestors(isa, key), Precedence(prefers, isa));
    var x, y, z :| x in among && y in among && z in among && precedes(x, y) && precedes(y, z) && !precedes(x, z);
    hide Lists, Choice, TransitiveAmong;
    MisledChoice(x, y, z, prefers, isa, key);
  }

  lemma MisledChoice(x: Key, y: Key, z: Key, prefers: Prefers, isa: Relation, key: Key)
    requires Reflexive(isa) && isa(key, x) && isa(key, y) && isa(key, z)
    requires Precedes(prefers, isa, x, y) && Precedes(prefers, isa, y, z) && !Precedes(prefers, isa, x, z)
    ensures Lists([z, y, x], {x, y, z}) && Choice([z, y, x], prefers, isa, key) == Best(x)
  {
    var order := [z, y, x];
    Misled(x, y, z, Precedence(prefers, isa));
    MatchingAll(order, 3, isa, key);
    assert order[..3] == order;
  }

  lemma ChoicePrecedes(order: seq<Key>, keys: set<Key>, prefers: Prefers, isa: Relation, key: Key, other: Key)
    requires Lists(order, keys) && key !in keys && other in keys && isa(key, other)
    requires TransitiveAmong(Ancestors(isa, key), Precedence(prefers, isa))
    requires Choice(order, prefers, isa, key).Best?
    ensures Precedes(prefers, isa, Choice(order, prefers, isa, key).key, other)
  {
    var (matching, precedes) := (Matching(order, |order|, isa, key), Precedence(prefers, isa));
    assert order[..|order|] == order;
    forall k ensures k in matching <==> k in keys && isa(key, k) {
      MatchingIn(order, |order|, isa, key, k);
    }
    BestDominates(matching, |matching|, precedes);
    var i :| 0 <= i < |matching| && matching[i] == other;
    assert precedes(Choice(order, prefers, isa, key).key, matching[i]);
  }

  /** Some enumeration that begins with given keys. */
  lemma {:induction false} Enumerated(first: seq<Key>, keys: set<Key>) returns (order: seq<Key>)
    requires Lists(first, KeysOf(first)) && forall k :: k in first ==> k in keys
    ensures Lists(order, keys) && first <= order
    decreases keys - KeysOf(first)
  {
    if k :| k in keys && k !in first {
      assert Lists(first + [k], KeysOf(first + [k]));
      assert k in keys - KeysOf(first) && k !in keys - KeysOf(first + [k]);
      order := Enumerated(first + [k], keys);
    } else {
      order := first;
    }
  }

  /** Two keys that are not comparable fail the dispatch when they are met first. */
  lemma IncomparableFails(keys: set<Key>, prefers: Prefers, isa: Relation, key: Key, x: Key, y: Key)
      returns (order: seq<Key>)
    requires x in keys && y in keys && isa(key, x) && isa(key, y)
    requires !Precedes(prefers, isa, x, y) && !Precedes(prefers, isa, y, x)
    ensures Lists(order, keys) && Choice(order, prefers, isa, key).Ambiguous?
  {
    var precedes := Precedence(prefers, isa);
    var first := if x == y then [x] else [x, y];
    assert Lists(first, KeysOf(first));
    order := Enumerated(first, keys);
    hide Lists;
    assert order[0] == x && (|first| == 2 ==> order[1] == y);
    MatchingAll(order, |first|, isa, key);
    assert order[..|first|] == first;
    assert Search(first, 1, precedes) == if precedes(x, x) then Best(x) else Ambiguous;
    AmbiguityStays(order, |first|, isa, key, precedes);
  }

  /**
    A value is dispatched whatever the order of the methods exactly when any two
    that it is an instance of are comparable.
  */
  lemma AnswersInEveryOrder(methods: map<Key, Method>, prefers: Prefers, isa: Relation, default: Key, key: Key)
    requires key !in methods
    ensures (forall order :: Lists(order, methods.Keys) ==> Answer(methods, order, prefers, isa, default, key).Ok?)
        <==> Comparable(Instances(methods, isa, key), Precedence(prefers, isa))
  {
    var (among, precedes) := (Instances(methods, isa, key), Precedence(prefers, isa));
    hide Lists, Search, Matching;
    if Comparable(among, precedes) {
      forall order | Lists(order, methods.Keys) ensures Answer(methods, order, prefers, isa, default, key).Ok? {
        MatchingLists(methods, order, isa, key);
        var matching := Matching(order, |order|, isa, key);
        ComparableFinds(matching, |matching|, precedes);
      }
    } else {
      var x, y :| x in among && y in among && !precedes(x, y) && !precedes(y, x);
      var order := IncomparableFails(methods.Keys, prefers, isa, key, x, y);
      assert Answer(methods, order, prefers, isa, default, key).Err?;
    }
  }

  /**
    A value is dispatched in some order of the methods exactly when it is an
    instance of none, or of one ahead of all.
  */
  lemma AnswersInSomeOrder(methods: map<Key, Method>, prefers: Prefers, isa: Relation, default: Key, key: Key)
    requires key !in methods && Reflexive(isa)
    requires TransitiveAmong(Instances(methods, isa, key), Precedence(prefers, isa))
    ensures (exists order :: Lists(order, methods.Keys) && Answer(methods, order, prefers, isa, default, key).Ok?)
        <==> Instances(methods, isa, key) == iset{} || exists k :: Chosen(methods, prefers, isa, key, k)
  {
    if order :| Lists(order, methods.Keys) && Answer(methods, order, prefers, isa, default, key).Ok? {
      AnswerChooses(methods, order, prefers, isa, default, key);
    }
    if Instances(methods, isa, key) == iset{} {
      var order := Enumerated([], methods.Keys);
      AnswerChooses(methods, order, prefers, isa, default, key);
    } else if d :| Chosen(methods, prefers, isa, key, d) {
      var order := Enumerated([d], methods.Keys);
      FirstLeads(methods, order, prefers, isa, key, d);
    }
  }

  lemma FirstLeads(methods: map<Key, Method>, order: seq<Key>, prefers: Prefers, isa: Relation, key: Key, d: Key)
    requires Lists(order, methods.Keys) && [d] <= order && Chosen(methods, prefers, isa, key, d) && Reflexive(isa)
    requires TransitiveAmong(Instances(methods, isa, key), Precedence(prefers, isa))
    ensures !Choice(order, prefers, isa, key).Ambiguous?
  {
    var (matching, precedes) := (Matching(order, |order|, isa, key), Precedence(prefers, isa));
    MatchingLists(methods, order, isa, key);
    MatchingFirst(order, |order|, isa, key);
    forall m | 0 < m <= |matching| ensures HasDominator(matching, m, precedes) {
      assert forall i :: 0 <= i < m ==> matching[i] in Members(matching);
      assert matching[0] == d;
      assert Dominates(matching, m, precedes, d);
    }
    SearchSucceeds(matching, |matching|, precedes);
  }

  lemma {:induction false} MatchingFirst(order: seq<Key>, n: nat, isa: Relation, key: Key)
    requires 0 < n <= |order| && isa(key, order[0])
    ensures var m := Matching(order, n, isa, key); m != [] && m[0] == order[0]
  {
    if n > 1 {
      MatchingFirst(order, n - 1, isa, key);
    }
  }

  // ------------------------------------------------------------------
  // Which keys one table can choose

  /**
    Keys that can take the lead one after the other: each precedes the one
    before it, and every other key is preceded by one of them without preceding
    it back.
  */
  ghost predicate Leads(chain: seq<Key>, keys: set<Key>, precedes: Relation) {
    && chain != [] && Lists(chain, KeysOf(chain)) && (forall k :: k in chain ==> k in keys)
    && (forall i :: 0 < i < |chain| ==> precedes(chain[i], chain[i - 1]))
    && (forall x :: x in keys && x !in chain ==> Held(chain, x, precedes))
  }

  ghost predicate Held(chain: seq<Key>, x: Key, precedes: Relation) {
    exists i :: 0 <= i < |chain| && Under(x, chain[i], precedes)
  }

  predicate Under(x: Key, lead: Key, precedes: Relation) { precedes(lead, x) && !precedes(x, lead) }

  /** The leads of a successful search. */
  lemma {:induction false} LeadsOf(order: seq<Key>, n: nat, precedes: Relation) returns (chain: seq<Key>)
    requires 0 < n <= |order| && Lists(order, KeysOf(order))
    requires Search(order, n, precedes).Best?
    ensures Leads(chain, KeysOf(order[..n]), precedes)
    ensures chain[|chain| - 1] == Search(order, n, precedes).key
  {
    var key := order[n - 1];
    assert order[..n] == order[..n - 1] + [key];
    if n == 1 {
      chain := [key];
    } else {
      FoundSome(order, n - 1, precedes);
      var before := LeadsOf(order, n - 1, precedes);
      var best := before[|before| - 1];
      assert Search(order, n - 1, precedes) == Best(best);
      NewAtEnd(order, n);
      if precedes(key, best) {
        LeadTaken(before, KeysOf(order[..n - 1]), key, precedes);
        chain := before + [key];
      } else {
        LeadKept(before, KeysOf(order[..n - 1]), key, precedes);
        chain := before;
      }
      assert KeysOf(order[..n]) == KeysOf(order[..n - 1]) + {key};
    }
  }

  lemma FoundSome(order: seq<Key>, n: nat, precedes: Relation)
    requires 0 < n < |order| && Search(order, n + 1, precedes).Best?
    ensures Search(order, n, precedes).Best?
  {
    SomethingFound(order, n, precedes);
  }

  lemma {:induction false} SomethingFound(order: seq<Key>, n: nat, precedes: Relation)
    requires 0 < n <= |order|
    ensures !Search(order, n, precedes).NoMatch?
  {
    if n > 1 {
      SomethingFound(order, n - 1, precedes);
    }
  }

  lemma NewAtEnd(order: seq<Key>, n: nat)
    requires 0 < n <= |order| && Lists(order, KeysOf(order))
    ensures order[n - 1] !in order[..n - 1]
  {
  }

  lemma LeadTaken(chain: seq<Key>, keys: set<Key>, key: Key, precedes: Relation)
    requires Leads(chain, keys, precedes) && key !in keys && precedes(key, chain[|chain| - 1])
    ensures Leads(chain + [key], keys + {key}, precedes)
  {
    var longer := chain + [key];
    forall x | x in keys + {key} && x !in longer ensures Held(longer, x, precedes) {
      assert x !in chain;
      var i :| 0 <= i < |chain| && Under(x, chain[i], precedes);
      assert Under(x, longer[i], precedes);
    }
  }

  lemma LeadKept(chain: seq<Key>, keys: set<Key>, key: Key, precedes: Relation)
    requires Leads(chain, keys, precedes) && key !in keys && Under(key, chain[|chain| - 1], precedes)
    ensures Leads(chain, keys + {key}, precedes)
  {
  }

  /** Keys under the lead do not move it. */
  lemma {:induction false} LeadStays(order: seq<Key>, more: seq<Key>, lead: Key, precedes: Relation)
    requires Search(order, |order|, precedes) == Best(lead) && forall x :: x in more ==> Under(x, lead, precedes)
    ensures Search(order + more, |order + more|, precedes) == Best(lead)
    decreases |more|
  {
    if more == [] {
      assert order + more == order;
    } else {
      assert more[0] in more;
      SearchPush(order, more[0], precedes);
      LeadStays(order + [more[0]], more[1..], lead, precedes);
      assert order + [more[0]] + more[1..] == order + more;
    }
  }

  /** The keys that come before the `n`-th lead: the leads before it, and what they hold. */
  ghost function Settled(chain: seq<Key>, n: nat, keys: set<Key>, precedes: Relation): set<Key>
    requires n <= |chain|
  {
    set x | x in keys && (x in chain[..n] || (x !in chain && Held(chain[..n], x, precedes)))
  }

  /** An order in which the leads take over one after the other. */
  lemma {:induction false} OrderOf(chain: seq<Key>, n: nat, keys: set<Key>, precedes: Relation)
      returns (order: seq<Key>)
    requires Leads(chain, keys, precedes) && Reflexive(precedes) && 0 < n <= |chain|
    ensures Lists(order, Settled(chain, n, keys, precedes))
    ensures Search(order, |order|, precedes) == Best(chain[n - 1])
  {
    var lead := chain[n - 1];
    var before := [];
    if n > 1 {
      before := OrderOf(chain, n - 1, keys, precedes);
      SearchPush(before, lead, precedes);
    } else {
      NothingFound(precedes);
      SearchPush([], lead, precedes);
    }
    var first := before + [lead];
    var prior := if n > 1 then Settled(chain, n - 1, keys, precedes) else {};
    OneMoreLead(chain, n, keys, precedes, prior);
    assert Search(first, |first|, precedes) == Best(lead);
    assert Lists(first, prior + {lead}) && KeysOf(first) == prior + {lead};
    order := Enumerated(first, Settled(chain, n, keys, precedes));
    var more := order[|first|..];
    assert order == first + more;
    forall x | x in more ensures Under(x, lead, precedes) {
      NotBefore(first, more, x);
    }
    LeadStays(first, more, lead, precedes);
  }

  lemma NotBefore(first: seq<Key>, more: seq<Key>, x: Key)
    requires Lists(first + more, KeysOf(first + more)) && x in more
    ensures x !in first
  {
    var order := first + more;
    var j :| 0 <= j < |more| && more[j] == x;
    assert order[|first| + j] == x;
    forall i | 0 <= i < |first| ensures first[i] != x {
      assert order[i] != order[|first| + j];
    }
  }

  lemma OneMoreLead(chain: seq<Key>, n: nat, keys: set<Key>, precedes: Relation, prior: set<Key>)
    requires Leads(chain, keys, precedes) && 0 < n <= |chain|
    requires prior == if n > 1 then Settled(chain, n - 1, keys, precedes) else {}
    ensures chain[n - 1] !in prior && prior + {chain[n - 1]} <= Settled(chain, n, keys, precedes)
    ensures forall x :: x in Settled(chain, n, keys, precedes) && x !in prior && x != chain[n - 1] ==>
      Under(x, chain[n - 1], precedes)
  {
    var now := Settled(chain, n, keys, precedes);
    var (short, long) := (chain[..n - 1], chain[..n]);
    assert long == short + [chain[n - 1]];
    assert forall x :: x in short ==> x in chain;
    NewAtEnd(chain, n);
    forall x | x in prior ensures x in now && x != chain[n - 1] {
      if x !in chain {
        var i :| 0 <= i < |short| && Under(x, short[i], precedes);
        assert Under(x, long[i], precedes);
      }
    }
    assert chain[n - 1] in chain && chain[n - 1] in long;
    assert forall x :: x in short ==> x in prior;
    forall x | x in now && x !in prior && x != chain[n - 1] ensures Under(x, chain[n - 1], precedes) {
      assert x !in long && !Held(short, x, precedes);
      var i :| 0 <= i < |long| && Under(x, long[i], precedes);
      assert forall k :: 0 <= k < |short| ==> long[k] == short[k] && !Under(x, short[k], precedes);
      assert i == n - 1;
    }
  }

  /** The keys a search can settle on, over all orders of some keys, are the last of their possible leads. */
  lemma SearchCanEnd(keys: set<Key>, precedes: Relation, b: Key)
    requires Reflexive(precedes)
    ensures (exists order :: Lists(order, keys) && Search(order, |order|, precedes) == Best(b))
        <==> exists chain :: Leads(chain, keys, precedes) && chain[|chain| - 1] == b
  {
    if order :| Lists(order, keys) && Search(order, |order|, precedes) == Best(b) {
      assert order[..|order|] == order && KeysOf(order) == keys;
      var chain := LeadsOf(order, |order|, precedes);
    }
    if chain :| Leads(chain, keys, precedes) && chain[|chain| - 1] == b {
      var order := OrderOf(chain, |chain|, keys, precedes);
      assert chain[..|chain|] == chain;
      assert Settled(chain, |chain|, keys, precedes) == keys;
    }
  }

  /** The same keys as a set. */
  ghost function InstanceSet(methods: map<Key, Method>, isa: Relation, key: Key): set<Key> {
    set k | k in methods && isa(key, k)
  }

  lemma {:induction false} MatchingListed(order: seq<Key>, n: nat, isa: Relation, key: Key)
    requires n <= |order| && Lists(order, KeysOf(order))
    ensures Lists(Matching(order, n, isa, key), set k | k in order[..n] && isa(key, k))
  {
    if n > 0 {
      MatchingListed(order, n - 1, isa, key);
      NewAtEnd(order, n);
      forall k ensures k in Matching(order, n, isa, key) <==> k in order[..n] && isa(key, k) {
        MatchingIn(order, n, isa, key, k);
      }
      MatchingIn(order, n - 1, isa, key, order[n - 1]);
      assert order[..n] == order[..n - 1] + [order[n - 1]];
    }
  }

  lemma {:induction false} MatchingBeyond(order: seq<Key>, m: nat, n: nat, isa: Relation, key: Key)
    requires m <= n <= |order| && forall i :: m <= i < n ==> !isa(key, order[i])
    ensures Matching(order, n, isa, key) == Matching(order, m, isa, key)
  {
    if m < n {
      MatchingBeyond(order, m, n - 1, isa, key);
      assert Matching(order, n - 1, isa, key) + [] == Matching(order, n - 1, isa, key);
    }
  }

  /** An order of some matching keys extends to one of the whole table with the same choice. */
  lemma WholeTable(methods: map<Key, Method>, first: seq<Key>, isa: Relation, key: Key) returns (order: seq<Key>)
    requires Lists(first, InstanceSet(methods, isa, key))
    ensures Lists(order, methods.Keys) && Matching(order, |order|, isa, key) == first
  {
    assert KeysOf(first) == InstanceSet(methods, isa, key);
    order := Enumerated(first, methods.Keys);
    var more := order[|first|..];
    assert order == first + more && KeysOf(order) == methods.Keys;
    forall i | |first| <= i < |order| ensures !isa(key, order[i]) {
      assert order[i] == more[i - |first|] && order[i] in more;
      NotBefore(first, more, order[i]);
    }
    assert forall i :: 0 <= i < |first| ==> order[i] == first[i] && first[i] in first;
    MatchingAll(order, |first|, isa, key);
    assert order[..|first|] == first;
    MatchingBeyond(order, |first|, |order|, isa, key);
  }

  /**
    For one table: the keys that dispatch can choose for a value, whatever the
    order of the methods, are exactly the last of the possible leads among the
    keys it is an instance of.
  */
  lemma TableCanChoose(methods: map<Key, Method>, prefers: Prefers, isa: Relation, key: Key, b: Key)
    requires Reflexive(isa)
    ensures (exists order :: Lists(order, methods.Keys) && Choice(order, prefers, isa, key) == Best(b))
        <==> exists chain ::
               Leads(chain, InstanceSet(methods, isa, key), Precedence(prefers, isa)) && chain[|chain| - 1] == b
  {
    var (keys, precedes) := (InstanceSet(methods, isa, key), Precedence(prefers, isa));
    SearchCanEnd(keys, precedes, b);
    if order :| Lists(order, methods.Keys) && Choice(order, prefers, isa, key) == Best(b) {
      assert order[..|order|] == order && KeysOf(order) == methods.Keys;
      MatchingListed(order, |order|, isa, key);
      assert (set k | k in order && isa(key, k)) == keys;
    }
    if first :| Lists(first, keys) && Search(first, |first|, precedes) == Best(b) {
      var order := WholeTable(methods, first, isa, key);
    }
  }

  /**
    For one table: the key chosen precedes every matching key in every order
    exactly when all possible leads end in such a key.
  */
  lemma TableNeverMisleads(methods: map<Key, Method>, prefers: Prefers, isa: Relation, key: Key)
    requires Reflexive(isa)
    ensures (forall order :: Lists(order, methods.Keys) && Choice(order, prefers, isa, key).Best? ==>
                Chosen(methods, prefers, isa, key, Choice(order, prefers, isa, key).key))
        <==> (forall chain :: Leads(chain, InstanceSet(methods, isa, key), Precedence(prefers, isa)) ==>
                Chosen(methods, prefers, isa, key, chain[|chain| - 1]))
  {
    hide Chosen, Choice, Lists;
    var (keys, precedes) := (InstanceSet(methods, isa, key), Precedence(prefers, isa));
    if forall chain :: Leads(chain, keys, precedes) ==> Chosen(methods, prefers, isa, key, chain[|chain| - 1]) {
      forall order | Lists(order, methods.Keys) && Choice(order, prefers, isa, key).Best?
        ensures Chosen(methods, prefers, isa, key, Choice(order, prefers, isa, key).key)
      {
        TableCanChoose(methods, prefers, isa, key, Choice(order, prefers, isa, key).key);
      }
    } else {
      var chain :| Leads(chain, keys, precedes) && !Chosen(methods, prefers, isa, key, chain[|chain| - 1]);
      TableCanChoose(methods, prefers, isa, key, chain[|chain| - 1]);
    }
  }

  // ------------------------------------------------------------------
  // Two tables that mislead dispatch

  /** A hierarchy with one value below some unrelated ones. */
  function Below(value: Key, parents: set<Key>): Relation {
    (x: Key, y: Key) => x == y || (x == value && y in parents)
  }

  /** A rectangle is a shape, and `value` is both. */
  function Shapes(value: Key, rect: Key, shape: Key): Relation {
    (x: Key, y: Key) => x == y || (x == value && y in {rect, shape}) || (x == rect && y == shape)
  }

  /** The more specific of two methods is found in both orders; a preference the other way leaves it to the order. */
  lemma ParentAndChild(shape: Key, rect: Key, value: Key, ms: Method, mr: Method, default: Key)
    requires shape != rect && value !in {shape, rect}
    ensures var (methods, isa) := (map[shape := ms, rect := mr], Shapes(value, rect, shape));
      && Answer(methods, [shape, rect], map[], isa, default, value) == Ok(Some(mr))
      && Answer(methods, [rect, shape], map[], isa, default, value) == Ok(Some(mr))
      && Answer(methods, [shape, rect], map[shape := {rect}], isa, default, value) == Ok(Some(mr))
      && Answer(methods, [rect, shape], map[shape := {rect}], isa, default, value) == Ok(Some(ms))
  {
    var isa := Shapes(value, rect, shape);
    FirstOfTwo(shape, rect, map[], isa, value);
    FirstOfTwo(rect, shape, map[], isa, value);
    FirstOfTwo(shape, rect, map[shape := {rect}], isa, value);
    FirstOfTwo(rect, shape, map[shape := {rect}], isa, value);
  }

  lemma FirstOfTwo(x: Key, y: Key, prefers: Prefers, isa: Relation, value: Key)
    requires isa(value, x) && isa(value, y) && isa(x, x) && isa(y, y)
    ensures Choice([x, y], prefers, isa, value)
         == if HasPreference(prefers, y, x) || isa(y, x) then Best(y)
            else if HasPreference(prefers, x, y) || isa(x, y) then Best(x)
            else Ambiguous
  {
    MatchingAll([x, y], 2, isa, value);
    assert [x, y][..2] == [x, y];
    assert Search([x, y], 1, Precedence(prefers, isa)) == Best(x);
  }

  /**
    With `m` preferred to `a` and to `b`, dispatch fails when it meets `a` and
    `b` first, and finds `m` when it meets `m` first.
  */
  lemma DominatorMissed(a: Key, b: Key, m: Key, value: Key, ma: Method, mb: Method, mm: Method, default: Key)
    requires a != b && a != m && b != m && value !in {a, b, m}
    ensures var methods := map[a := ma, b := mb, m := mm];
      var (prefers, isa) := (map[m := {a, b}], Below(value, {a, b, m}));
      && Chosen(methods, prefers, isa, value, m)
      && Answer(methods, [a, b, m], prefers, isa, default, value) == Err(CannotResolve)
      && Answer(methods, [m, a, b], prefers, isa, default, value) == Ok(Some(mm))
  {
    var (prefers, isa) := (map[m := {a, b}], Below(value, {a, b, m}));
    var precedes := Precedence(prefers, isa);
    MatchingAll([a, b, m], 3, isa, value);
    assert [a, b, m][..3] == [a, b, m];
    assert Search([a, b, m], 1, precedes) == Best(a);
    assert Search([a, b, m], 2, precedes) == Ambiguous;
    MatchingAll([m, a, b], 3, isa, value);
    assert [m, a, b][..3] == [m, a, b];
    assert Search([m, a, b], 1, precedes) == Best(m);
    assert Search([m, a, b], 2, precedes) == Best(m);
  }

  /** With `b` preferred to `a` and `c` to `b`, dispatch may settle on `c`, which nothing puts ahead of `a`. */
  lemma NotTransitive(a: Key, b: Key, c: Key, value: Key, ma: Method, mb: Method, mc: Method, default: Key)
    requires a != b && a != c && b != c && value !in {a, b, c}
    ensures var methods := map[a := ma, b := mb, c := mc];
      var (prefers, isa) := (map[b := {a}, c := {b}], Below(value, {a, b, c}));
      && Answer(methods, [a, b, c], prefers, isa, default, value) == Ok(Some(mc))
      && isa(value, a) && !Precedes(prefers, isa, c, a)
      && forall k :: !Chosen(methods, prefers, isa, value, k)
  {
    var methods := map[a := ma, b := mb, c := mc];
    var (prefers, isa) := (map[b := {a}, c := {b}], Below(value, {a, b, c}));
    Misled(c, b, a, Precedence(prefers, isa));
    MatchingAll([a, b, c], 3, isa, value);
    assert [a, b, c][..3] == [a, b, c];
    forall k ensures !Chosen(methods, prefers, isa, value, k) {
      assert a in Instances(methods, isa, value) && b in Instances(methods, isa, value)
        && c in Instances(methods, isa, value);
    }
  }
}
