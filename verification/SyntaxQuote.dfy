/**
  Syntax quote as a compiler from templates to code
  (src/basilisp/lang/reader.py:1426-1523).

  Code is data: the forms read, the expansion, and the values the expansion
  evaluates to share one datatype. Symbols are already resolved by the reader.
*/
module SyntaxQuote {
  import opened Prelude

  /** Self-evaluating atoms: numbers, strings, keywords, booleans. */
  type A(==, !new)

  datatype Form =
    | Nil
    | Atom(a: A)
    | Sym(ns: Option<string>, name: string)
    | List(items: seq<Form>)
    | Vec(items: seq<Form>)
    | Set(items: seq<Form>)
    | Map(items: seq<Form>) // keys and values in turn, in iteration order

  const CORE := "basilisp.core"
  const QUOTE := Sym(None, "quote")
  const UNQUOTE := Sym(Some(CORE), "unquote")
  const UNQUOTE_SPLICING := Sym(Some(CORE), "unquote-splicing")
  const LIST := Sym(Some(CORE), "list")
  const SEQ := Sym(Some(CORE), "seq")
  const CONCAT := Sym(Some(CORE), "concat")
  const APPLY := Sym(Some(CORE), "apply")
  const VECTOR := Sym(Some(CORE), "vector")
  const HASH_SET := Sym(Some(CORE), "hash-set")
  const HASH_MAP := Sym(Some(CORE), "hash-map")

  datatype Error = SpliceOutsideCollection | MissingForm

  predicate Collection(f: Form) { f.List? || f.Vec? || f.Set? || f.Map? }

  predicate IsUnquote(f: Form) { f.List? && f.items != [] && f.items[0] == UNQUOTE }

  predicate IsSplice(f: Form) { f.List? && f.items != [] && f.items[0] == UNQUOTE_SPLICING }

  /** `form[1]`. */
  function Second(f: Form): Result<Form, Error>
    requires f.List?
  {
    if |f.items| > 1 then Ok(f.items[1]) else Err(MissingForm)
  }

  // ------------------------------------------------------------------
  // Generated symbols

  /** The gensym environment of one syntax quote, and the global name counter. */
  datatype Env = Env(ids: map<string, nat>, counter: nat)

  predicate IsGensym(f: Form) { f.Sym? && f.ns.None? && f.name != [] && f.name[|f.name| - 1] == '#' }

  function Digits(n: nat): string {
    var d := ['0' + (n % 10) as char];
    if n < 10 then d else Digits(n / 10) + d
  }

  /** `genname` of the name without its `#`. */
  function Generated(name: string, id: nat): Form
    requires name != []
  {
    Sym(None, name[..|name| - 1] + "_" + Digits(id))
  }

  /** The first use of a name in a quote takes the next number. */
  function Use(env: Env, name: string): Env {
    if name in env.ids then env else Env(env.ids[name := env.counter + 1], env.counter + 1)
  }

  // ------------------------------------------------------------------
  // The expansion

  /** `_process_syntax_quoted_form`. */
  function Process(f: Form, env: Env): Result<(Form, Env), Error>
    decreases f, 1, 0
  {
    if IsUnquote(f) then
      match Second(f)
      case Ok(code) => Ok((code, env))
      case Err(e) => Err(e)
    else if IsSplice(f) then Err(SpliceOutsideCollection)
    else if Collection(f) then
      match Expand(f, |f.items|, env)
      case Err(e) => Err(e)
      case Ok((codes, env1)) => Ok((Assemble(f, codes), env1))
    else if IsGensym(f) then
      var env1 := Use(env, f.name);
      Ok((List([QUOTE, Generated(f.name, env1.ids[f.name])]), env1))
    else if f.Sym? then Ok((List([QUOTE, f]), env))
    else Ok((f, env))
  }

  /** The code that puts a collection together from the codes of its parts. */
  function Assemble(f: Form, codes: seq<Form>): Form
    requires Collection(f)
  {
    var parts := List([CONCAT] + codes);
    match f
    case List(_) => List([SEQ, parts])
    case Vec(_) => List([APPLY, VECTOR, parts])
    case Set(_) => List([APPLY, HASH_SET, parts])
    case Map(_) => List([APPLY, HASH_MAP, parts])
  }

  /** One element of `_expand_syntax_quote`. */
  function ExpandElement(e: Form, env: Env): Result<(Form, Env), Error>
    decreases e, 2, 0
  {
    if IsUnquote(e) then
      match Second(e)
      case Ok(code) => Ok((List([LIST, code]), env))
      case Err(err) => Err(err)
    else if IsSplice(e) then
      match Second(e)
      case Ok(code) => Ok((code, env))
      case Err(err) => Err(err)
    else
      match Process(e, env)
      case Ok((code, env1)) => Ok((List([LIST, code]), env1))
      case Err(err) => Err(err)
  }

  /** `_expand_syntax_quote` of the first `n` elements. */
  function Expand(f: Form, n: nat, env: Env): Result<(seq<Form>, Env), Error>
    requires Collection(f) && n <= |f.items|
    decreases f, 0, n
  {
    if n == 0 then Ok(([], env))
    else
      match Expand(f, n - 1, env)
      case Err(e) => Err(e)
      case Ok((codes, env1)) =>
        match ExpandElement(f.items[n - 1], env1)
        case Err(e) => Err(e)
        case Ok((code, env2)) => Ok((codes + [code], env2))
  }

  // ------------------------------------------------------------------
  // Evaluation

  /** Everything else the language does: other code, and the characters of an atom that is a string. */
  datatype World = World(run: Form -> Option<Form>, chars: A -> Option<seq<Form>>)

  function Pairs(items: seq<Form>): seq<Form> {
    if |items| < 2 then [] else [Vec([items[0], items[1]])] + Pairs(items[2..])
  }

  /** What `concat` sees of a value. */
  function Elements(w: World, v: Form): Option<seq<Form>> {
    match v
    case Nil => Some([])
    case Atom(a) => w.chars(a)
    case Sym(_, _) => None
    case Map(items) => Some(Pairs(items))
    case _ => Some(v.items)
  }

  function Without(items: seq<Form>, f: Form): seq<Form> {
    if items == [] then [] else (if items[0] == f then [] else [items[0]]) + Without(items[1..], f)
  }

  /** `hash-set`: each element once. */
  function Distinct(items: seq<Form>): seq<Form> {
    if items == [] then [] else [items[0]] + Without(Distinct(items[1..]), items[0])
  }

  /** The place of a key among the keys of a flat map, or its length. */
  function KeyIndex(items: seq<Form>, k: Form): (i: nat)
    requires |items| % 2 == 0
    ensures i <= |items| && i % 2 == 0 && (i < |items| ==> items[i] == k)
    ensures forall j :: 0 <= j < i && j % 2 == 0 ==> items[j] != k
  {
    if items == [] then 0 else if items[0] == k then 0 else 2 + KeyIndex(items[2..], k)
  }

  /** `hash-map`: later values win; an odd number of arguments raises. */
  function Associated(items: seq<Form>): Option<seq<Form>>
    ensures Associated(items).Some? ==> |Associated(items).value| % 2 == 0
  {
    if items == [] then Some([])
    else if |items| == 1 then None
    else
      var n := |items| - 2;
      match Associated(items[..n])
      case None => None
      case Some(m) =>
        var i := KeyIndex(m, items[n]);
        if i < |m| then Some(m[i + 1 := items[n + 1]]) else Some(m + [items[n], items[n + 1]])
  }

  /** A collection of the kind of `f` with these parts. */
  function Build(f: Form, parts: seq<Form>): Option<Form>
    requires Collection(f)
  {
    match f
    case List(_) => Some(if parts == [] then Nil else List(parts))
    case Vec(_) => Some(Vec(parts))
    case Set(_) => Some(Set(Distinct(parts)))
    case Map(_) => (match Associated(parts) case Some(m) => Some(Map(m)) case None => None)
  }

  /** The concatenation of the values of the codes from the second item of a `concat` form on, up to `n`. */
  function Concatenated(w: World, f: Form, n: nat): Option<seq<Form>>
    requires f.List? && 1 <= n <= |f.items|
    decreases f, 0, n
  {
    if n == 1 then Some([])
    else
      match Concatenated(w, f, n - 1)
      case None => None
      case Some(before) =>
        match Eval(w, f.items[n - 1])
        case None => None
        case Some(v) => (match Elements(w, v) case Some(more) => Some(before + more) case None => None)
  }

  /** Evaluation: the forms the expansion is made of, and anything else as the world does it. */
  function Eval(w: World, f: Form): Option<Form>
    decreases f, 1, 0
  {
    match f
    case Nil => Some(f)
    case Atom(_) => Some(f)
    case List(items) =>
      if |items| == 2 && items[0] == QUOTE then Some(items[1])
      else if |items| == 2 && items[0] == LIST then
        (match Eval(w, items[1]) case Some(v) => Some(List([v])) case None => None)
      else if |items| >= 1 && items[0] == CONCAT then
        (match Concatenated(w, f, |items|) case Some(vs) => Some(List(vs)) case None => None)
      else if |items| == 2 && items[0] == SEQ then
        (match Eval(w, items[1]) case Some(v) => Sequence(w, v, List([])) case None => None)
      else if |items| == 3 && items[0] == APPLY && items[1] == VECTOR then
        (match Eval(w, items[2]) case Some(v) => Sequence(w, v, Vec([])) case None => None)
      else if |items| == 3 && items[0] == APPLY && items[1] == HASH_SET then
        (match Eval(w, items[2]) case Some(v) => Sequence(w, v, Set([])) case None => None)
      else if |items| == 3 && items[0] == APPLY && items[1] == HASH_MAP then
        (match Eval(w, items[2]) case Some(v) => Sequence(w, v, Map([])) case None => None)
      else w.run(f)
    case _ => w.run(f)
  }

  function Sequence(w: World, v: Form, kind: Form): Option<Form>
    requires Collection(kind)
  {
    match Elements(w, v)
    case Some(parts) => Build(kind, parts)
    case None => None
  }

  // ------------------------------------------------------------------
  // What a template means

  /** The template with its unquotes replaced by their values and its splices inlined. */
  function Filled(w: World, f: Form, ids: map<string, nat>): Option<Form>
    decreases f, 1, 0
  {
    if IsUnquote(f) then (if |f.items| > 1 then Eval(w, f.items[1]) else None)
    else if Collection(f) then
      match Parts(w, f, |f.items|, ids)
      case Some(parts) => Build(f, parts)
      case None => None
    else if IsGensym(f) then (if f.name in ids then Some(Generated(f.name, ids[f.name])) else None)
    else Some(f)
  }

  /** What one element of a template contributes to its collection. */
  function Part(w: World, e: Form, ids: map<string, nat>): Option<seq<Form>>
    decreases e, 2, 0
  {
    if IsSplice(e) then
      if |e.items| > 1 then (match Eval(w, e.items[1]) case Some(v) => Elements(w, v) case None => None) else None
    else (match Filled(w, e, ids) case Some(v) => Some([v]) case None => None)
  }

  function Parts(w: World, f: Form, n: nat, ids: map<string, nat>): Option<seq<Form>>
    requires Collection(f) && n <= |f.items|
    decreases f, 0, n
  {
    if n == 0 then Some([])
    else
      match Parts(w, f, n - 1, ids)
      case None => None
      case Some(before) =>
        match Part(w, f.items[n - 1], ids)
        case None => None
        case Some(more) => Some(before + more)
  }

  /** Every unquote has a form, and no splice stands outside a collection. */
  predicate Quotable(f: Form)
    decreases f, 1
  {
    if IsUnquote(f) then |f.items| > 1
    else if IsSplice(f) then false
    else Collection(f) ==> forall i :: 0 <= i < |f.items| ==> QuotableElement(f.items[i])
  }

  predicate QuotableElement(e: Form)
    decreases e, 2
  {
    if IsUnquote(e) || IsSplice(e) then |e.items| > 1 else Quotable(e)
  }

  // ------------------------------------------------------------------
  // The expansion means the template

  predicate Within(ids: map<string, nat>, more: map<string, nat>) {
    forall x :: x in ids ==> x in more && more[x] == ids[x]
  }

  /** Numbers are given out once, to one name each. */
  predicate Fresh(env: Env) {
    && (forall x :: x in env.ids ==> env.ids[x] <= env.counter)
    && (forall x, y :: x in env.ids && y in env.ids && x != y ==> env.ids[x] != env.ids[y])
  }

  /** An expansion only adds names, each with a number never used before. */
  predicate Grows(env: Env, env1: Env) {
    && Within(env.ids, env1.ids) && env.counter <= env1.counter && (Fresh(env) ==> Fresh(env1))
    && (forall x :: x in env1.ids && x !in env.ids ==> env.counter < env1.ids[x])
  }

  lemma {:induction false} ProcessGrows(f: Form, env: Env)
    ensures Process(f, env).Ok? <==> Quotable(f)
    ensures Process(f, env).Ok? ==> Grows(env, Process(f, env).value.1)
    ensures Process(f, env).Err? && !IsUnquote(f) && IsSplice(f) ==> Process(f, env).error == SpliceOutsideCollection
    decreases f, 1, 0
  {
    if !IsUnquote(f) && !IsSplice(f) && Collection(f) {
      ExpandGrows(f, |f.items|, env);
    }
  }

  lemma {:induction false} ElementGrows(e: Form, env: Env)
    ensures ExpandElement(e, env).Ok? <==> QuotableElement(e)
    ensures ExpandElement(e, env).Ok? ==> Grows(env, ExpandElement(e, env).value.1)
    decreases e, 2, 0
  {
    if !IsUnquote(e) && !IsSplice(e) {
      ProcessGrows(e, env);
    }
  }

  lemma {:induction false} ExpandGrows(f: Form, n: nat, env: Env)
    requires Collection(f) && n <= |f.items|
    ensures Expand(f, n, env).Ok? <==> forall i :: 0 <= i < n ==> QuotableElement(f.items[i])
    ensures Expand(f, n, env).Ok? ==> Grows(env, Expand(f, n, env).value.1) && |Expand(f, n, env).value.0| == n
    decreases f, 0, n
  {
    hide QuotableElement, ExpandElement;
    if n > 0 {
      ExpandGrows(f, n - 1, env);
      var before := Expand(f, n - 1, env);
      if before.Ok? {
        ElementGrows(f.items[n - 1], before.value.1);
      }
    }
  }

  lemma {:induction false} ConcatenatedPrefix(w: World, codes: seq<Form>, more: seq<Form>, n: nat)
    requires 1 <= n <= |codes|
    ensures Concatenated(w, List(codes + more), n) == Concatenated(w, List(codes), n)
    decreases n
  {
    if n > 1 {
      ConcatenatedPrefix(w, codes, more, n - 1);
    }
  }

  /** The value a code contributes to a `concat`. */
  function Spread(w: World, code: Form): Option<seq<Form>> {
    match Eval(w, code)
    case Some(v) => Elements(w, v)
    case None => None
  }

  lemma ConcatenatedPush(w: World, codes: seq<Form>, code: Form)
    requires codes != []
    ensures Concatenated(w, List(codes + [code]), |codes| + 1) ==
      match Concatenated(w, List(codes), |codes|) {
        case None => None
        case Some(before) => (match Spread(w, code) case Some(more) => Some(before + more) case None => None)
      }
  {
    hide Eval;
    ConcatenatedPrefix(w, codes, [code], |codes|);
    assert List(codes + [code]).items[|codes|] == code;
  }

  lemma {:induction false} ExpandMeans(w: World, f: Form, n: nat, env: Env, ids: map<string, nat>)
    requires Collection(f) && n <= |f.items| && Expand(f, n, env).Ok? && Within(Expand(f, n, env).value.1.ids, ids)
    ensures |Expand(f, n, env).value.0| == n
    ensures Concatenated(w, List([CONCAT] + Expand(f, n, env).value.0), n + 1) == Parts(w, f, n, ids)
    decreases f, 0, n
  {
    hide Eval, ExpandElement, Part, Concatenated;
    if n == 0 {
      ConcatenatedNone(w);
    } else {
      var before := Expand(f, n - 1, env).value;
      var last := ExpandElement(f.items[n - 1], before.1).value;
      ElementGrows(f.items[n - 1], before.1);
      ExpandMeans(w, f, n - 1, env, ids);
      ElementMeans(w, f.items[n - 1], before.1, ids);
      ConcatenatedPush(w, [CONCAT] + before.0, last.0);
      assert [CONCAT] + (before.0 + [last.0]) == [CONCAT] + before.0 + [last.0];
    }
  }

  lemma ConcatenatedNone(w: World)
    ensures Concatenated(w, List([CONCAT] + []), 1) == Some([])
  {
  }

  lemma {:induction false} ElementMeans(w: World, e: Form, env: Env, ids: map<string, nat>)
    requires ExpandElement(e, env).Ok? && Within(ExpandElement(e, env).value.1.ids, ids)
    ensures Spread(w, ExpandElement(e, env).value.0) == Part(w, e, ids)
    decreases e, 2, 0
  {
    if !IsSplice(e) && !IsUnquote(e) {
      ProcessMeans(w, e, env, ids);
    }
  }

  /** The codes that gather the parts evaluate to the collection of the parts' values. */
  lemma AssembleEval(w: World, f: Form, codes: seq<Form>)
    requires Collection(f)
    ensures Eval(w, Assemble(f, codes)) ==
      match Concatenated(w, List([CONCAT] + codes), |codes| + 1) {
        case Some(parts) => Build(f, parts)
        case None => None
      }
  {
    hide Concatenated;
    var parts := List([CONCAT] + codes);
    assert Eval(w, parts) ==
      match Concatenated(w, parts, |codes| + 1) { case Some(vs) => Some(List(vs)) case None => None };
  }

  /**
    Evaluating the expansion of a template gives the template filled in, for
    any later names: every use of one `x#` in the quote is the same symbol.
  */
  lemma {:induction false} ProcessMeans(w: World, f: Form, env: Env, ids: map<string, nat>)
    requires Process(f, env).Ok? && Within(Process(f, env).value.1.ids, ids)
    ensures Eval(w, Process(f, env).value.0) == Filled(w, f, ids)
    decreases f, 1, 0
  {
    if IsUnquote(f) || IsSplice(f) {
    } else if Collection(f) {
      ExpandMeans(w, f, |f.items|, env, ids);
      AssembleEval(w, f, Expand(f, |f.items|, env).value.0);
    } else if f.Sym? {
    }
  }

  // ------------------------------------------------------------------
  // Generated symbols never clash

  lemma {:induction false} DigitsOnly(n: nat)
    ensures Digits(n) != [] && forall i :: 0 <= i < |Digits(n)| ==> '0' <= Digits(n)[i] <= '9'
  {
    if n >= 10 {
      DigitsOnly(n / 10);
    }
  }

  lemma {:induction false} DigitsInjective(m: nat, n: nat)
    requires Digits(m) == Digits(n)
    ensures m == n
  {
    var (a, b) := (Digits(m), Digits(n));
    DigitsOnly(m / 10);
    DigitsOnly(n / 10);
    assert a[|a| - 1] == '0' + (m % 10) as char && b[|b| - 1] == '0' + (n % 10) as char;
    if m >= 10 && n >= 10 {
      assert a[..|a| - 1] == Digits(m / 10) && b[..|b| - 1] == Digits(n / 10);
      DigitsInjective(m / 10, n / 10);
    }
  }

  lemma LastUnderscore(p: string, d: string, q: string, e: string)
    requires p + "_" + d == q + "_" + e
    requires forall i :: 0 <= i < |d| ==> d[i] != '_'
    requires forall i :: 0 <= i < |e| ==> e[i] != '_'
    ensures d == e
  {
    var (s, t) := (p + "_" + d, q + "_" + e);
    assert s[|p|] == '_' && t[|q|] == '_';
    assert forall k :: |p| < k < |s| ==> s[k] == d[k - |p| - 1];
    assert forall k :: |q| < k < |t| ==> t[k] == e[k - |q| - 1];
    assert s[|p| + 1..] == d && t[|q| + 1..] == e;
  }

  /** Different numbers give different symbols, whatever the names. */
  lemma GeneratedDiffer(x: string, i: nat, y: string, j: nat)
    requires x != [] && y != [] && i != j
    ensures Generated(x, i) != Generated(y, j)
  {
    DigitsOnly(i);
    DigitsOnly(j);
    if Generated(x, i) == Generated(y, j) {
      LastUnderscore(x[..|x| - 1], Digits(i), y[..|y| - 1], Digits(j));
      DigitsInjective(i, j);
    }
  }

  /**
    A syntax quote: the reader accepts exactly the quotable templates; the
    expansion evaluates to the filled-in template; different `x#` are different
    symbols, and none was generated before.
  */
  lemma QuoteMeans(w: World, f: Form, counter: nat)
    ensures Process(f, Env(map[], counter)).Ok? <==> Quotable(f)
    ensures Quotable(f) ==>
      var (code, env) := Process(f, Env(map[], counter)).value;
      && Eval(w, code) == Filled(w, f, env.ids)
      && (forall x, y :: x in env.ids && y in env.ids && x != y && x != [] && y != [] ==>
           Generated(x, env.ids[x]) != Generated(y, env.ids[y]))
      && (forall x, y, i: nat :: x in env.ids && x != [] && y != [] && i <= counter ==>
            Generated(x, env.ids[x]) != Generated(y, i))
  {
    var start := Env(map[], counter);
    ProcessGrows(f, start);
    if Quotable(f) {
      var env := Process(f, start).value.1;
      ProcessMeans(w, f, start, env.ids);
      forall x, i: nat, y, j: nat | x != [] && y != [] && i != j ensures Generated(x, i) != Generated(y, j) {
        GeneratedDiffer(x, i, y, j);
      }
      assert Fresh(start);
    }
  }

  // ------------------------------------------------------------------
  // Maps without splices

  predicate KeysDiffer(items: seq<Form>) {
    forall i, j :: 0 <= i < j < |items| && i % 2 == 0 && j % 2 == 0 ==> items[i] != items[j]
  }

  lemma LastPair(items: seq<Form>)
    requires |items| >= 2
    ensures items == items[..|items| - 2] + [items[|items| - 2], items[|items| - 1]]
  {
  }

  lemma {:induction false} AssociatedDistinct(items: seq<Form>)
    requires |items| % 2 == 0 && KeysDiffer(items)
    ensures Associated(items) == Some(items)
    decreases |items|
  {
    if items != [] {
      var n := |items| - 2;
      AssociatedDistinct(items[..n]);
      LastPair(items);
      hide KeyIndex, KeysDiffer;
    }
  }

  lemma {:induction false} PartsUnspliced(w: World, f: Form, n: nat, ids: map<string, nat>)
    requires Collection(f) && n <= |f.items| && Parts(w, f, n, ids).Some?
    requires forall i :: 0 <= i < n ==> !IsSplice(f.items[i])
    ensures var parts := Parts(w, f, n, ids).value;
      |parts| == n && forall i :: 0 <= i < n ==> Filled(w, f.items[i], ids) == Some(parts[i])
    decreases n
  {
    hide Filled;
    if n > 0 {
      PartsUnspliced(w, f, n - 1, ids);
    }
  }

  /** A map template without splices becomes the map with every key and value filled in where it stands. */
  lemma MapFilled(w: World, f: Form, ids: map<string, nat>)
    requires f.Map? && |f.items| % 2 == 0 && forall i :: 0 <= i < |f.items| ==> !IsSplice(f.items[i])
    requires Parts(w, f, |f.items|, ids).Some? && KeysDiffer(Parts(w, f, |f.items|, ids).value)
    ensures Filled(w, f, ids).Some? && Filled(w, f, ids).value.Map?
    ensures var items := Filled(w, f, ids).value.items;
      |items| == |f.items| && forall i :: 0 <= i < |items| ==> Filled(w, f.items[i], ids) == Some(items[i])
  {
    PartsUnspliced(w, f, |f.items|, ids);
    AssociatedDistinct(Parts(w, f, |f.items|, ids).value);
    assert Filled(w, f, ids) == Some(Map(Parts(w, f, |f.items|, ids).value));
    hide Filled;
  }

  // ------------------------------------------------------------------
  // The pieces a template is filled in with

  lemma {:induction false} WithoutIn(items: seq<Form>, f: Form)
    ensures forall x :: x in Without(items, f) <==> x in items && x != f
    ensures Once(items) ==> Once(Without(items, f))
  {
    if items != [] {
      WithoutIn(items[1..], f);
      assert items == [items[0]] + items[1..];
      if Once(items) {
        assert items[0] !in items[1..];
        OnceMore(items[0], Without(items[1..], f));
      }
    }
  }

  lemma OnceMore(first: Form, others: seq<Form>)
    ensures Once(others) && first !in others ==> Once([first] + others)
  {
  }

  predicate Once(items: seq<Form>) { forall i, j :: 0 <= i < j < |items| ==> items[i] != items[j] }

  lemma {:induction false} DistinctMeans(items: seq<Form>)
    ensures Once(Distinct(items)) && forall x :: x in Distinct(items) <==> x in items
  {
    if items != [] {
      DistinctMeans(items[1..]);
      WithoutIn(Distinct(items[1..]), items[0]);
      OnceMore(items[0], Without(Distinct(items[1..]), items[0]));
      assert items == [items[0]] + items[1..];
    }
  }

  /** The value that the last pair with a key gives it. */
  function LastValue(items: seq<Form>, k: Form): Option<Form>
    requires |items| % 2 == 0
  {
    if items == [] then None
    else
      var n := |items| - 2;
      if items[n] == k then Some(items[n + 1]) else LastValue(items[..n], k)
  }

  lemma {:induction false} LastValueAt(items: seq<Form>, k: Form)
    requires |items| % 2 == 0 && KeysDiffer(items)
    ensures forall i :: 0 <= i < |items| && i % 2 == 0 && items[i] == k ==> LastValue(items, k) == Some(items[i + 1])
    ensures (forall i :: 0 <= i < |items| && i % 2 == 0 ==> items[i] != k) ==> LastValue(items, k) == None
    decreases |items|
  {
    if items != [] {
      LastValueAt(items[..|items| - 2], k);
    }
  }

  /** A map has each key once, with the value that came last. */
  lemma {:induction false} AssociatedMeans(items: seq<Form>, k: Form)
    ensures Associated(items).Some? <==> |items| % 2 == 0
    ensures |items| % 2 == 0 ==>
      KeysDiffer(Associated(items).value) && LastValue(Associated(items).value, k) == LastValue(items, k)
    decreases |items|
  {
    hide KeysDiffer, KeyIndex;
    if items == [] {
      NoKeys();
    } else if |items| >= 2 {
      var n := |items| - 2;
      AssociatedMeans(items[..n], k);
      if |items| % 2 == 0 {
        AddPair(Associated(items[..n]).value, items[n], items[n + 1], k);
      }
    }
  }

  lemma NoKeys()
    ensures KeysDiffer([])
  {
  }

  lemma AddPair(m: seq<Form>, key: Form, value: Form, k: Form)
    requires |m| % 2 == 0 && KeysDiffer(m)
    ensures var i := KeyIndex(m, key);
      var m1 := if i < |m| then m[i + 1 := value] else m + [key, value];
      && |m1| % 2 == 0 && KeysDiffer(m1)
      && LastValue(m1, k) == if key == k then Some(value) else LastValue(m, k)
  {
    hide LastValue, KeysDiffer;
    var i := KeyIndex(m, key);
    if i < |m| {
      ReplaceValue(m, i, value, k);
    } else {
      AppendPair(m, key, value, k);
    }
  }

  lemma ReplaceValue(m: seq<Form>, i: nat, value: Form, k: Form)
    requires |m| % 2 == 0 && KeysDiffer(m) && i < |m| && i % 2 == 0
    ensures var m1 := m[i + 1 := value];
      KeysDiffer(m1) && LastValue(m1, k) == if m[i] == k then Some(value) else LastValue(m, k)
  {
    hide LastValue;
    var m1 := m[i + 1 := value];
    LastValueAt(m, k);
    LastValueAt(m1, k);
    if j :| 0 <= j < |m| && j % 2 == 0 && m[j] == k {
      assert m1[j] == k && LastValue(m1, k) == Some(m1[j + 1]) && LastValue(m, k) == Some(m[j + 1]);
      assert i != j ==> m[i] != k;
    }
  }

  lemma AppendPair(m: seq<Form>, key: Form, value: Form, k: Form)
    requires |m| % 2 == 0 && KeysDiffer(m) && forall j :: 0 <= j < |m| && j % 2 == 0 ==> m[j] != key
    ensures var m1 := m + [key, value];
      KeysDiffer(m1) && LastValue(m1, k) == if key == k then Some(value) else LastValue(m, k)
  {
    assert (m + [key, value])[..|m|] == m;
  }

  /**
    The collection that a template becomes: an empty list is nil, a set has
    each part once, and a map each key once with its last value; a key without
    a value raises.
  */
  lemma CollectionBuilt(f: Form, parts: seq<Form>, k: Form)
    requires Collection(f)
    ensures match f
            case List(_) => Build(f, parts) == Some(if parts == [] then Nil else List(parts))
            case Vec(_) => Build(f, parts) == Some(Vec(parts))
            case Set(_) =>
              && Build(f, parts).Some? && Build(f, parts).value.Set? && Once(Build(f, parts).value.items)
              && forall x :: x in Build(f, parts).value.items <==> x in parts
            case Map(_) =>
              && (Build(f, parts).Some? <==> |parts| % 2 == 0)
              && (|parts| % 2 == 0 ==>
                && Build(f, parts).value.Map? && KeysDiffer(Build(f, parts).value.items)
                && |Build(f, parts).value.items| % 2 == 0
                && LastValue(Build(f, parts).value.items, k) == LastValue(parts, k))
  {
    DistinctMeans(parts);
    AssociatedMeans(parts, k);
    hide Distinct, Associated, LastValue;
  }

  lemma {:induction false} PairsAt(items: seq<Form>)
    requires |items| % 2 == 0
    ensures |Pairs(items)| == |items| / 2
    ensures forall i :: 0 <= i < |items| / 2 ==> Pairs(items)[i] == Vec([items[2 * i], items[2 * i + 1]])
  {
    if items != [] {
      PairsAt(items[2..]);
    }
  }

  /** What a splice contributes: the items of a sequence, the entries of a map, nothing for nil; a symbol raises. */
  lemma SpliceContributes(w: World, code: Form, ids: map<string, nat>)
    requires Eval(w, code).Some?
    ensures var (v, part) := (Eval(w, code).value, Part(w, List([UNQUOTE_SPLICING, code]), ids));
      match v
      case Nil => part == Some([])
      case List(items) => part == Some(items)
      case Vec(items) => part == Some(items)
      case Set(items) => part == Some(items)
      case Map(items) => |items| % 2 == 0 ==>
        && part.Some? && |part.value| == |items| / 2
        && forall i :: 0 <= i < |items| / 2 ==> part.value[i] == Vec([items[2 * i], items[2 * i + 1]])
      case Atom(a) => part == w.chars(a)
      case Sym(_, _) => part == None
  {
    var v := Eval(w, code).value;
    hide Eval;
    if v.Map? && |v.items| % 2 == 0 {
      PairsAt(v.items);
    }
  }

  /** The number that decimal digits write. */
  function Number(s: string): int {
    if s == [] then 0 else 10 * Number(s[..|s| - 1]) + (s[|s| - 1] as int - '0' as int)
  }

  /** A generated symbol is the name without its mark, an underscore and the number in decimal. */
  lemma {:induction false} GeneratedName(base: string, id: nat)
    ensures Generated(base + "#", id) == Sym(None, base + "_" + Digits(id)) && Number(Digits(id)) == id
    decreases id
  {
    assert (base + "#")[..|base|] == base;
    var d := ['0' + (id % 10) as char];
    assert Number([]) == 0 && d[..0] == [];
    if id >= 10 {
      GeneratedName(base, id / 10);
      assert Digits(id)[..|Digits(id)| - 1] == Digits(id / 10);
    }
  }

  /** A refused quote is a splice that stands alone, or else has an unquote or a splice without a form. */
  lemma {:induction false} RefusedFor(f: Form, env: Env)
    ensures Process(f, env).Err? ==>
      Process(f, env).error == if IsSplice(f) then SpliceOutsideCollection else MissingForm
    decreases f, 1, 0
  {
    if Collection(f) && !IsUnquote(f) && !IsSplice(f) {
      ExpandRefusedFor(f, |f.items|, env);
    }
  }

  lemma {:induction false} ExpandRefusedFor(f: Form, n: nat, env: Env)
    requires Collection(f) && n <= |f.items|
    ensures Expand(f, n, env).Err? ==> Expand(f, n, env).error == MissingForm
    decreases f, 0, n
  {
    if n > 0 {
      ExpandRefusedFor(f, n - 1, env);
      if Expand(f, n - 1, env).Ok? {
        RefusedFor(f.items[n - 1], Expand(f, n - 1, env).value.1);
      }
    }
  }

  // ------------------------------------------------------------------
  // The reader's own form: the environment is a dictionary updated in place

  class ReaderContext {
    var gensymEnv: map<string, nat>
    var nameCounter: nat

    ghost function Model(): Env
      reads this
    {
      Env(gensymEnv, nameCounter)
    }

    constructor (counter: nat)
      ensures Model() == Env(map[], counter)
    {
      gensymEnv, nameCounter := map[], counter;
    }

    method ProcessForm(f: Form) returns (r: Result<Form, Error>)
      modifies this
      ensures match old(Process(f, Model()))
              case Ok((code, env)) => r == Ok(code) && Model() == env
              case Err(e) => r == Err(e)
      decreases f, 1
    {
      if IsUnquote(f) {
        return Second(f);
      }
      if IsSplice(f) {
        return Err(SpliceOutsideCollection);
      }
      if Collection(f) {
        var codes := ExpandForms(f);
        return match codes case Ok(cs) => Ok(Assemble(f, cs)) case Err(e) => Err(e);
      }
      if IsGensym(f) {
        if f.name !in gensymEnv {
          nameCounter := nameCounter + 1;
          gensymEnv := gensymEnv[f.name := nameCounter];
        }
        return Ok(List([QUOTE, Generated(f.name, gensymEnv[f.name])]));
      }
      if f.Sym? {
        return Ok(List([QUOTE, f]));
      }
      r := Ok(f);
    }

    /** The body of the loop of `_expand_syntax_quote`. */
    method ExpandOne(elem: Form) returns (r: Result<Form, Error>)
      modifies this
      ensures match old(ExpandElement(elem, Model()))
              case Ok((code, env)) => r == Ok(code) && Model() == env
              case Err(e) => r == Err(e)
      decreases elem, 2
    {
      if IsUnquote(elem) || IsSplice(elem) {
        var code := Second(elem);
        return match code
          case Ok(c) => Ok(if IsUnquote(elem) then List([LIST, c]) else c)
          case Err(e) => Err(e);
      }
      var code := ProcessForm(elem);
      r := match code case Ok(c) => Ok(List([LIST, c])) case Err(e) => Err(e);
    }

    method ExpandForms(f: Form) returns (r: Result<seq<Form>, Error>)
      requires Collection(f)
      modifies this
      ensures match old(Expand(f, |f.items|, Model()))
              case Ok((codes, env)) => r == Ok(codes) && Model() == env
              case Err(e) => r == Err(e)
      decreases f, 0
    {
      var expanded: seq<Form> := [];
      var i := 0;
      while i < |f.items|
        invariant 0 <= i <= |f.items|
        invariant old(Expand(f, i, Model())) == Ok((expanded, Model()))
      {
        var code := ExpandOne(f.items[i]);
        match code {
          case Err(e) =>
            ExpandFails(f, i + 1, old(Model()));
            return Err(e);
          case Ok(c) => expanded := expanded + [c];
        }
        i := i + 1;
      }
      r := Ok(expanded);
    }
  }

  /** The first failing element decides the error. */
  lemma {:induction false} ExpandFails(f: Form, n: nat, env: Env)
    requires Collection(f) && n <= |f.items| && Expand(f, n, env).Err?
    ensures Expand(f, |f.items|, env) == Err(Expand(f, n, env).error)
    decreases |f.items| - n
  {
    hide ExpandElement;
    if n < |f.items| {
      ExpandFails(f, n + 1, env);
    }
  }
}
