/**
  The log of one transaction attempt (src/basilisp/lang/stm.py:153-257).

  `ApplyAct` is what one call of `read`, `alter`, `ref_set`, `commute` or
  `ensure` does to the log entries of its Ref, `Decide` is what `commit` does
  to the Refs. `DirectAct` is the meaning a reader expects of the same five
  operations: they act on a plain store at once, with no log at all.
  `CommitIsReplay` connects the two.
*/
module StmLog {
  import opened Prelude

  type Value(==, !new)

  /** An update function; `None` is a call that raises. */
  type Fn = Value -> Option<Value>

  /** The committed state of a Ref. */
  datatype Cell = Cell(value: Value, version: nat)

  datatype Act = Read | Alter(f: Fn) | RefSet(v: Value) | Commute(f: Fn) | Ensure

  // ------------------------------------------------------------------
  // The log of one Ref

  /** What the five dictionaries of a transaction hold for one Ref. */
  datatype Slot = Slot(
    read: Option<Cell>,
    write: Option<Value>,
    commutes: seq<Fn>,
    commuted: Option<Value>,
    ensured: bool)
  {
    /** Only commuted: replayed on the committed value. */
    predicate Pure() { commutes != [] && write.None? }

    /** `commit` compares the version that was read. */
    predicate Protected() { read.Some? && (!Pure() || ensured) }

    /** `commit` assigns the Ref. */
    predicate Touched() { write.Some? || commutes != [] }

    predicate Conflict(cell: Cell) { Protected() && read.value.version != cell.version }

    /** What `commit` assigns; `None` if a replayed commute raises. */
    function NewValue(cell: Cell): Option<Value>
      requires Touched()
    {
      if write.Some? then write else Fold(commutes, cell.value)
    }

    /** A staged or ensured Ref was read first; it has a commuted value exactly when it is only commuted. */
    ghost predicate Ok() {
      && (Touched() || ensured ==> read.Some?)
      && (commuted.Some? <==> Pure())
      && (Pure() ==> Fold(commutes, read.value.value) == commuted)
    }
  }

  const EMPTY_SLOT := Slot(None, None, [], None, false)

  /** The left fold of the staged commutes of one Ref. */
  function Fold(fs: seq<Fn>, v: Value): Option<Value>
    decreases |fs|
  {
    if fs == [] then Some(v)
    else
      match Fold(fs[..|fs| - 1], v)
      case None => None
      case Some(w) => fs[|fs| - 1](w)
  }

  lemma FoldSnoc(fs: seq<Fn>, f: Fn, v: Value)
    ensures Fold(fs + [f], v) == match Fold(fs, v) case None => None case Some(w) => f(w)
  {
    assert (fs + [f])[..|fs|] == fs;
  }

  lemma {:induction false} FoldPrefix(fs: seq<Fn>, gs: seq<Fn>, v: Value)
    requires fs <= gs && Fold(gs, v).Some?
    ensures Fold(fs, v).Some?
    decreases |gs|
  {
    if |fs| == |gs| {
      assert fs == gs;
    } else {
      FoldPrefix(fs, gs[..|gs| - 1], v);
    }
  }

  /** `read`: the entries after it and the value it returns, where `cell` is what the Ref holds. */
  function ReadSlot(s: Slot, cell: Cell): (Slot, Value) {
    if s.write.Some? then (s, s.write.value)
    else if s.commuted.Some? then (s, s.commuted.value)
    else if s.read.Some? then (s, s.read.value.value)
    else (s.(read := Some(cell)), cell.value)
  }

  /** One operation of the body: the entries after it and what the body sees (`None` if the call raises). */
  function ApplyAct(s: Slot, act: Act, cell: Cell): (Slot, Option<Value>) {
    var (s1, v) := ReadSlot(s, cell);
    match act
    case Read => (s1, Some(v))
    case Ensure => (s1.(ensured := true), Some(v))
    case RefSet(w) =>
      if s.commutes != [] then (s, None) else (s1.(write := Some(w)), Some(w))
    case Alter(f) =>
      if s.commutes != [] then (s, None)
      else if f(v).None? then (s1, None)
      else (s1.(write := f(v)), f(v))
    case Commute(f) =>
      if f(v).None? then (s1, None)
      else
        var s2 := s1.(commutes := s1.commutes + [f]);
        (if s.write.Some? then s2.(write := f(v)) else s2.(commuted := f(v)), f(v))
  }

  lemma ApplyActKeepsOk(s: Slot, act: Act, cell: Cell)
    requires s.Ok()
    ensures ApplyAct(s, act, cell).0.Ok()
  {
    var (s1, v) := ReadSlot(s, cell);
    if act.Commute? && s.write.None? {
      FoldSnoc(s1.commutes, act.f, s1.read.value.value);
    }
  }

  // ------------------------------------------------------------------
  // The log of a whole attempt

  datatype Op<K> = Op(ref: K, act: Act)

  type Log<K(==)> = map<K, Slot>

  function SlotOf<K>(l: Log<K>, r: K): Slot {
    if r in l then l[r] else EMPTY_SLOT
  }

  function ApplyOp<K>(l: Log<K>, op: Op<K>, cell: Cell): (Log<K>, Option<Value>) {
    var (s, out) := ApplyAct(SlotOf(l, op.ref), op.act, cell);
    (l[op.ref := s], out)
  }

  datatype Decision<K> = Conflict(refs: set<K>) | Raise | Publish(changes: map<K, Value>)

  function Conflicts<K>(l: Log<K>, mem: map<K, Cell>): set<K>
    requires l.Keys <= mem.Keys
  {
    set r | r in l && l[r].Conflict(mem[r])
  }

  predicate AllDefined<K>(l: Log<K>, mem: map<K, Cell>)
    requires l.Keys <= mem.Keys
  {
    forall r :: r in l && l[r].Touched() ==> l[r].NewValue(mem[r]).Some?
  }

  function NewValues<K>(l: Log<K>, mem: map<K, Cell>): map<K, Value>
    requires l.Keys <= mem.Keys && AllDefined(l, mem)
  {
    map r | r in l && l[r].Touched() :: l[r].NewValue(mem[r]).value
  }

  /** What `commit` decides while it holds the locks of all Refs of the log. */
  function Decide<K>(l: Log<K>, mem: map<K, Cell>, valid: (K, Value) -> bool): Decision<K>
    requires l.Keys <= mem.Keys
  {
    if Conflicts(l, mem) != {} then Conflict(Conflicts(l, mem))
    else if !AllDefined(l, mem) then Raise
    else
      var changes := NewValues(l, mem);
      if exists r | r in changes.Keys :: !valid(r, changes[r]) then Raise
      else Publish(changes)
  }

  function Published<K>(mem: map<K, Cell>, changes: map<K, Value>): map<K, Cell> {
    map r | r in mem :: if r in changes then Cell(changes[r], mem[r].version + 1) else mem[r]
  }

  function Values<K>(mem: map<K, Cell>): map<K, Value> {
    map r | r in mem :: mem[r].value
  }

  /** One operation of a body, the committed cell it could see, and its outcome. */
  datatype Entry<K> = Entry(op: Op<K>, cell: Cell, seen: Option<Value>)

  /** The log that a trace of operations leaves. */
  function LogOf<K>(trace: seq<Entry<K>>): Log<K>
    decreases |trace|
  {
    if trace == [] then map[]
    else ApplyOp(LogOf(trace[..|trace| - 1]), trace[|trace| - 1].op, trace[|trace| - 1].cell).0
  }

  /** The trace only uses the Refs `refs`. */
  predicate On<K>(trace: seq<Entry<K>>, refs: set<K>) {
    forall k :: 0 <= k < |trace| ==> trace[k].op.ref in refs
  }

  lemma {:induction false} LogOfOn<K>(trace: seq<Entry<K>>, refs: set<K>)
    requires On(trace, refs)
    ensures LogOf(trace).Keys <= refs
    decreases |trace|
  {
    if trace != [] {
      LogOfOn(trace[..|trace| - 1], refs);
    }
  }

  /** The recorded outcomes are those the log produced. */
  ghost predicate Faithful<K>(trace: seq<Entry<K>>) {
    forall k :: 0 <= k < |trace| ==> trace[k].seen == ApplyOp(LogOf(trace[..k]), trace[k].op, trace[k].cell).1
  }

  lemma FaithfulSnoc<K>(trace: seq<Entry<K>>, e: Entry<K>)
    requires Faithful(trace) && e.seen == ApplyOp(LogOf(trace), e.op, e.cell).1
    ensures Faithful(trace + [e]) && LogOf(trace + [e]) == ApplyOp(LogOf(trace), e.op, e.cell).0
  {
    var longer := trace + [e];
    assert longer[..|trace|] == trace;
    forall k | 0 <= k < |longer|
      ensures longer[k].seen == ApplyOp(LogOf(longer[..k]), longer[k].op, longer[k].cell).1
    {
      if k < |trace| {
        assert longer[..k] == trace[..k];
      }
    }
  }

  lemma {:induction false} LogOfOk<K>(trace: seq<Entry<K>>, r: K)
    ensures SlotOf(LogOf(trace), r).Ok()
    decreases |trace|
  {
    if trace != [] {
      var m := |trace| - 1;
      LogOfOk(trace[..m], r);
      ApplyActKeepsOk(SlotOf(LogOf(trace[..m]), r), trace[m].op.act, trace[m].cell);
    }
  }

  // ------------------------------------------------------------------
  // The direct meaning of the operations

  /** What a plain store holds for one Ref, and whether a commute has been applied to it. */
  datatype Direct = Direct(value: Value, commuted: bool)

  function DirectAct(d: Direct, act: Act): (Direct, Option<Value>) {
    match act
    case Read => (d, Some(d.value))
    case Ensure => (d, Some(d.value))
    case RefSet(w) => if d.commuted then (d, None) else (d.(value := w), Some(w))
    case Alter(f) =>
      if d.commuted || f(d.value).None? then (d, None) else (d.(value := f(d.value).value), f(d.value))
    case Commute(f) =>
      if f(d.value).None? then (d, None) else (Direct(f(d.value).value, true), f(d.value))
  }

  type Plain<K(==)> = map<K, Direct>

  function Start<K>(store: map<K, Value>): Plain<K> {
    map r | r in store :: Direct(store[r], false)
  }

  function Store<K>(p: Plain<K>): map<K, Value> {
    map r | r in p :: p[r].value
  }

  function DirectOp<K>(p: Plain<K>, op: Op<K>): (Plain<K>, Option<Value>) {
    if op.ref !in p then (p, None)
    else
      var (d, out) := DirectAct(p[op.ref], op.act);
      (p[op.ref := d], out)
  }

  /** A recorded operation applied to a plain store; `None` if it took effect in the trace and raises here. */
  function ReplayStep<K>(p: Plain<K>, e: Entry<K>): Option<Plain<K>> {
    if e.seen.None? then Some(p)
    else if DirectOp(p, e.op).1.None? then None
    else Some(DirectOp(p, e.op).0)
  }

  function Replay<K>(p: Plain<K>, trace: seq<Entry<K>>): Option<Plain<K>>
    decreases |trace|
  {
    if trace == [] then Some(p)
    else
      match Replay(p, trace[..|trace| - 1])
      case None => None
      case Some(q) => ReplayStep(q, trace[|trace| - 1])
  }

  // ------------------------------------------------------------------
  // One commit is one serial replay

  /** `s` is an earlier state of the entries `big` of the same Ref. */
  ghost predicate Grows(s: Slot, big: Slot) {
    && (s.read.Some? ==> big.read == s.read)
    && (s.write.Some? ==> big.write.Some?)
    && (s.ensured ==> big.ensured)
    && s.commutes <= big.commutes
  }

  lemma ApplyActGrows(s: Slot, act: Act, cell: Cell)
    ensures Grows(s, ApplyAct(s, act, cell).0)
  {
  }

  /** The log after one more entry of a trace, Ref by Ref. */
  lemma LogOfNext<K>(trace: seq<Entry<K>>, m: nat, r: K)
    requires m < |trace|
    ensures SlotOf(LogOf(trace[..m + 1]), r)
         == if r == trace[m].op.ref then ApplyAct(SlotOf(LogOf(trace[..m]), r), trace[m].op.act, trace[m].cell).0
            else SlotOf(LogOf(trace[..m]), r)
  {
    assert trace[..m + 1][..m] == trace[..m];
  }

  lemma {:induction false} PrefixGrows<K>(trace: seq<Entry<K>>, n: nat, r: K)
    requires n <= |trace|
    ensures Grows(SlotOf(LogOf(trace[..n]), r), SlotOf(LogOf(trace), r))
    decreases |trace| - n
  {
    if n == |trace| {
      assert trace[..n] == trace;
    } else {
      PrefixGrows(trace, n + 1, r);
      LogOfNext(trace, n, r);
      ApplyActGrows(SlotOf(LogOf(trace[..n]), r), trace[n].op.act, trace[n].cell);
    }
  }

  /** A Ref whose version is still the one that was read still holds the value that was read. */
  ghost predicate VersionsIdentify<K>(l: Log<K>, mem: map<K, Cell>)
    requires l.Keys <= mem.Keys
  {
    forall r :: r in l && l[r].read.Some? && l[r].read.value.version == mem[r].version ==> l[r].read.value == mem[r]
  }

  /** What validation establishes for a Ref: it still holds what was read, and its replay is defined. */
  ghost predicate Validated(big: Slot, base: Value) {
    && (big.Protected() ==> big.read.value.value == base)
    && (big.Pure() ==> Fold(big.commutes, base).Some?)
  }

  ghost predicate ValidatedAll<K>(big: Log<K>, base: map<K, Value>) {
    forall r :: r in base ==> Validated(SlotOf(big, r), base[r])
  }

  /** The plain value that the entries `s`, an earlier state of `big`, stand for over the committed value `base`. */
  ghost predicate Explains(d: Direct, s: Slot, big: Slot, base: Value) {
    && d.commuted == (s.commutes != [])
    && if s.write.Some? then d.value == s.write.value
       else if big.Protected() then d.value == (if s.commuted.Some? then s.commuted.value else base)
       else Fold(s.commutes, base) == Some(d.value)
  }

  lemma FoldsAgree(s: Slot, act: Act, cell: Cell, big: Slot, base: Value)
    requires big.Ok() && Validated(big, base) && Grows(ApplyAct(s, act, cell).0, big)
    ensures !big.Protected() && ApplyAct(s, act, cell).0.commutes != [] ==>
      Fold(ApplyAct(s, act, cell).0.commutes, base).Some?
    ensures act.Commute? ==>
      Fold(s.commutes + [act.f], base) ==
        match Fold(s.commutes, base) { case None => None case Some(w) => act.f(w) }
  {
    var s1 := ApplyAct(s, act, cell).0;
    if act.Commute? {
      FoldSnoc(s.commutes, act.f, base);
    }
    if !big.Protected() && s1.commutes != [] {
      FoldPrefix(s1.commutes, big.commutes, base);
    }
  }

  /** One operation, given what the replay of the commute functions it adds to comes to. */
  lemma ExplainsAct(d: Direct, s: Slot, act: Act, cell: Cell, big: Slot, base: Value)
    requires s.Ok() && big.Ok() && Validated(big, base) && Explains(d, s, big, base)
    requires !big.Protected() && ApplyAct(s, act, cell).0.commutes != [] ==>
      Fold(ApplyAct(s, act, cell).0.commutes, base).Some?
    requires act.Commute? ==>
      Fold(s.commutes + [act.f], base) ==
        match Fold(s.commutes, base) { case None => None case Some(w) => act.f(w) }
    requires Grows(ApplyAct(s, act, cell).0, big)
    ensures var (s1, out) := ApplyAct(s, act, cell);
      var (d1, direct) := DirectAct(d, act);
      && (out.Some? ==> direct.Some?)
      && Explains(if out.Some? then d1 else d, s1, big, base)
      && (big.Protected() ==> direct == out)
  {
    hide Fold;
  }

  /** If entry `k` is on a protected Ref, the direct operation sees the same in a serial replay up to it. */
  ghost predicate SeesAt<K>(p: Plain<K>, trace: seq<Entry<K>>, log: Log<K>, k: nat)
    requires k < |trace|
  {
    SlotOf(log, trace[k].op.ref).Protected() ==>
      && Replay(p, trace[..k]).Some?
      && DirectOp(Replay(p, trace[..k]).value, trace[k].op).1 == trace[k].seen
  }

  /** Every protected observation of the trace is what the direct operations see in a serial replay. */
  ghost predicate SeesSerially<K>(p: Plain<K>, trace: seq<Entry<K>>, log: Log<K>) {
    forall k :: 0 <= k < |trace| ==> SeesAt(p, trace, log, k)
  }

  ghost predicate ExplainsAll<K>(p: Plain<K>, l: Log<K>, big: Log<K>, base: map<K, Value>) {
    p.Keys == base.Keys && forall r :: r in base ==> Explains(p[r], SlotOf(l, r), SlotOf(big, r), base[r])
  }

  lemma ExplainsEntry<K>(p: Plain<K>, l: Log<K>, e: Entry<K>, big: Log<K>, base: map<K, Value>)
    requires ExplainsAll(p, l, big, base) && e.op.ref in base
    requires SlotOf(l, e.op.ref).Ok() && SlotOf(big, e.op.ref).Ok()
    requires Validated(SlotOf(big, e.op.ref), base[e.op.ref])
    requires e.seen == ApplyOp(l, e.op, e.cell).1
    requires Grows(SlotOf(ApplyOp(l, e.op, e.cell).0, e.op.ref), SlotOf(big, e.op.ref))
    ensures ReplayStep(p, e).Some?
    ensures ExplainsAll(ReplayStep(p, e).value, ApplyOp(l, e.op, e.cell).0, big, base)
    ensures SlotOf(big, e.op.ref).Protected() ==> DirectOp(p, e.op).1 == e.seen
  {
    var r := e.op.ref;
    FoldsAgree(SlotOf(l, r), e.op.act, e.cell, SlotOf(big, r), base[r]);
    ExplainsAct(p[r], SlotOf(l, r), e.op.act, e.cell, SlotOf(big, r), base[r]);
    hide Fold, Explains, Grows, DirectAct, Validated;
    var p1 := ReplayStep(p, e).value;
    var l1 := ApplyOp(l, e.op, e.cell).0;
    forall q | q in base ensures Explains(p1[q], SlotOf(l1, q), SlotOf(big, q), base[q]) {
      if q != r {
        assert p1[q] == p[q] && SlotOf(l1, q) == SlotOf(l, q);
      }
    }
  }

  /** The last of some entries, for the replay and for the log. */
  lemma OneEntry<K>(p: Plain<K>, trace: seq<Entry<K>>, n: nat)
    requires 0 < n <= |trace|
    ensures LogOf(trace[..n]) == ApplyOp(LogOf(trace[..n - 1]), trace[n - 1].op, trace[n - 1].cell).0
    ensures Replay(p, trace[..n]) ==
      match Replay(p, trace[..n - 1]) {
        case None => None
        case Some(q) => ReplayStep(q, trace[n - 1])
      }
  {
    assert trace[..n][..n - 1] == trace[..n - 1] && trace[..n][n - 1] == trace[n - 1];
  }

  lemma {:induction false} ReplayExplains<K>(trace: seq<Entry<K>>, n: nat, base: map<K, Value>)
    requires Faithful(trace) && n <= |trace|
    requires On(trace, base.Keys)
    requires ValidatedAll(LogOf(trace), base)
    ensures Replay(Start(base), trace[..n]).Some?
    ensures ExplainsAll(Replay(Start(base), trace[..n]).value, LogOf(trace[..n]), LogOf(trace), base)
    ensures 0 < n ==> SeesAt(Start(base), trace, LogOf(trace), n - 1)
    decreases n
  {
    if n > 0 {
      var m := n - 1;
      var e := trace[m];
      ReplayExplains(trace, m, base);
      OneEntry(Start(base), trace, n);
      hide Slot.Ok, Validated, Explains, Grows, DirectAct, ApplyAct, LogOf, Replay;
      LogOfOk(trace[..m], e.op.ref);
      LogOfOk(trace, e.op.ref);
      PrefixGrows(trace, n, e.op.ref);
      ExplainsEntry(Replay(Start(base), trace[..m]).value, LogOf(trace[..m]), e, LogOf(trace), base);
    }
  }

  /** What a decision to publish says, Ref by Ref. */
  ghost predicate Publishes<K>(l: Log<K>, mem: map<K, Cell>, changes: map<K, Value>)
    requires l.Keys <= mem.Keys
  {
    && (forall r :: r in l ==> !l[r].Conflict(mem[r]))
    && changes.Keys <= l.Keys
    && (forall r :: r in l ==> (r in changes <==> l[r].Touched()))
    && (forall r :: r in changes ==> l[r].NewValue(mem[r]) == Some(changes[r]))
  }

  lemma DecidePublish<K>(l: Log<K>, mem: map<K, Cell>, valid: (K, Value) -> bool, changes: map<K, Value>)
    requires l.Keys <= mem.Keys && Decide(l, mem, valid) == Publish(changes)
    ensures Publishes(l, mem, changes)
    ensures forall r :: r in changes ==> valid(r, changes[r])
  {
    forall r | r in l ensures !l[r].Conflict(mem[r]) {
      assert r !in Conflicts(l, mem);
    }
  }

  lemma ExplainsPublished<K>(p: Plain<K>, l: Log<K>, mem: map<K, Cell>, changes: map<K, Value>)
    requires ExplainsAll(p, l, l, Values(mem)) && l.Keys <= mem.Keys
    requires forall r :: r in l ==> l[r].Ok()
    requires Publishes(l, mem, changes) && VersionsIdentify(l, mem)
    ensures Store(p) == Values(Published(mem, changes))
  {
    forall r | r in mem ensures p[r].value == Published(mem, changes)[r].value {
      assert Explains(p[r], SlotOf(l, r), SlotOf(l, r), Values(mem)[r]);
      if r in l {
        assert r in changes <==> l[r].Touched();
      }
    }
  }

  lemma ReplaySees<K>(trace: seq<Entry<K>>, base: map<K, Value>)
    requires Faithful(trace) && On(trace, base.Keys) && ValidatedAll(LogOf(trace), base)
    ensures SeesSerially(Start(base), trace, LogOf(trace))
  {
    forall k: nat | k < |trace| ensures SeesAt(Start(base), trace, LogOf(trace), k) {
      ReplayExplains(trace, k + 1, base);
    }
  }

  /** A replay of the whole trace ends in the store that the log stands for. */
  lemma ReplayStands<K>(trace: seq<Entry<K>>, base: map<K, Value>)
    requires Faithful(trace) && On(trace, base.Keys) && ValidatedAll(LogOf(trace), base)
    ensures Replay(Start(base), trace).Some?
    ensures ExplainsAll(Replay(Start(base), trace).value, LogOf(trace), LogOf(trace), base)
  {
    ReplayExplains(trace, |trace|, base);
    assert trace[..|trace|] == trace;
  }

  lemma LogOk<K>(trace: seq<Entry<K>>)
    ensures forall r :: r in LogOf(trace) ==> LogOf(trace)[r].Ok()
  {
    forall r | r in LogOf(trace) ensures LogOf(trace)[r].Ok() {
      LogOfOk(trace, r);
    }
  }

  /**
    A trace whose commit publishes is a serial run: replaying it directly on
    the committed store gives exactly the published store, and every protected
    Ref was seen to hold what that replay sees.
  */
  lemma CommitIsReplay<K>(trace: seq<Entry<K>>, mem: map<K, Cell>, changes: map<K, Value>)
    requires Faithful(trace) && On(trace, mem.Keys) && LogOf(trace).Keys <= mem.Keys
    requires Publishes(LogOf(trace), mem, changes) && VersionsIdentify(LogOf(trace), mem)
    ensures Replay(Start(Values(mem)), trace).Some?
    ensures Store(Replay(Start(Values(mem)), trace).value) == Values(Published(mem, changes))
    ensures SeesSerially(Start(Values(mem)), trace, LogOf(trace))
  {
    ReplaySees(trace, Values(mem));
    ReplayStands(trace, Values(mem));
    LogOk(trace);
    ExplainsPublished(Replay(Start(Values(mem)), trace).value, LogOf(trace), mem, changes);
  }
}
