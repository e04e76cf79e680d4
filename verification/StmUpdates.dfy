/**
  Concurrent updates of one Ref (src/basilisp/lang/stm.py:163-303): with the
  operations of a transaction, all of which `StmRuns` interleaves, no update is
  lost and none is done twice.
*/
module StmUpdates {
  import opened Prelude
  import opened StmLog
  import opened StmRuns
  import opened StmProgress

  /** A body of one operation, which returns what the operation does. */
  function One(op: Op<RefId>): Body {
    (seen: seq<Option<Value>>) =>
      if seen == [] then Do(op) else match seen[0] case None => Fail case Some(v) => Return(v)
  }

  /** The value an operation leaves in a Ref that holds `v`. */
  function Result(act: Act, v: Value): Option<Value> {
    match act
    case Alter(f) => f(v)
    case Commute(f) => f(v)
    case RefSet(w) => Some(w)
    case Read => Some(v)
    case Ensure => Some(v)
  }

  /** The value after an operation has been done `n` times. */
  function After(act: Act, v: Value, n: nat): Option<Value> {
    if n == 0 then Some(v)
    else
      match After(act, v, n - 1)
      case None => None
      case Some(w) => Result(act, w)
  }

  ghost predicate AllRun(run: seq<Label>, body: Body) {
    forall i :: 0 <= i < |run| && run[i].Begin? ==> run[i].body == body
  }

  lemma {:induction false} BegunWith(run: seq<Label>, body: Body, t: TxId)
    requires AllRun(run, body)
    ensures BegunAs(run, t).Some? ==> BegunAs(run, t).value.0 == body
    decreases |run|
  {
    if run != [] {
      assert AllRun(run[..|run| - 1], body);
      BegunWith(run[..|run| - 1], body, t);
    }
  }

  /** Memory `mem` differs from `before` only in the value of one Ref. */
  ghost predicate HoldsAt(mem: Mem, before: Mem, r: RefId, v: Option<Value>) {
    && mem.Keys == before.Keys && r in mem && Some(mem[r].value) == v
    && forall q :: q in mem && q != r ==> mem[q].value == before[q].value
  }

  lemma OneOperationCommit(mem: Mem, c: Commit, r: RefId, act: Act)
    requires CommitOk(mem, c) && c.body == One(Op(r, act)) && r in mem
    ensures Result(act, mem[r].value).Some?
    ensures HoldsAt(Published(mem, c.changes), mem, r, Result(act, mem[r].value))
    ensures !act.Commute? ==> Some(c.result) == Result(act, mem[r].value)
  {
    var trace := c.trace;
    assert Seen(trace[..0]) == [];
    assert trace != [];
    assert trace[..1] == [trace[0]] && Seen([trace[0]]) == [trace[0].seen];
    var e := trace[0];
    assert trace == [e] && e.op == Op(r, act) && e.seen == Some(c.result);
    OneReplayed(Values(mem), e, r, act);
    assert SeesAt(Start(Values(mem)), trace, LogOf(trace), 0);
    var after := Published(mem, c.changes);
    assert Values(after) == Values(mem)[r := Result(act, mem[r].value).value];
    forall q | q in mem ensures after[q].value == Values(after)[q] && mem[q].value == Values(mem)[q] {
    }
  }

  lemma OneReplayed(base: map<RefId, Value>, e: Entry<RefId>, r: RefId, act: Act)
    requires r in base && e.op == Op(r, act) && e.seen.Some? && Replay(Start(base), [e]).Some?
    ensures Result(act, base[r]).Some?
    ensures Store(Replay(Start(base), [e]).value) == base[r := Result(act, base[r]).value]
    ensures Replay(Start(base), [e][..0]) == Some(Start(base))
    ensures DirectOp(Start(base), e.op).1 == Result(act, base[r])
    ensures !act.Commute? ==> SlotOf(LogOf([e]), r).Protected()
  {
    assert [e][..0] == [];
    var p := Replay(Start(base), [e]).value;
    assert p == DirectOp(Start(base), e.op).0;
  }

  /**
    When every transaction does the same one thing to one Ref, in whatever
    interleaving, every commit takes effect exactly once, each on the value the
    one before it left: counters count.
  */
  lemma NoUpdateLost(store: map<RefId, Value>, run: seq<Label>, valid: Validator, r: RefId, act: Act)
    requires r in store && AllRun(run, One(Op(r, act)))
    ensures var s := Exec(Init(store), run, valid);
      && r in s.mem && Some(s.mem[r].value) == After(act, store[r], |s.history|)
      && (forall q :: q in store && q != r ==> q in s.mem && s.mem[q].value == store[q])
      && forall i :: 0 <= i < |s.history| && !act.Commute? ==>
        Some(s.history[i].result) == After(act, store[r], i + 1)
  {
    ExecInv(store, run, valid);
    GivesUpAtTheLimit(store, run, valid);
    var s := Exec(Init(store), run, valid);
    hide Exec, HistoryOk;
    forall i | 0 <= i < |s.history| ensures s.history[i].body == One(Op(r, act)) {
      BegunWith(run, One(Op(r, act)), s.history[i].who);
    }
    hide BegunAs, AllRun, StatusOk, AsBegun;
    HistoryCounts(Init(store).mem, s.history, |s.history|, r, act);
  }

  lemma {:induction false} HistoryCounts(init: Mem, h: seq<Commit>, n: nat, r: RefId, act: Act)
    requires HistoryOk(init, h) && n <= |h| && r in init
    requires forall i :: 0 <= i < |h| ==> h[i].body == One(Op(r, act))
    ensures HoldsAt(MemAt(init, h, n), init, r, After(act, init[r].value, n))
    ensures forall i :: 0 <= i < n && !act.Commute? ==> Some(h[i].result) == After(act, init[r].value, i + 1)
  {
    hide HistoryOk, CommitOk, Published, MemAt, HoldsAt, Result, One;
    MemoryAfter(init, h, n, r);
    if n > 0 {
      HistoryCounts(init, h, n - 1, r, act);
      var mem := MemAt(init, h, n - 1);
      HoldsValue(mem, init, r);
      OneOperationCommit(mem, h[n - 1], r, act);
      HoldsLater(MemAt(init, h, n), mem, init, r, Result(act, mem[r].value), After(act, init[r].value, n - 1));
    }
  }

  lemma MemoryAfter(init: Mem, h: seq<Commit>, n: nat, r: RefId)
    requires HistoryOk(init, h) && n <= |h| && r in init
    ensures n == 0 ==> HoldsAt(MemAt(init, h, n), init, r, Some(init[r].value))
    ensures n > 0 ==> CommitOk(MemAt(init, h, n - 1), h[n - 1])
    ensures n > 0 ==> MemAt(init, h, n) == Published(MemAt(init, h, n - 1), h[n - 1].changes)
  {
    hide CommitOk, Published;
  }

  lemma HoldsValue(mem: Mem, before: Mem, r: RefId)
    ensures forall v :: HoldsAt(mem, before, r, v) ==> r in mem && Some(mem[r].value) == v
  {
  }

  lemma HoldsLater(mem2: Mem, mem1: Mem, mem: Mem, r: RefId, v2: Option<Value>, v1: Option<Value>)
    requires HoldsAt(mem2, mem1, r, v2) && HoldsAt(mem1, mem, r, v1)
    ensures HoldsAt(mem2, mem, r, v2)
  {
  }

  // ------------------------------------------------------------------
  // What an attempt sees of its own operations

  /** What a Ref is to an attempt: what it wrote, else commuted, else read there, else what is committed. */
  function Within(l: Log<RefId>, mem: Mem, r: RefId): Value
    requires r in mem
  {
    WithinSlot(SlotOf(l, r), mem[r].value)
  }

  function WithinSlot(s: Slot, committed: Value): Value {
    if s.write.Some? then s.write.value
    else if s.commuted.Some? then s.commuted.value
    else if s.read.Some? then s.read.value.value
    else committed
  }

  /**
    An operation sees the attempt's own value, and what it stages is the value
    the attempt has from then on; a Ref that was commuted is not written again.
  */
  lemma SeesItsOwn(s: State, t: TxId, r: RefId, act: Act, valid: Validator)
    requires t in s.txns && s.txns[t].Running? && s.txns[t].txn.body(Seen(s.txns[t].txn.trace)) == Do(Op(r, act))
    requires LogOf(s.txns[t].txn.trace).Keys <= s.mem.Keys && r in s.mem
    ensures var (txn, txn1) := (s.txns[t].txn, Next(s, Step(t), valid).txns[t].txn);
      var (l, l1) := (LogOf(txn.trace), LogOf(txn1.trace));
      var refused := (act.Alter? || act.RefSet?) && SlotOf(l, r).commutes != [];
      var seen := if refused then None else Result(act, Within(l, s.mem, r));
      && Seen(txn1.trace) == Seen(txn.trace) + [seen]
      && Within(l1, s.mem, r) == (if seen.Some? then seen.value else Within(l, s.mem, r))
      && forall q :: q in s.mem && q != r ==> Within(l1, s.mem, q) == Within(l, s.mem, q)
  {
    var l := LogOf(s.txns[t].txn.trace);
    LogOfOk(s.txns[t].txn.trace, r);
    OperationDoes(s, t, Op(r, act), valid);
    ActSees(SlotOf(l, r), act, s.mem[r]);
    hide Next, LogOf, Seen, ApplyAct, Slot.Ok, WithinSlot, Result;
  }

  lemma ActSees(s: Slot, act: Act, committed: Cell)
    requires s.Ok()
    ensures var (s1, out) := ApplyAct(s, act, if s.read.Some? then s.read.value else committed);
      var refused := (act.Alter? || act.RefSet?) && s.commutes != [];
      var value := WithinSlot(s, committed.value);
      && out == (if refused then None else Result(act, value))
      && WithinSlot(s1, committed.value) == if out.Some? then out.value else value
  {
    hide Fold;
  }

  /** A Ref that an attempt read, wrote or ensured stops its commit once another transaction has committed to it. */
  lemma ProtectedStops(s: State, t: TxId, v: Value, valid: Validator, k: nat)
    requires Returning(s, t, v) && k < |s.txns[t].txn.trace|
    requires var op := s.txns[t].txn.trace[k].op;
      var slot := SlotOf(LogOf(s.txns[t].txn.trace), op.ref);
      && op.ref in s.mem && (op.act.Ensure? || slot.write.Some? || slot.commutes == [])
      && slot.read.Some? && slot.read.value.version != s.mem[op.ref].version
    ensures Next(s, Step(t), valid).mem == s.mem && Next(s, Step(t), valid).history == s.history
    ensures !Next(s, Step(t), valid).txns[t].Done?
  {
    var txn := s.txns[t].txn;
    var r := txn.trace[k].op.ref;
    PrefixGrows(txn.trace, k + 1, r);
    LogOfNext(txn.trace, k, r);
    assert Stale(LogOf(txn.trace)[r], s.mem[r]);
    hide LogOf, Seen, Stale;
    AttemptEnds(s, t, v, valid);
  }
}
